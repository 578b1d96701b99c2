/** Python's list idioms used by the modelled code: zip, itertools.chain, the
    first-occurrence key order of a dict, and the in-order batch runner. */
module PySeq {
  import opened Wrappers

  function Min(a: nat, b: nat): nat {
    if a <= b then a else b
  }

  /** Indexing into a list with one element put in front. */
  lemma ConsIndex<T>(x: T, s: seq<T>)
    ensures |[x] + s| == |s| + 1 && ([x] + s)[0] == x
    ensures forall j :: 1 <= j <= |s| ==> ([x] + s)[j] == s[j - 1]
  {
  }

  /** `zip(xs, ys)`: pairs positionally and stops at the end of the shorter list. */
  function Zip<A, B>(xs: seq<A>, ys: seq<B>): (r: seq<(A, B)>)
    ensures |r| == Min(|xs|, |ys|)
    ensures forall i :: 0 <= i < |r| ==> r[i] == (xs[i], ys[i])
  {
    if xs == [] || ys == [] then [] else [(xs[0], ys[0])] + Zip(xs[1..], ys[1..])
  }

  /** Sum of the lengths of the lists. */
  function TotalLength<T>(xss: seq<seq<T>>): nat {
    if xss == [] then 0 else |xss[0]| + TotalLength(xss[1..])
  }

  /** `list(itertools.chain(*xss))`: the lists one after the other. */
  function Flatten<T>(xss: seq<seq<T>>): (r: seq<T>)
    ensures |r| == TotalLength(xss)
    ensures xss != [] ==> r[..|xss[0]|] == xss[0]
  {
    if xss == [] then [] else xss[0] + Flatten(xss[1..])
  }

  /** Lists of pairwise equal lengths flatten to equal lengths. */
  lemma {:induction false} FlattenSameLength<A, B>(xss: seq<seq<A>>, yss: seq<seq<B>>)
    requires |xss| == |yss|
    requires forall i :: 0 <= i < |xss| ==> |xss[i]| == |yss[i]|
    ensures |Flatten(xss)| == |Flatten(yss)|
  {
    if xss != [] {
      FlattenSameLength(xss[1..], yss[1..]);
    }
  }

  /** The distinct elements of `xs`, each at the place of its first occurrence:
      the key order of a Python dict filled from `xs`. */
  function Dedup<T(==,!new)>(xs: seq<T>): (r: seq<T>)
    ensures forall x :: x in r <==> x in xs
    ensures forall i, j :: 0 <= i < j < |r| ==> r[i] != r[j]
    ensures |r| <= |xs|
  {
    if xs == [] then []
    else
      var d := Dedup(xs[..|xs| - 1]);
      assert forall x :: x in xs <==> x in xs[..|xs| - 1] || x == xs[|xs| - 1];
      if xs[|xs| - 1] in d then d else d + [xs[|xs| - 1]]
  }

  /** The position of the first element on which `f` fails, or `|xs|` when none does. */
  function FirstFailure<A, B>(xs: seq<A>, f: A -> Result<B>): (k: nat)
    ensures k <= |xs|
    ensures forall i :: 0 <= i < k ==> f(xs[i]).Ok?
    ensures k < |xs| ==> f(xs[k]).Err?
  {
    if xs == [] then 0
    else if f(xs[0]).Err? then 0
    else 1 + FirstFailure(xs[1..], f)
  }

  /** Runs the tasks one after the other, in order, and stops at the first exception:
      the sequential reading of the bounded-concurrency batch runner. */
  function MapResults<A, B>(xs: seq<A>, f: A -> Result<B>): (r: Result<seq<B>>)
    ensures r.Ok? <==> FirstFailure(xs, f) == |xs|
    ensures r.Ok? ==> |r.value| == |xs| && forall i :: 0 <= i < |xs| ==> r.value[i] == f(xs[i]).value
    ensures r.Err? ==> r.error == f(xs[FirstFailure(xs, f)]).error
  {
    if xs == [] then Ok([])
    else
      match f(xs[0])
      case Err(e) => Err(e)
      case Ok(v) =>
        var rest := MapResults(xs[1..], f);
        if rest.Err? then Err(rest.error) else Ok([v] + rest.value)
  }

  /** Whether `i` indexes a list of length `n` in Python, negative indices counting from the end. */
  predicate ValidIndex(i: int, n: nat) {
    -(n as int) <= i < n
  }

  /** The position Python's index `i` denotes in a list of length `n`. */
  function Norm(i: int, n: nat): (k: nat)
    requires ValidIndex(i, n)
    ensures k < n && (k == i || k == i + n)
  {
    if i < 0 then i + n else i
  }

  /** `xs[i]`: IndexError when `i` is out of range. */
  function PyAt<T>(xs: seq<T>, i: int): (r: Result<T>)
    ensures r.Ok? <==> ValidIndex(i, |xs|)
    ensures r.Ok? ==> r.value == xs[Norm(i, |xs|)]
    ensures r.Err? ==> r.error == IndexError(i)
  {
    if ValidIndex(i, |xs|) then Ok(xs[Norm(i, |xs|)]) else Err(IndexError(i))
  }
}
