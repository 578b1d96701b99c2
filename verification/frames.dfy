/** The pandas DataFrame operations the modelled code relies on, over a
    DataFrame with the default 0..n-1 row index: an ordered list of named
    columns of equal length. */
module Frames {
  import opened Wrappers

  /** One entry of a module's parameter dictionary, with its value as `str()` renders it. */
  datatype Param = Param(key: string, shown: string)

  /** A cell of a DataFrame (or a value of a Python dict). `Null` stands for None and NaN. */
  datatype Value =
    | Null
    | Bool(b: bool)
    | Num(x: real)
    | Str(s: string)
    | List(items: seq<Value>)
    | ParamDict(params: seq<Param>)

  datatype Column = Column(name: string, cells: seq<Value>)

  datatype Frame = Frame(columns: seq<Column>, rows: nat)

  predicate Rectangular(f: Frame) {
    forall i :: 0 <= i < |f.columns| ==> |f.columns[i].cells| == f.rows
  }

  /** A DataFrame: every column has one cell per row. */
  type Table = f: Frame | Rectangular(f) witness Frame([], 0)

  /** `list(df.columns)`. */
  function Names(cols: seq<Column>): (r: seq<string>)
    ensures |r| == |cols|
    ensures forall i :: 0 <= i < |cols| ==> r[i] == cols[i].name
  {
    if cols == [] then [] else [cols[0].name] + Names(cols[1..])
  }

  lemma NamesAppend(a: seq<Column>, b: seq<Column>)
    ensures Names(a + b) == Names(a) + Names(b)
  {
  }

  /** The position of the first column called `name`, or `|cols|`. */
  function FindColumn(cols: seq<Column>, name: string): (i: nat)
    ensures i <= |cols|
    ensures i < |cols| ==> cols[i].name == name
    ensures forall k :: 0 <= k < i ==> cols[k].name != name
  {
    if cols == [] then 0
    else if cols[0].name == name then 0
    else 1 + FindColumn(cols[1..], name)
  }

  /** `df[name]`: the column called `name`; KeyError when there is none.
      (Of several columns with that name, the first.) */
  function Lookup(t: Table, name: string): (r: Result<Column>)
    ensures r.Ok? <==> name in Names(t.columns)
    ensures r.Ok? ==> r.value in t.columns && r.value.name == name && |r.value.cells| == t.rows
    ensures r.Err? ==> r.error == KeyError(name)
  {
    var i := FindColumn(t.columns, name);
    if i < |t.columns| then Ok(t.columns[i]) else Err(KeyError(name))
  }

  /** `df[name] = cells`: replaces the column called `name`, or appends one.
      pandas refuses a list whose length is not the row count, except on a
      DataFrame that has neither columns nor rows, which takes the list's length. */
  function SetColumn(t: Table, name: string, cells: seq<Value>): (r: Result<Table>)
    ensures r.Ok? <==> (|cells| == t.rows || (t.columns == [] && t.rows == 0))
    ensures r.Err? ==> r.error.ValueError?
    ensures r.Ok? ==> Lookup(r.value, name) == Ok(Column(name, cells)) && r.value.rows == |cells|
    ensures r.Ok? && name !in Names(t.columns) ==> r.value.columns == t.columns + [Column(name, cells)]
    ensures r.Ok? && name in Names(t.columns) ==> Names(r.value.columns) == Names(t.columns)
    ensures r.Ok? ==> forall c :: c in t.columns && c.name != name ==> c in r.value.columns
  {
    if !(|cells| == t.rows || (t.columns == [] && t.rows == 0)) then
      var mismatch: Result<Table> := Err(ValueError("length of values does not match length of index"));
      mismatch
    else
      var i := FindColumn(t.columns, name);
      if i < |t.columns| then
        ReplacedColumn(t, i, name, cells);
        Ok(Frame(t.columns[i := Column(name, cells)], |cells|))
      else
        AppendedColumn(t, name, cells);
        Ok(Frame(t.columns + [Column(name, cells)], |cells|))
  }

  /** Overwriting the first column called `name` keeps the names and the other columns. */
  lemma ReplacedColumn(t: Table, i: nat, name: string, cells: seq<Value>)
    requires i == FindColumn(t.columns, name) && i < |t.columns| && |cells| == t.rows
    ensures var cols := t.columns[i := Column(name, cells)];
            Rectangular(Frame(cols, |cells|)) && FindColumn(cols, name) == i
            && Names(cols) == Names(t.columns)
            && forall c :: c in t.columns && c.name != name ==> c in cols
  {
    var cols := t.columns[i := Column(name, cells)];
    ReplacedFind(t.columns, i, name, cells);
    ReplacedShape(t, i, name, cells);
    forall c | c in t.columns && c.name != name
      ensures c in cols
    {
      var k :| 0 <= k < |t.columns| && t.columns[k] == c;
      assert k != i;
      assert cols[k] == c;
    }
  }

  lemma ReplacedFind(cols: seq<Column>, i: nat, name: string, cells: seq<Value>)
    requires i == FindColumn(cols, name) && i < |cols|
    ensures FindColumn(cols[i := Column(name, cells)], name) == i
  {
    var after := cols[i := Column(name, cells)];
    assert after[i].name == name;
    assert forall k :: 0 <= k < i ==> after[k].name != name by {
      assert forall k :: 0 <= k < i ==> after[k] == cols[k];
    }
  }

  lemma ReplacedShape(t: Table, i: nat, name: string, cells: seq<Value>)
    requires i < |t.columns| && t.columns[i].name == name && |cells| == t.rows
    ensures var cols := t.columns[i := Column(name, cells)];
            Rectangular(Frame(cols, |cells|)) && Names(cols) == Names(t.columns)
  {
    var cols := t.columns[i := Column(name, cells)];
    forall k | 0 <= k < |cols|
      ensures |cols[k].cells| == |cells| && cols[k].name == t.columns[k].name
    {
      if k != i {
        assert cols[k] == t.columns[k];
      }
    }
  }

  /** Adding a column called `name` that no column has appends it. */
  lemma AppendedColumn(t: Table, name: string, cells: seq<Value>)
    requires FindColumn(t.columns, name) == |t.columns|
    requires |cells| == t.rows || (t.columns == [] && t.rows == 0)
    ensures var cols := t.columns + [Column(name, cells)];
            Rectangular(Frame(cols, |cells|)) && FindColumn(cols, name) == |t.columns|
            && Names(cols) == Names(t.columns) + [name]
  {
    var cols := t.columns + [Column(name, cells)];
    assert cols[|t.columns|].name == name;
    assert forall k :: 0 <= k < |t.columns| ==> cols[k].name != name by {
      assert forall k :: 0 <= k < |t.columns| ==> cols[k] == t.columns[k];
    }
    NamesAppend(t.columns, [Column(name, cells)]);
  }

  /** `cells` padded with NaN up to `n` entries. */
  function Pad(cells: seq<Value>, n: nat): (r: seq<Value>)
    requires |cells| <= n
    ensures |r| == n && r[..|cells|] == cells
    ensures forall k :: |cells| <= k < n ==> r[k] == Null
  {
    cells + seq(n - |cells|, _ => Null)
  }

  function PadColumns(cols: seq<Column>, n: nat): (r: seq<Column>)
    requires forall i :: 0 <= i < |cols| ==> |cols[i].cells| <= n
    ensures |r| == |cols| && Names(r) == Names(cols)
    ensures forall i :: 0 <= i < |r| ==> r[i] == Column(cols[i].name, Pad(cols[i].cells, n))
    ensures Rectangular(Frame(r, n))
  {
    if cols == [] then [] else [Column(cols[0].name, Pad(cols[0].cells, n))] + PadColumns(cols[1..], n)
  }

  lemma PadNothing(cols: seq<Column>, n: nat)
    requires forall i :: 0 <= i < |cols| ==> |cols[i].cells| == n
    ensures PadColumns(cols, n) == cols
  {
    var r := PadColumns(cols, n);
    assert forall i :: 0 <= i < |r| ==> r[i] == cols[i] by {
      forall i | 0 <= i < |r| ensures r[i] == cols[i] {
        assert Pad(cols[i].cells, n) == cols[i].cells + [];
      }
    }
  }

  lemma RectangularAppend(x: seq<Column>, y: seq<Column>, n: nat)
    requires Rectangular(Frame(x, n)) && Rectangular(Frame(y, n))
    ensures Rectangular(Frame(x + y, n))
  {
    forall k | 0 <= k < |x + y|
      ensures |(x + y)[k].cells| == n
    {
      if k < |x| {
        assert (x + y)[k] == x[k];
      } else {
        assert (x + y)[k] == y[k - |x|];
      }
    }
  }

  /** The padded columns of `a` and `b` side by side: nothing is padded in the frame
      with more rows. */
  lemma ConcatLayout(a: Table, b: Table, n: nat)
    requires n == if a.rows >= b.rows then a.rows else b.rows
    ensures var cols := PadColumns(a.columns, n) + PadColumns(b.columns, n);
            Rectangular(Frame(cols, n))
            && Names(cols) == Names(a.columns) + Names(b.columns)
            && (a.rows >= b.rows ==> cols[..|a.columns|] == a.columns)
            && (b.rows >= a.rows ==> cols[|a.columns|..] == b.columns)
  {
    var left, right := PadColumns(a.columns, n), PadColumns(b.columns, n);
    RectangularAppend(left, right, n);
    NamesAppend(left, right);
    if a.rows >= b.rows {
      PadNothing(a.columns, n);
      assert (left + right)[..|a.columns|] == left;
    }
    if b.rows >= a.rows {
      PadNothing(b.columns, n);
      assert (left + right)[|a.columns|..] == right;
    }
  }

  /** `pd.concat([a, b], axis=1)`: the columns of `a`, then those of `b`, aligned
      on the row index; the shorter frame's columns are padded with NaN. */
  function Concat(a: Table, b: Table): (r: Table)
    ensures Names(r.columns) == Names(a.columns) + Names(b.columns)
    ensures r.rows == if a.rows >= b.rows then a.rows else b.rows
    ensures a.rows == b.rows ==> r.columns == a.columns + b.columns
    ensures |r.columns| == |a.columns| + |b.columns|
    ensures a.rows >= b.rows ==> r.columns[..|a.columns|] == a.columns
    ensures b.rows >= a.rows ==> r.columns[|a.columns|..] == b.columns
  {
    var n := if a.rows >= b.rows then a.rows else b.rows;
    var cols := PadColumns(a.columns, n) + PadColumns(b.columns, n);
    ConcatLayout(a, b, n);
    assert a.rows == b.rows ==> cols == cols[..|a.columns|] + cols[|a.columns|..];
    Frame(cols, n)
  }

  /** The columns whose names are not in `names`, in their order. */
  function KeepColumns(cols: seq<Column>, names: seq<string>): (r: seq<Column>)
    ensures forall c :: c in r <==> c in cols && c.name !in names
    ensures |r| <= |cols|
  {
    if cols == [] then []
    else if cols[0].name in names then KeepColumns(cols[1..], names)
    else [cols[0]] + KeepColumns(cols[1..], names)
  }

  /** Dropping from frames side by side drops from each, keeping the left frame's columns
      before the right frame's. */
  lemma {:induction false} KeepColumnsAppend(a: seq<Column>, b: seq<Column>, names: seq<string>)
    ensures KeepColumns(a + b, names) == KeepColumns(a, names) + KeepColumns(b, names)
  {
    if a != [] {
      assert (a + b)[1..] == a[1..] + b;
      KeepColumnsAppend(a[1..], b, names);
    } else {
      assert a + b == b;
    }
  }

  /** The first of `names` that no column has, or `|names|`. */
  function FirstMissing(cols: seq<Column>, names: seq<string>): (k: nat)
    ensures k <= |names|
    ensures forall j :: 0 <= j < k ==> names[j] in Names(cols)
    ensures k < |names| ==> names[k] !in Names(cols)
  {
    if names == [] then 0
    else if names[0] !in Names(cols) then 0
    else 1 + FirstMissing(cols, names[1..])
  }

  /** `df.drop(columns=names)`: every column whose name is listed goes; a listed
      name that is not a column raises KeyError. */
  function Drop(t: Table, names: seq<string>): (r: Result<Table>)
    ensures r.Ok? <==> forall n :: n in names ==> n in Names(t.columns)
    ensures r.Err? ==> r.error == KeyError(names[FirstMissing(t.columns, names)])
    ensures r.Ok? ==> r.value.rows == t.rows
    ensures r.Ok? ==> forall c :: c in r.value.columns <==> c in t.columns && c.name !in names
    ensures r.Ok? ==> r.value.columns == KeepColumns(t.columns, names)
  {
    var k := FirstMissing(t.columns, names);
    if k < |names| then
      assert names[k] in names;
      Err(KeyError(names[k]))
    else
      var cols := KeepColumns(t.columns, names);
      assert forall i :: 0 <= i < |cols| ==> cols[i] in t.columns;
      Ok(Frame(cols, t.rows))
  }

  /** Whether the named lists all have the same length. */
  predicate SameLengths(cols: seq<(string, seq<Value>)>) {
    forall i :: 0 <= i < |cols| ==> |cols[i].1| == |cols[0].1|
  }

  /** `pd.DataFrame(d)` for a dict `d` of lists, given as its (distinct) keys and values
      in insertion order; lists of different lengths raise ValueError. */
  function FromColumns(cols: seq<(string, seq<Value>)>): (r: Result<Table>)
    ensures r.Ok? <==> SameLengths(cols)
    ensures r.Err? ==> r.error.ValueError?
    ensures r.Ok? ==> |r.value.columns| == |cols| && r.value.rows == (if cols == [] then 0 else |cols[0].1|)
    ensures r.Ok? ==> forall i :: 0 <= i < |cols| ==> r.value.columns[i] == Column(cols[i].0, cols[i].1)
  {
    if !SameLengths(cols) then Err(ValueError("all arrays must be of the same length"))
    else
      var n := if cols == [] then 0 else |cols[0].1|;
      Ok(Frame(seq(|cols|, i requires 0 <= i < |cols| => Column(cols[i].0, cols[i].1)), n))
  }

  /** A column of numbers. */
  function Nums(xs: seq<real>): (r: seq<Value>)
    ensures |r| == |xs| && forall i :: 0 <= i < |xs| ==> r[i] == Num(xs[i])
  {
    if xs == [] then [] else [Num(xs[0])] + Nums(xs[1..])
  }

  function Sum(xs: seq<real>): real {
    if xs == [] then 0.0 else xs[0] + Sum(xs[1..])
  }

  /** The arithmetic mean of a non-empty list. */
  function Mean(xs: seq<real>): real
    requires |xs| > 0
  {
    Sum(xs) / (|xs| as real)
  }

  predicate AllNum(cells: seq<Value>) {
    forall i :: 0 <= i < |cells| ==> cells[i].Num?
  }

  /** The numbers of a column of numbers. */
  function Reals(cells: seq<Value>): (r: seq<real>)
    requires AllNum(cells)
    ensures |r| == |cells| && forall i :: 0 <= i < |r| ==> cells[i] == Num(r[i])
  {
    if cells == [] then [] else [cells[0].x] + Reals(cells[1..])
  }

  /** `df[name].mean()` on a DataFrame with rows: KeyError without such a column,
      TypeError when a cell is not a number. */
  function ColumnMean(t: Table, name: string): (r: Result<real>)
    requires t.rows > 0
    ensures r.Ok? <==> Lookup(t, name).Ok? && AllNum(Lookup(t, name).value.cells)
    ensures r.Ok? ==> r.value == Mean(Reals(Lookup(t, name).value.cells))
  {
    var c :- Lookup(t, name);
    if AllNum(c.cells) then Ok(Mean(Reals(c.cells))) else Err(TypeError("column is not numeric"))
  }
}
