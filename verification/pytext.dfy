/** Python string and path operations used by the modelled code:
    `str.strip`, `str(int)`, `str.join`, `str.rfind`, `s.split("/")[-1]`,
    `os.path.basename`, `os.path.join`, `os.path.splitext` and `PurePath.parent`. */
module PyText {

  /** `c.isspace()` for one character: the Unicode whitespace characters Python recognises. */
  predicate IsSpace(c: char) {
    c == ' ' || ('\t' <= c <= '\r') || ('\U{1c}' <= c <= '\U{1f}')
    || c == '\U{85}' || c == '\U{a0}' || c == '\U{1680}'
    || ('\U{2000}' <= c <= '\U{200a}') || c == '\U{2028}' || c == '\U{2029}'
    || c == '\U{202f}' || c == '\U{205f}' || c == '\U{3000}'
  }

  /** A string made of whitespace only (the empty string included). */
  predicate IsBlank(s: string) {
    forall i :: 0 <= i < |s| ==> IsSpace(s[i])
  }

  /** `s.lstrip()`: drops the leading whitespace. */
  function LStrip(s: string): (r: string)
    ensures |r| <= |s| && r == s[|s| - |r|..]
    ensures IsBlank(s[..|s| - |r|])
    ensures r == [] || !IsSpace(r[0])
  {
    if s != [] && IsSpace(s[0]) then
      var r := LStrip(s[1..]);
      assert s[..|s| - |r|] == [s[0]] + s[1..][..|s| - 1 - |r|];
      r
    else s
  }

  /** `s.rstrip()`: drops the trailing whitespace. */
  function RStrip(s: string): (r: string)
    ensures |r| <= |s| && r == s[..|r|]
    ensures IsBlank(s[|r|..])
    ensures r == [] || !IsSpace(r[|r| - 1])
  {
    if s != [] && IsSpace(s[|s| - 1]) then
      var r := RStrip(s[..|s| - 1]);
      assert s[|r|..] == s[..|s| - 1][|r|..] + [s[|s| - 1]];
      r
    else s
  }

  /** How many whitespace characters `s` starts with. */
  function LeadingBlanks(s: string): (k: nat)
    ensures k <= |s| && IsBlank(s[..k])
  {
    |s| - |LStrip(s)|
  }

  /** `s.strip()`: the part of `s` between its leading and its trailing whitespace. */
  function Strip(s: string): (r: string)
    ensures r == [] || (!IsSpace(r[0]) && !IsSpace(r[|r| - 1]))
    ensures LeadingBlanks(s) + |r| <= |s|
    ensures r == s[LeadingBlanks(s)..LeadingBlanks(s) + |r|]
    ensures IsBlank(s[LeadingBlanks(s) + |r|..])
  {
    var l := LStrip(s);
    var r := RStrip(l);
    assert s[LeadingBlanks(s) + |r|..] == l[|r|..];
    r
  }

  /** Stripping gives the empty string exactly for blank strings. */
  lemma StripEmptyIffBlank(s: string)
    ensures Strip(s) == [] <==> IsBlank(s)
  {
    var r := Strip(s);
    var i := LeadingBlanks(s);
    if r == [] {
      forall k | 0 <= k < |s| ensures IsSpace(s[k]) {
        assert s[..i][k] == s[k];
      }
    } else {
      assert s[i] == r[0];
    }
  }

  /** A string with no leading or trailing whitespace is left unchanged by stripping. */
  lemma StripUnchanged(s: string)
    requires s == [] || (!IsSpace(s[0]) && !IsSpace(s[|s| - 1]))
    ensures Strip(s) == s
  {
  }

  /** Stripping `s + t`, where `t` is whitespace and `s` has no whitespace at either end, gives `s`. */
  lemma {:induction false} StripTrailingBlank(s: string, t: string)
    requires s != [] && !IsSpace(s[0]) && !IsSpace(s[|s| - 1])
    requires IsBlank(t)
    ensures Strip(s + t) == s
  {
    var u := s + t;
    assert LStrip(u) == u;
    RStripBlankSuffix(s, t);
  }

  lemma {:induction false} RStripBlankSuffix(s: string, t: string)
    requires s != [] && !IsSpace(s[|s| - 1])
    requires IsBlank(t)
    ensures RStrip(s + t) == s
    decreases |t|
  {
    if t == [] {
      assert s + t == s;
    } else {
      var u := s + t;
      assert IsSpace(u[|u| - 1]);
      assert u[..|u| - 1] == s + t[..|t| - 1];
      RStripBlankSuffix(s, t[..|t| - 1]);
    }
  }

  /** `sep.join(parts)`. */
  function JoinWith(sep: string, parts: seq<string>): string {
    if parts == [] then ""
    else if |parts| == 1 then parts[0]
    else JoinWith(sep, parts[..|parts| - 1]) + sep + parts[|parts| - 1]
  }

  /** The decimal digit `d`. */
  function DigitChar(d: nat): (c: char)
    requires d < 10
    ensures '0' <= c <= '9' && (c as int) - ('0' as int) == d
  {
    (d + '0' as int) as char
  }

  predicate IsDigits(s: string) {
    forall i :: 0 <= i < |s| ==> '0' <= s[i] <= '9'
  }

  /** `str(n)` for a non-negative integer: its decimal digits, without leading zeros. */
  function NatToString(n: nat): (r: string)
    ensures r != [] && IsDigits(r)
    ensures r[0] == '0' ==> n == 0
  {
    if n < 10 then [DigitChar(n)] else NatToString(n / 10) + [DigitChar(n % 10)]
  }

  /** `int(s)` for a string of decimal digits. */
  function DigitsValue(s: string): nat
    requires IsDigits(s)
  {
    if s == [] then 0 else 10 * DigitsValue(s[..|s| - 1]) + ((s[|s| - 1] as int) - ('0' as int))
  }

  /** `int(str(n)) == n`. */
  lemma {:induction false} NatToStringRoundTrip(n: nat)
    ensures DigitsValue(NatToString(n)) == n
  {
    if n >= 10 {
      var s := NatToString(n);
      assert s[..|s| - 1] == NatToString(n / 10);
      NatToStringRoundTrip(n / 10);
    }
  }

  /** Different numbers are written differently. */
  lemma NatToStringInjective(m: nat, n: nat)
    requires NatToString(m) == NatToString(n)
    ensures m == n
  {
    NatToStringRoundTrip(m);
    NatToStringRoundTrip(n);
  }

  /** `s.rfind(c)`: the last position of `c` in `s`, or -1. */
  function RFind(s: string, c: char): (i: int)
    ensures -1 <= i < |s|
    ensures i >= 0 ==> s[i] == c
    ensures forall k :: i < k < |s| ==> s[k] != c
  {
    if s == [] then -1
    else if s[|s| - 1] == c then |s| - 1
    else RFind(s[..|s| - 1], c)
  }

  /** `s.split("/")[-1]`, which is also `os.path.basename(s)`: the part after the last '/'. */
  function LastSegment(s: string): (r: string)
    ensures |r| <= |s| && r == s[|s| - |r|..]
    ensures '/' !in r
    ensures |r| < |s| ==> s[|s| - |r| - 1] == '/'
  {
    s[RFind(s, '/') + 1..]
  }

  /** The last segment of `dir + "/" + name` is `name` when `name` holds no '/'. */
  lemma LastSegmentOfJoin(dir: string, name: string)
    requires '/' !in name
    ensures LastSegment(dir + "/" + name) == name
  {
    var s := dir + "/" + name;
    var r := LastSegment(s);
    assert s[|s| - |name| - 1] == '/';
  }

  /** `os.path.join(a, b)` for two POSIX path strings. */
  function JoinPath(a: string, b: string): string {
    if |b| > 0 && b[0] == '/' then b
    else if a == [] || a[|a| - 1] == '/' then a + b
    else a + "/" + b
  }

  /** A character in neither part is not in their concatenation. */
  lemma NotInConcat(c: char, a: string, b: string)
    requires c !in a && c !in b
    ensures c !in a + b
  {
    assert forall k :: 0 <= k < |a + b| ==> (a + b)[k] == if k < |a| then a[k] else b[k - |a|];
  }

  /** The base name of `os.path.join(dir, name)` is `name` when `name` holds no '/'. */
  lemma BasenameOfJoin(dir: string, name: string)
    requires '/' !in name
    ensures LastSegment(JoinPath(dir, name)) == name
  {
    var s := JoinPath(dir, name);
    if dir == [] || dir[|dir| - 1] == '/' {
      assert s == dir + name;
      assert forall k :: |dir| <= k < |s| ==> s[k] == name[k - |dir|];
      var j := RFind(s, '/');
      if dir != [] {
        assert s[|dir| - 1] == '/';
      }
      assert j == |dir| - 1;
      assert s[j + 1..] == name;
    } else {
      LastSegmentOfJoin(dir, name);
    }
  }

  /** Joining one directory with relative names that start differently gives different paths. */
  lemma JoinPathDistinct(dir: string, a: string, b: string)
    requires a != [] && b != [] && a[0] != '/' && b[0] != '/' && a[0] != b[0]
    ensures JoinPath(dir, a) != JoinPath(dir, b)
  {
    var k := if dir == [] || dir[|dir| - 1] == '/' then |dir| else |dir| + 1;
    assert JoinPath(dir, a)[k] == a[0];
    assert JoinPath(dir, b)[k] == b[0];
  }

  /** `str(PurePath(p).parent)` for a path already in PurePath's normal form
      (no empty, '.' or trailing segments). */
  function Parent(p: string): string {
    var i := RFind(p, '/');
    if i < 0 then "." else if i == 0 then "/" else p[..i]
  }

  /** `os.path.splitext(p)[0]`: `p` without its extension, which starts at the last '.'
      of the last path segment unless only dots precede it in that segment. */
  function SplitExtRoot(p: string): string {
    var sep := RFind(p, '/');
    var dot := RFind(p, '.');
    if dot > sep && exists k :: sep + 1 <= k < dot && p[k] != '.' then p[..dot] else p
  }

  /** Removing the extension of `stem + ext` gives back `stem` when `ext` is a dot
      followed by dot-free text and `stem` is a file name with a character other than '.'. */
  lemma SplitExtRootOfSuffix(stem: string, ext: string)
    requires '/' !in stem && '/' !in ext
    requires |ext| > 0 && ext[0] == '.' && '.' !in ext[1..]
    requires exists k :: 0 <= k < |stem| && stem[k] != '.'
    ensures SplitExtRoot(stem + ext) == stem
  {
    var p := stem + ext;
    var dot := RFind(p, '.');
    assert p[|stem|] == '.';
    assert forall k :: |stem| < k < |p| ==> p[k] == ext[1..][k - |stem| - 1];
    assert dot == |stem|;
    assert forall k :: 0 <= k < |p| ==> p[k] == if k < |stem| then stem[k] else ext[k - |stem|];
    var k :| 0 <= k < |stem| && stem[k] != '.';
    assert p[k] != '.';
  }
}
