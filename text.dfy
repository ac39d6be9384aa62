/**
 * The Python string and path builtins the converter relies on: `str.lower`,
 * `str.strip`, `str.startswith`, the `in` substring test, `str.split(sep)[1]`,
 * `str(int)`, `os.path.splitext` and `pathlib.Path(...).name` / `/`.
 * Characters are treated as ASCII where Python would apply Unicode rules.
 */
module Text {
  import opened Base

  // ---------------------------------------------------------------------
  // Case and white space
  // ---------------------------------------------------------------------

  predicate IsAsciiUpper(c: char) {
    'A' <= c <= 'Z'
  }

  function LowerChar(c: char): (r: char)
    ensures IsAsciiUpper(c) ==> 'a' <= r <= 'z' && r as int == c as int + 32
    ensures !IsAsciiUpper(c) ==> r == c
  {
    if IsAsciiUpper(c) then (c as int + 32) as char else c
  }

  /** `s.lower()`, over ASCII letters. */
  function Lower(s: string): (r: string)
    ensures |r| == |s|
    ensures forall i :: 0 <= i < |s| ==> r[i] == LowerChar(s[i])
  {
    seq(|s|, i requires 0 <= i < |s| => LowerChar(s[i]))
  }

  lemma LowerAppend(a: string, b: string)
    ensures Lower(a + b) == Lower(a) + Lower(b)
  {
    assert forall i :: 0 <= i < |a + b| ==> Lower(a + b)[i] == (Lower(a) + Lower(b))[i];
  }

  /**
   * The ASCII characters `str.strip()` removes: space, \t, \n, \v, \f, \r
   * and the separators U+001C..U+001F. White space beyond ASCII is not modelled.
   */
  predicate IsSpace(c: char) {
    c == ' ' || c == '\t' || c == '\n' || c == '\r' || c == '\U{0B}' || c == '\U{0C}'
    || ('\U{1C}' <= c <= '\U{1F}')
  }

  function StripLeft(s: string): (r: string)
    ensures |r| <= |s| && r == s[|s| - |r|..]
    ensures forall k :: 0 <= k < |s| - |r| ==> IsSpace(s[k])
    ensures r == [] || !IsSpace(r[0])
  {
    if |s| > 0 && IsSpace(s[0]) then StripLeft(s[1..]) else s
  }

  function StripRight(s: string): (r: string)
    ensures |r| <= |s| && r == s[..|r|]
    ensures forall k :: |r| <= k < |s| ==> IsSpace(s[k])
    ensures r == [] || !IsSpace(r[|r| - 1])
  {
    if |s| > 0 && IsSpace(s[|s| - 1]) then StripRight(s[..|s| - 1]) else s
  }

  /**
   * `s.strip()`: the infix of `s` left once the white space at both ends is
   * removed; it neither starts nor ends with white space.
   */
  function Strip(s: string): (r: string)
    ensures |r| <= |s|
    ensures exists a, b :: StrippedAt(s, r, a, b)
    ensures r == [] || (!IsSpace(r[0]) && !IsSpace(r[|r| - 1]))
    ensures (|s| == 0 || (!IsSpace(s[0]) && !IsSpace(s[|s| - 1]))) ==> r == s
  {
    var l := StripLeft(s);
    var r := StripRight(l);
    InfixOfSuffix(s, l, r);
    r
  }

  /** A prefix `r` of a suffix `l` of `s`, both cut off at white space, is an infix of `s` with only white space around it. */
  lemma InfixOfSuffix(s: string, l: string, r: string)
    requires |l| <= |s| && l == s[|s| - |l|..]
    requires forall k :: 0 <= k < |s| - |l| ==> IsSpace(s[k])
    requires |r| <= |l| && r == l[..|r|]
    requires forall k :: |r| <= k < |l| ==> IsSpace(l[k])
    ensures StrippedAt(s, r, |s| - |l|, |s| - |l| + |r|)
  {
    var a := |s| - |l|;
    forall k | a + |r| <= k < |s|
      ensures IsSpace(s[k])
    {
      assert s[k] == l[k - a];
    }
  }

  /** `r` is `s[a..b]`, and every character of `s` outside `a..b` is white space. */
  ghost predicate StrippedAt(s: string, r: string, a: int, b: int) {
    && 0 <= a <= b <= |s| && r == s[a..b]
    && (forall k :: 0 <= k < a ==> IsSpace(s[k]))
    && (forall k :: b <= k < |s| ==> IsSpace(s[k]))
  }

  // ---------------------------------------------------------------------
  // Searching
  // ---------------------------------------------------------------------

  /** `s.startswith(p)` */
  predicate StartsWith(s: string, p: string) {
    |p| <= |s| && s[..|p|] == p
  }

  /** `t in s` for two strings. */
  predicate Contains(s: string, t: string)
    decreases |s|
  {
    StartsWith(s, t) || (|s| > 0 && Contains(s[1..], t))
  }

  /** `t` occurs in `s` starting at position `i`. */
  ghost predicate OccursAt(s: string, t: string, i: int) {
    0 <= i <= |s| - |t| && s[i..i + |t|] == t
  }

  /** `Contains` finds exactly the occurrences of `t` at some position of `s`. */
  lemma {:induction false} ContainsIffOccurs(s: string, t: string)
    ensures Contains(s, t) <==> exists i :: OccursAt(s, t, i)
    decreases |s|
  {
    if StartsWith(s, t) {
      assert OccursAt(s, t, 0);
    } else if |s| == 0 {
      assert |t| > 0;
    } else {
      ContainsIffOccurs(s[1..], t);
      if exists i :: OccursAt(s, t, i) {
        var i :| OccursAt(s, t, i);
        assert i != 0;
        assert s[1..][i - 1..i - 1 + |t|] == s[i..i + |t|];
        assert OccursAt(s[1..], t, i - 1);
      }
      if Contains(s[1..], t) {
        var j :| OccursAt(s[1..], t, j);
        assert s[1..][j..j + |t|] == s[j + 1..j + 1 + |t|];
        assert OccursAt(s, t, j + 1);
      }
    }
  }

  /** `s.find(c)` as an option: the first position of `c`. */
  function IndexOf(s: string, c: char): (r: Option<nat>)
    ensures r.Some? ==> r.value < |s| && s[r.value] == c && forall k :: 0 <= k < r.value ==> s[k] != c
    ensures r.None? ==> forall k :: 0 <= k < |s| ==> s[k] != c
  {
    if |s| == 0 then None
    else if s[0] == c then Some(0)
    else match IndexOf(s[1..], c)
      case None => None
      case Some(k) => Some(k + 1)
  }

  /** `s.rfind(c)` as an option: the last position of `c`. */
  function LastIndexOf(s: string, c: char): (r: Option<nat>)
    ensures r.Some? ==> r.value < |s| && s[r.value] == c && forall k :: r.value < k < |s| ==> s[k] != c
    ensures r.None? ==> forall k :: 0 <= k < |s| ==> s[k] != c
  {
    if |s| == 0 then None
    else if s[|s| - 1] == c then Some(|s| - 1)
    else LastIndexOf(s[..|s| - 1], c)
  }

  /**
   * `s.split(sep)[1]`: the text between the first and the second `sep`
   * (or the end), or None where Python raises IndexError (no `sep` at all).
   */
  function SecondField(s: string, sep: char): (r: Option<string>)
    ensures r.None? <==> sep !in s
    ensures r.Some? ==> sep !in r.value && exists i :: FieldAt(s, sep, i, r.value)
  {
    match IndexOf(s, sep)
    case None => None
    case Some(i) =>
      var rest := s[i + 1..];
      match IndexOf(rest, sep)
      case None =>
        assert FieldAt(s, sep, i, rest);
        Some(rest)
      case Some(j) =>
        assert FieldAt(s, sep, i, rest[..j]);
        Some(rest[..j])
  }

  /** `f` follows the first `sep` of `s`, found at `i`, and runs to the next `sep` or the end. */
  ghost predicate FieldAt(s: string, sep: char, i: int, f: string) {
    && 0 <= i && i + 1 + |f| <= |s|
    && s[i] == sep && sep !in s[..i]
    && s[i + 1..i + 1 + |f|] == f
    && (i + 1 + |f| == |s| || s[i + 1 + |f|] == sep)
  }

  // ---------------------------------------------------------------------
  // Decimal numerals
  // ---------------------------------------------------------------------

  predicate IsDigit(c: char) {
    '0' <= c <= '9'
  }

  function DigitChar(d: nat): (c: char)
    requires d < 10
    ensures IsDigit(c) && c as int - '0' as int == d
  {
    (d + '0' as int) as char
  }

  /** `str(n)` for a natural number. */
  function NatToDecimal(n: nat): (r: string)
    ensures |r| > 0 && forall i :: 0 <= i < |r| ==> IsDigit(r[i])
  {
    if n < 10 then [DigitChar(n)] else NatToDecimal(n / 10) + [DigitChar(n % 10)]
  }

  /** `str(i)` for any integer. */
  function IntToDecimal(i: int): (r: string)
    ensures |r| > 0
    ensures i >= 0 ==> forall k :: 0 <= k < |r| ==> IsDigit(r[k])
    ensures i < 0 ==> r[0] == '-'
  {
    if i < 0 then "-" + NatToDecimal(-i) else NatToDecimal(i)
  }

  /** The value of a string of decimal digits: the reading `int(s)` gives it. */
  function DecimalValue(s: string): nat
    requires forall i :: 0 <= i < |s| ==> IsDigit(s[i])
  {
    if |s| == 0 then 0
    else
      assert IsDigit(s[|s| - 1]);
      DecimalValue(s[..|s| - 1]) * 10 + (s[|s| - 1] as int - '0' as int)
  }

  /** Reading back the numeral `str(n)` gives `n`: the numerals written into ffmpeg arguments are exact. */
  lemma {:induction false} DecimalRoundTrip(n: nat)
    ensures DecimalValue(NatToDecimal(n)) == n
  {
    if n >= 10 {
      DecimalRoundTrip(n / 10);
      var s := NatToDecimal(n);
      assert s[..|s| - 1] == NatToDecimal(n / 10);
    }
  }

  // ---------------------------------------------------------------------
  // Paths (POSIX separator '/')
  // ---------------------------------------------------------------------

  /** Where the last path component of `p` begins: just after its last '/'. */
  function NameStart(p: string): (k: nat)
    ensures k <= |p|
    ensures forall j :: k <= j < |p| ==> p[j] != '/'
    ensures k > 0 ==> p[k - 1] == '/'
  {
    match LastIndexOf(p, '/')
    case None => 0
    case Some(s) => s + 1
  }

  /**
   * `os.path.splitext(p)` (posixpath): the extension starts at the last '.'
   * of the last component, provided some character other than '.' precedes
   * it in that component; otherwise the extension is empty.
   */
  function SplitExt(p: string): (r: (string, string))
    ensures r.0 + r.1 == p
    ensures r.1 == [] || (r.1[0] == '.' && '.' !in r.1[1..] && '/' !in r.1)
    ensures r.1 != [] <==> HasSuffixDot(p)
  {
    match LastIndexOf(p, '.')
    case None => (p, "")
    case Some(dot) =>
      var start := NameStart(p);
      if start <= dot && exists k :: start <= k < dot && p[k] != '.' then
        assert forall j :: dot < j < |p| ==> p[j] != '.';
        var k :| start <= k < dot && p[k] != '.';
        assert DotAfterNonDot(p, k, dot);
        (p[..dot], p[dot..])
      else
        (p, "")
  }

  /** In `p`, position `k` holds a character other than '.', and a '.' follows it at `i`, both in the last component. */
  ghost predicate DotAfterNonDot(p: string, k: int, i: int) {
    NameStart(p) <= k < i < |p| && p[k] != '.' && p[i] == '.'
  }

  /** The last component of `p` has a '.' after some character other than '.': what `splitext` needs to split. */
  ghost predicate HasSuffixDot(p: string) {
    exists k, i :: DotAfterNonDot(p, k, i)
  }

  /** A component that `splitext` can split: it holds some character other than '.'. */
  predicate HasNonDot(s: string) {
    exists k :: 0 <= k < |s| && s[k] != '.'
  }

  /** An extension such as ".flac": a dot and then neither '.' nor '/'. */
  predicate IsExtension(e: string) {
    |e| > 0 && e[0] == '.' && '.' !in e[1..] && '/' !in e
  }

  /**
   * Appending an extension to a path whose last component holds a
   * character other than '.' makes that extension exactly what `splitext` finds.
   */
  lemma SplitExtAppend(x: string, e: string)
    requires IsExtension(e)
    requires HasNonDot(x[NameStart(x)..])
    ensures SplitExt(x + e) == (x, e)
  {
    var p := x + e;
    assert p[|x|] == '.';
    assert forall j :: |x| < j < |p| ==> p[j] == e[j - |x|] && e[j - |x|] in e[1..];
    var dot := LastIndexOf(p, '.');
    assert dot == Some(|x|);
    var ns := NameStart(x);
    assert forall j :: |x| <= j < |p| ==> p[j] != '/';
    if ns > 0 {
      assert p[ns - 1] == '/';
    }
    assert NameStart(p) == ns;
    var k :| 0 <= k < |x[ns..]| && x[ns..][k] != '.';
    assert p[ns + k] != '.';
  }

  /** The component `pathlib.Path(p).name` yields: the text after the last '/', trailing '/'s ignored. */
  function Basename(p: string): (r: string)
    ensures '/' !in r
    ensures (exists k :: 0 <= k < |p| && p[k] != '/') ==> r != []
  {
    var t := TrimTrailingSlashes(p);
    t[NameStart(t)..]
  }

  /**
   * `Path(p).name` is the last component: the suffix of `p`, trailing '/'s
   * trimmed, that follows its last '/' (or all of it when there is none).
   */
  lemma BasenameIsLastComponent(p: string)
    ensures var t := TrimTrailingSlashes(p);
      var r := Basename(p);
      && |r| <= |t| && r == t[|t| - |r|..]
      && (|r| == |t| || t[|t| - |r| - 1] == '/')
  {
  }

  function TrimTrailingSlashes(p: string): (r: string)
    ensures |r| <= |p| && r == p[..|r|] && (r == [] || r[|r| - 1] != '/')
    ensures forall k :: |r| <= k < |p| ==> p[k] == '/'
  {
    if |p| > 0 && p[|p| - 1] == '/' then TrimTrailingSlashes(p[..|p| - 1]) else p
  }

  /** The directory prefix `str(Path(root) / name)` puts in front of `name`. */
  function DirPrefix(root: string): (r: string)
    ensures r == [] || r[|r| - 1] == '/'
  {
    if root == [] then []
    else
      var t := TrimTrailingSlashes(root);
      if t == [] then "/" else t + "/"
  }

  /**
   * `str(Path(root) / name)` for a single component `name`: `name` alone
   * under an empty root; otherwise the root without its trailing '/'s, one
   * '/', then `name`.
   */
  function JoinPath(root: string, name: string): (r: string)
    ensures root == [] ==> r == name
    ensures root != [] ==> r == TrimTrailingSlashes(root) + "/" + name
                           || (TrimTrailingSlashes(root) == [] && r == "/" + name)
  {
    DirPrefix(root) + name
  }

  /** A name with no '/' joined under any root is the last component of the result. */
  lemma JoinPathLastComponent(root: string, name: string)
    requires '/' !in name
    ensures var r := JoinPath(root, name);
      NameStart(r) == |r| - |name| && r[NameStart(r)..] == name
  {
    NameStartAfterDir(DirPrefix(root), name);
  }

  /** The last component of `d + n` starts right after `d` when `d` is empty or ends in '/' and `n` has no '/'. */
  lemma NameStartAfterDir(d: string, n: string)
    requires d == [] || d[|d| - 1] == '/'
    requires '/' !in n
    ensures NameStart(d + n) == |d|
  {
    var p := d + n;
    if d != [] {
      assert p[|d| - 1] == '/';
    }
  }
}
