/**
 * The pieces of Python's string and path behaviour the installers rely on:
 * `str.isspace` / regex `\s`, `str.strip`, `str(int)`, `s.split('/')[-1]`,
 * and pathlib's `/` and `.name`.
 */
module Text {

  /** The characters for which Python's `str.isspace()` holds; regex `\s` on a `str` pattern matches the same set. */
  const Whitespace: set<char> := {
    '\t', '\n', '\U{0B}', '\U{0C}', '\r', '\U{1C}', '\U{1D}', '\U{1E}', '\U{1F}', ' ',
    '\U{85}', '\U{A0}', '\U{1680}',
    '\U{2000}', '\U{2001}', '\U{2002}', '\U{2003}', '\U{2004}', '\U{2005}',
    '\U{2006}', '\U{2007}', '\U{2008}', '\U{2009}', '\U{200A}',
    '\U{2028}', '\U{2029}', '\U{202F}', '\U{205F}', '\U{3000}'
  }

  /** The argument of `strip('"\'')`. */
  const Quotes: set<char> := {'"', '\''}

  /** The end of the run of characters in `cs` that starts at `i`. */
  function RunEndFrom(s: string, cs: set<char>, i: nat): (e: nat)
    requires i <= |s|
    ensures i <= e <= |s|
    ensures forall k :: i <= k < e ==> s[k] in cs
    ensures e == |s| || s[e] !in cs
    decreases |s| - i
  {
    if i == |s| || s[i] !in cs then i else RunEndFrom(s, cs, i + 1)
  }

  /** The start of the run of characters in `cs` that ends at `j`. */
  function RunStartBefore(s: string, cs: set<char>, j: nat): (b: nat)
    requires j <= |s|
    ensures b <= j
    ensures forall k :: b <= k < j ==> s[k] in cs
    ensures b == 0 || s[b - 1] !in cs
  {
    if j == 0 || s[j - 1] !in cs then j else RunStartBefore(s, cs, j - 1)
  }

  /** Drops the longest prefix made of characters in `cs`. */
  function TrimLeft(s: string, cs: set<char>): (r: string)
    ensures forall k :: 0 <= k < |s| - |r| ==> s[k] in cs
    ensures r == [] || r[0] !in cs
  {
    s[RunEndFrom(s, cs, 0)..]
  }

  /** Drops the longest suffix made of characters in `cs`. */
  function TrimRight(s: string, cs: set<char>): (r: string)
    ensures forall k :: |r| <= k < |s| ==> s[k] in cs
    ensures r == [] || r[|r| - 1] !in cs
  {
    s[..RunStartBefore(s, cs, |s|)]
  }

  /**
   * Python's `s.strip(chars)`: `s` with every leading and trailing character
   * in `cs` removed. The result is a slice of `s` whose surroundings are all
   * in `cs` and whose two ends are not.
   */
  function Strip(s: string, cs: set<char>): (r: string)
    ensures r == [] || (r[0] !in cs && r[|r| - 1] !in cs)
    ensures exists i :: StrippedAt(s, cs, i, r)
  {
    var left := TrimLeft(s, cs);
    var r := TrimRight(left, cs);
    assert StrippedAt(s, cs, |s| - |left|, r);
    r
  }

  /** `r` sits at position `i` of `s`, with only characters of `cs` before and after it. */
  predicate StrippedAt(s: string, cs: set<char>, i: int, r: string)
  {
    && 0 <= i && i + |r| <= |s|
    && r == s[i..i + |r|]
    && (forall k :: 0 <= k < i ==> s[k] in cs)
    && (forall k :: i + |r| <= k < |s| ==> s[k] in cs)
  }

  /** A string made only of characters in `cs` strips to the empty string. */
  lemma StripAllDropped(s: string, cs: set<char>)
    requires forall k :: 0 <= k < |s| ==> s[k] in cs
    ensures Strip(s, cs) == []
  {
    var r := Strip(s, cs);
    var i :| StrippedAt(s, cs, i, r);
  }

  /** Any slice with the two properties of `Strip` is the result of `Strip`: the characterisation is complete. */
  lemma {:induction false} StripUnique(s: string, cs: set<char>, i: int, t: string)
    requires StrippedAt(s, cs, i, t)
    requires t == [] || (t[0] !in cs && t[|t| - 1] !in cs)
    ensures Strip(s, cs) == t
  {
    var r := Strip(s, cs);
    var j :| StrippedAt(s, cs, j, r);
    if t != [] && r != [] {
      assert t[0] == s[i] && r[0] == s[j];
      assert t[|t| - 1] == s[i + |t| - 1] && r[|r| - 1] == s[j + |r| - 1];
    }
  }

  function DigitChar(d: nat): (c: char)
    requires d < 10
    ensures '0' <= c <= '9'
  {
    "0123456789"[d]
  }

  function DigitValue(c: char): (d: nat)
    requires '0' <= c <= '9'
    ensures d < 10
  {
    c as int - '0' as int
  }

  predicate AllDigits(s: string)
  {
    forall k :: 0 <= k < |s| ==> '0' <= s[k] <= '9'
  }

  /** Python's `str(n)` for a non-negative integer: its decimal digits, with no leading zero. */
  function DecimalString(n: nat): (r: string)
    ensures r != [] && AllDigits(r)
    ensures r[0] == '0' ==> r == "0"
  {
    if n < 10 then [DigitChar(n)] else DecimalString(n / 10) + [DigitChar(n % 10)]
  }

  /** Reads a string of decimal digits back as a number (Python's `int(s)` on such a string). */
  function DecimalValue(s: string): nat
    requires AllDigits(s)
  {
    if s == [] then 0 else DecimalValue(s[..|s| - 1]) * 10 + DigitValue(s[|s| - 1])
  }

  lemma {:induction false} DecimalRoundTrip(n: nat)
    ensures DecimalValue(DecimalString(n)) == n
  {
    var r := DecimalString(n);
    if n >= 10 {
      DecimalRoundTrip(n / 10);
      assert r[..|r| - 1] == DecimalString(n / 10);
    }
  }

  /** Distinct numbers print differently. */
  lemma DecimalStringInjective(m: nat, n: nat)
    requires DecimalString(m) == DecimalString(n)
    ensures m == n
  {
    DecimalRoundTrip(m);
    DecimalRoundTrip(n);
  }

  /** pathlib's `Path(dir) / name` as a string; `Path("")` is the current directory, which `/` drops. */
  function Join(dir: string, name: string): string
  {
    if dir == "" then name else dir + "/" + name
  }

  /**
   * Python's `s.split('/')[-1]`: the text after the last `/`, or all of `s`
   * when it has none. The result is a suffix of `s` without `/`, and the
   * character before it, if any, is `/`.
   */
  function LastSegment(s: string): (r: string)
    ensures '/' !in r
    ensures |r| <= |s| && r == s[|s| - |r|..]
    ensures |r| < |s| ==> s[|s| - |r| - 1] == '/'
  {
    s[SegmentStart(s, |s|)..]
  }

  /** Where the `/`-free run that ends at `j` starts. */
  function SegmentStart(s: string, j: nat): (b: nat)
    requires j <= |s|
    ensures b <= j
    ensures forall k :: b <= k < j ==> s[k] != '/'
    ensures b == 0 || s[b - 1] == '/'
  {
    if j == 0 || s[j - 1] == '/' then j else SegmentStart(s, j - 1)
  }

  /** The last segment of `prefix/t` is `t` whenever `t` has no `/`. */
  lemma LastSegmentAfterSlash(prefix: string, t: string)
    requires '/' !in t
    ensures LastSegment(prefix + "/" + t) == t
  {
    var s := prefix + "/" + t;
    var r := LastSegment(s);
    assert s[|s| - |t| - 1] == '/';
    assert s[|s| - |t|..] == t;
  }

  /** A string without `/` is its own last segment. */
  lemma LastSegmentWhole(t: string)
    requires '/' !in t
    ensures LastSegment(t) == t
  {
    var r := LastSegment(t);
    assert |r| == |t|;
  }

  /**
   * pathlib's `PurePosixPath(p).name`: the last component of `p`. pathlib
   * drops empty components (repeated or trailing `/`) and `.` components, so
   * those are skipped; `""` when no component is left (`""`, `.`, `/`).
   */
  function BaseName(p: string): (r: string)
    ensures '/' !in r && r != "."
    ensures |r| <= |p|
    decreases |p|
  {
    if p == [] then ""
    else if p[|p| - 1] == '/' then BaseName(p[..|p| - 1])
    else
      var seg := LastSegment(p);
      if seg == "." then BaseName(p[..|p| - 1]) else seg
  }

  /** A plain name, or a path ending in one, has that name as its last component. */
  lemma BaseNameAfterSlash(dir: string, t: string)
    requires t != "" && '/' !in t && t != "."
    ensures BaseName(t) == t
    ensures BaseName(dir + "/" + t) == t
  {
    LastSegmentWhole(t);
    LastSegmentAfterSlash(dir, t);
    var s := dir + "/" + t;
    assert s[|s| - 1] == t[|t| - 1];
  }

  /** A trailing `/` does not change the name. */
  lemma BaseNameTrailingSlash(p: string)
    ensures BaseName(p + "/") == BaseName(p)
  {
    assert (p + "/")[..|p|] == p;
  }

  /** A trailing `/.` component does not change the name either. */
  lemma BaseNameTrailingDot(p: string)
    ensures BaseName(p + "/.") == BaseName(p)
  {
    LastSegmentAfterSlash(p, ".");
    assert (p + "/.")[..|p| + 1] == p + "/";
    BaseNameTrailingSlash(p);
  }

  /** Joining one directory with two different names gives two different paths. */
  lemma JoinInjective(dir: string, a: string, b: string)
    requires Join(dir, a) == Join(dir, b)
    ensures a == b
  {
    if dir != "" {
      assert a == Join(dir, a)[|dir| + 1..];
      assert b == Join(dir, b)[|dir| + 1..];
    }
  }
}
