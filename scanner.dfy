/**
 * The dotfile scan of the advanced installer: `re.search` of a pattern of the
 * form `(?:NAME1|NAME2)=([^\s\n]+)` over a file's text, followed by
 * `group(1).strip('"\'')`, written as a hand-written scanner.
 */
module Scanner {
  import opened Wrappers
  import opened Text

  /** `name=` starts at position `p` of `s` and at least one non-whitespace character follows the `=`. */
  predicate AssignmentAt(s: string, p: nat, name: string)
  {
    && p + |name| + 1 < |s|
    && s[p..p + |name|] == name
    && s[p + |name|] == '='
    && s[p + |name| + 1] !in Whitespace
  }

  /**
   * The alternative the regex engine takes at position `p`, trying
   * `names[j..]` in order: the first one that leads to a match.
   */
  function AlternativeAt(s: string, p: nat, names: seq<string>, j: nat): (r: Option<nat>)
    requires j <= |names|
    ensures r.Some? ==> j <= r.value < |names| && AssignmentAt(s, p, names[r.value])
    ensures r.Some? ==> forall i :: j <= i < r.value ==> !AssignmentAt(s, p, names[i])
    ensures r.None? ==> forall i :: j <= i < |names| ==> !AssignmentAt(s, p, names[i])
    decreases |names| - j
  {
    if j == |names| then None
    else if AssignmentAt(s, p, names[j]) then Some(j)
    else AlternativeAt(s, p, names, j + 1)
  }

  /**
   * `re.search` from position `from`: the leftmost start position at which
   * some alternative matches, paired with the alternative taken there.
   */
  function SearchFrom(s: string, names: seq<string>, from: nat): (r: Option<(nat, nat)>)
    ensures r.Some? ==> from <= r.value.0 < |s| && r.value.1 < |names|
    ensures r.Some? ==> AssignmentAt(s, r.value.0, names[r.value.1])
    ensures r.Some? ==> forall i :: 0 <= i < r.value.1 ==> !AssignmentAt(s, r.value.0, names[i])
    ensures r.Some? ==> forall q, i :: from <= q < r.value.0 && 0 <= i < |names| ==> !AssignmentAt(s, q, names[i])
    ensures r.None? ==> forall q, i :: from <= q && 0 <= i < |names| ==> !AssignmentAt(s, q, names[i])
    decreases |s| - from
  {
    if from >= |s| then None
    else match AlternativeAt(s, from, names, 0)
      case Some(j) => Some((from, j))
      case None => SearchFrom(s, names, from + 1)
  }

  /** The end of the maximal run of non-whitespace characters that starts at `i`. */
  function RunEnd(s: string, i: nat): (e: nat)
    requires i <= |s|
    ensures i <= e <= |s|
    ensures forall k :: i <= k < e ==> s[k] !in Whitespace
    ensures e == |s| || s[e] in Whitespace
    decreases |s| - i
  {
    if i == |s| || s[i] in Whitespace then i else RunEnd(s, i + 1)
  }

  /** Where the captured group starts when alternative `names[j]` matches at `p`. */
  function ValueStart(names: seq<string>, p: nat, j: nat): nat
    requires j < |names|
  {
    p + |names[j]| + 1
  }

  /**
   * `match.group(1)`: the greedy `[^\s\n]+` after the leftmost match, that is
   * the maximal non-whitespace run after its `=`; `None` when nothing matches.
   */
  function Capture(s: string, names: seq<string>): (r: Option<string>)
    ensures r.Some? ==> r.value != [] && forall k :: 0 <= k < |r.value| ==> r.value[k] !in Whitespace
  {
    match SearchFrom(s, names, 0)
    case None => None
    case Some((p, j)) =>
      var v := ValueStart(names, p, j);
      var e := RunEnd(s, v);
      assert s[v..e][0] == s[v];
      Some(s[v..e])
  }

  /** The value the scan assigns: the captured text with leading and trailing quote characters removed. */
  function ExtractAssignment(s: string, names: seq<string>): Option<string>
  {
    match Capture(s, names)
    case None => None
    case Some(c) => Some(Strip(c, Quotes))
  }

  /**
   * A value is assigned exactly when something was captured; it is the
   * capture with its surrounding quotes dropped, and neither of its ends is a
   * quote character.
   */
  lemma ExtractedUnquoted(s: string, names: seq<string>)
    ensures ExtractAssignment(s, names).Some? <==> Capture(s, names).Some?
    ensures ExtractAssignment(s, names).Some? ==>
      var r := ExtractAssignment(s, names).value;
      && (r == [] || (r[0] !in Quotes && r[|r| - 1] !in Quotes))
      && exists i :: StrippedAt(Capture(s, names).value, Quotes, i, r)
  {
  }

  /**
   * The capture is determined by the leftmost match: if `names[j]` matches
   * at `p`, no alternative matches earlier, and no earlier alternative
   * matches at `p`, then the capture is the whole non-whitespace run after
   * that `=`.
   */
  lemma CaptureOfLeftmost(s: string, names: seq<string>, p: nat, j: nat)
    requires j < |names| && AssignmentAt(s, p, names[j])
    requires forall q, i :: 0 <= q < p && 0 <= i < |names| ==> !AssignmentAt(s, q, names[i])
    requires forall i :: 0 <= i < j ==> !AssignmentAt(s, p, names[i])
    ensures Capture(s, names) == Some(s[ValueStart(names, p, j)..RunEnd(s, ValueStart(names, p, j))])
  {
    var r := SearchFrom(s, names, 0);
    assert r.Some?;
    var (p', j') := r.value;
    assert !(p' < p);
    assert !(p < p');
    assert !(j' < j) && !(j < j');
  }

  /** No match anywhere leaves the key untouched. */
  lemma NoAssignmentNoValue(s: string, names: seq<string>)
    requires forall q, i :: 0 <= q < |s| && 0 <= i < |names| ==> !AssignmentAt(s, q, names[i])
    ensures ExtractAssignment(s, names) == None
  {
    var r := SearchFrom(s, names, 0);
  }

  /** A capture made only of quote characters yields the empty string (which leaves the key falsy). */
  lemma QuoteOnlyCaptureIsEmpty(s: string, names: seq<string>)
    requires Capture(s, names).Some?
    requires forall k :: 0 <= k < |Capture(s, names).value| ==> Capture(s, names).value[k] in Quotes
    ensures ExtractAssignment(s, names) == Some("")
  {
    StripAllDropped(Capture(s, names).value, Quotes);
  }
}
