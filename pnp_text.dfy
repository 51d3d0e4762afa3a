/** The two regular expressions OemKill applies to the lines of `pnputil -e`,
    written as string functions (OemKill.cs, the fields `inf` and `driver`):

      inf    = `:\s*(.*\.inf)$`
      driver = `:\s*(.*)$`

    Both have the shape `:\s*(.*TAIL)$`; `MatchColonPattern` computes what the
    .NET engine captures for such a pattern, and `RegexCapture` states the
    engine's leftmost-then-greedy choice independently, as a reference. */
module PnpText {
  import opened Wrappers

  /** A line as File.ReadAllLines yields it: it never holds a line feed, so
      the regex `.` matches every character of it and `$` is its end. */
  type Line = s: string | '\n' !in s

  /** The .NET regex class `\s`: [\f\n\r\t\v\x85\p{Z}]. */
  predicate IsWhitespace(c: char) {
    || c == ' ' || c == '\t' || c == '\n' || c == '\r'
    || c == '\U{000B}' || c == '\U{000C}' || c == '\U{0085}'
    || c == '\U{00A0}' || c == '\U{1680}'
    || ('\U{2000}' <= c <= '\U{200A}')
    || c == '\U{2028}' || c == '\U{2029}'
    || c == '\U{202F}' || c == '\U{205F}' || c == '\U{3000}'
  }

  predicate AllWhitespace(s: string) {
    forall i :: 0 <= i < |s| ==> IsWhitespace(s[i])
  }

  predicate StartsWith(s: string, prefix: string) {
    |prefix| <= |s| && s[..|prefix|] == prefix
  }

  /** Ordinal, case-sensitive suffix test. */
  predicate EndsWith(s: string, suffix: string) {
    |suffix| <= |s| && s[|s| - |suffix|..] == suffix
  }

  /** Position of the first `:` in `s`, or `|s|` when there is none. */
  function ColonIndex(s: string): (p: nat)
    ensures p <= |s|
    ensures p < |s| ==> s[p] == ':'
    ensures forall j :: 0 <= j < p ==> s[j] != ':'
  {
    if s == [] || s[0] == ':' then 0 else 1 + ColonIndex(s[1..])
  }

  /** End of the longest run of whitespace in `s` that starts at `from`:
      where a greedy `\s*` stops. */
  function SpanEnd(s: string, from: nat): (k: nat)
    requires from <= |s|
    ensures from <= k <= |s|
    ensures AllWhitespace(s[from..k])
    ensures k < |s| ==> !IsWhitespace(s[k])
    decreases |s| - from
  {
    if from == |s| || !IsWhitespace(s[from]) then from
    else
      var k := SpanEnd(s, from + 1);
      assert forall i :: 0 < i < k - from ==> s[from..k][i] == s[from + 1..k][i - 1];
      k
  }

  /** Where group 1 of `:\s*(...)` starts when the match starts at the first
      colon: just past the whitespace that follows it. None without a colon. */
  function GroupStart(line: string): Option<nat> {
    var p := ColonIndex(line);
    if p == |line| then None else Some(SpanEnd(line, p + 1))
  }

  /** Group 1 of `:\s*(.*TAIL)$` on `line`, or None when the regex fails. */
  function MatchColonPattern(line: Line, tail: string): Option<string> {
    match GroupStart(line)
    case None => None
    case Some(k) => if EndsWith(line[k..], tail) then Some(line[k..]) else None
  }

  /** Group 1 of the `inf` regex: None when the match fails. */
  function InfMatch(line: Line): (r: Option<string>)
    ensures r.Some? <==> ':' in line && EndsWith(line, ".inf")
    ensures r.Some? ==> EndsWith(r.value, ".inf")
    ensures r.Some? ==> GroupStart(line).Some? && r.value == line[GroupStart(line).value..]
  {
    InfMatchShape(line);
    MatchColonPattern(line, ".inf")
  }

  /** `Groups[1].Value` of the `driver` regex: the empty string when the
      match fails, as .NET reports for a group of a failed match. */
  function DriverGroup(line: Line): (r: string)
    ensures ':' !in line ==> r == ""
    ensures ':' in line ==> GroupStart(line).Some? && r == line[GroupStart(line).value..]
  {
    MatchColonPattern(line, "").GetOr("")
  }

  // ---------------------------------------------------------------------
  // The regex engine's choice, stated on its own terms.

  /** `:\s*(.*TAIL)$` matches `line` with the match at `s` and group 1 at `k`. */
  ghost predicate CaptureAt(line: Line, tail: string, s: nat, k: nat) {
    s < k <= |line| && line[s] == ':' && AllWhitespace(line[s + 1..k]) && EndsWith(line[k..], tail)
  }

  ghost predicate MatchesAt(line: Line, tail: string, s: nat) {
    exists k: nat :: CaptureAt(line, tail, s, k)
  }

  /** `g` is the group 1 the .NET engine reports: the match starts at the
      leftmost position where the pattern can match, and the greedy `\s*` takes
      the longest run of whitespace with which the rest still matches. */
  ghost predicate RegexCapture(line: Line, tail: string, g: string) {
    exists s: nat, k: nat ::
      && CaptureAt(line, tail, s, k)
      && g == line[k..]
      && (forall s': nat :: s' < s ==> !MatchesAt(line, tail, s'))
      && (forall k': nat :: k < k' ==> !CaptureAt(line, tail, s, k'))
  }

  /** A tail whose first character is not whitespace (both `.inf` and the
      empty tail of `driver`) leaves the engine no choice: it captures exactly
      what `MatchColonPattern` computes. */
  lemma ColonPatternIsRegexCapture(line: Line, tail: string, g: string)
    requires tail == [] || !IsWhitespace(tail[0])
    ensures MatchColonPattern(line, tail) == Some(g) <==> RegexCapture(line, tail, g)
  {
    if MatchColonPattern(line, tail) == Some(g) {
      ComputedCaptureIsRegexCapture(line, tail, g);
    }
    if RegexCapture(line, tail, g) {
      RegexCaptureIsComputed(line, tail, g);
    }
  }

  lemma ComputedCaptureIsRegexCapture(line: Line, tail: string, g: string)
    requires MatchColonPattern(line, tail) == Some(g)
    ensures RegexCapture(line, tail, g)
  {
    var p := ColonIndex(line);
    var k := SpanEnd(line, p + 1);
    assert CaptureAt(line, tail, p, k);
    forall k': nat | k < k'
      ensures !CaptureAt(line, tail, p, k')
    {
      if k' <= |line| {
        assert line[p + 1..k'][k - (p + 1)] == line[k];
      }
    }
  }

  lemma RegexCaptureIsComputed(line: Line, tail: string, g: string)
    requires tail == [] || !IsWhitespace(tail[0])
    requires RegexCapture(line, tail, g)
    ensures MatchColonPattern(line, tail) == Some(g)
  {
    var s: nat, k: nat :|
      && CaptureAt(line, tail, s, k)
      && g == line[k..]
      && (forall s': nat :: s' < s ==> !MatchesAt(line, tail, s'))
      && (forall k': nat :: k < k' ==> !CaptureAt(line, tail, s, k'));
    LeftmostStartIsFirstColon(line, tail, s, k);
    GreedyGroupStartIsSpanEnd(line, tail, s, k);
  }

  /** A match that starts at a later colon implies one at the first colon. */
  lemma LeftmostStartIsFirstColon(line: Line, tail: string, s: nat, k: nat)
    requires CaptureAt(line, tail, s, k)
    requires forall s': nat :: s' < s ==> !MatchesAt(line, tail, s')
    ensures s == ColonIndex(line)
  {
    var p := ColonIndex(line);
    assert p <= s;
    if p < s {
      var kp := SpanEnd(line, p + 1);
      SuffixOfSuffix(line, kp, k, tail);
      assert CaptureAt(line, tail, p, kp);
      assert MatchesAt(line, tail, p);
      assert false;
    }
  }

  /** The greedy `\s*` stops exactly where the whitespace run ends. */
  lemma GreedyGroupStartIsSpanEnd(line: Line, tail: string, s: nat, k: nat)
    requires tail == [] || !IsWhitespace(tail[0])
    requires CaptureAt(line, tail, s, k)
    requires forall k': nat :: k < k' ==> !CaptureAt(line, tail, s, k')
    ensures k == SpanEnd(line, s + 1)
  {
    var kp := SpanEnd(line, s + 1);
    if k < kp {
      if tail != [] {
        TailStart(line, k, tail);
        SpanEndBefore(line, s + 1, |line| - |tail|);
      }
      SuffixShorter(line, k, kp, tail);
      assert CaptureAt(line, tail, s, kp);
    }
  }

  /** The `inf` regex captures exactly what `InfMatch` returns. */
  lemma InfMatchIsRegexCapture(line: Line, g: string)
    ensures InfMatch(line) == Some(g) <==> RegexCapture(line, ".inf", g)
  {
    ColonPatternIsRegexCapture(line, ".inf", g);
  }

  /** A line with a colon makes the `driver` regex capture `DriverGroup`'s
      value; a line without one makes it fail. */
  lemma DriverGroupIsRegexCapture(line: Line)
    ensures ':' in line ==> RegexCapture(line, "", DriverGroup(line))
    ensures ':' !in line ==> forall s: nat :: !MatchesAt(line, "", s)
  {
    ColonPatternIsRegexCapture(line, "", DriverGroup(line));
  }

  // ---------------------------------------------------------------------
  // Helpers about suffixes.

  lemma TailStart(line: string, k: nat, tail: string)
    requires k <= |line| && EndsWith(line[k..], tail) && tail != []
    ensures k <= |line| - |tail| && line[|line| - |tail|] == tail[0]
  {
    assert line[k..][|line| - k - |tail|..][0] == tail[0];
  }

  /** A greedy `\s*` from `from` stops at or before any non-whitespace character. */
  lemma SpanEndBefore(s: string, from: nat, j: nat)
    requires from <= j < |s| && !IsWhitespace(s[j])
    ensures SpanEnd(s, from) <= j
  {
  }

  lemma SuffixOfSuffix(line: string, a: nat, b: nat, tail: string)
    requires a <= b <= |line| && EndsWith(line[b..], tail)
    ensures EndsWith(line[a..], tail)
  {
    assert line[a..][|line| - a - |tail|..] == line[|line| - |tail|..] == line[b..][|line| - b - |tail|..];
  }

  lemma SuffixShorter(line: string, a: nat, b: nat, tail: string)
    requires a <= b <= |line| - |tail| && EndsWith(line[a..], tail)
    ensures EndsWith(line[b..], tail)
  {
    assert line[a..][|line| - a - |tail|..] == line[|line| - |tail|..] == line[b..][|line| - b - |tail|..];
  }

  lemma InfMatchShape(line: Line)
    ensures MatchColonPattern(line, ".inf").Some? <==> ':' in line && EndsWith(line, ".inf")
  {
    var r := MatchColonPattern(line, ".inf");
    if ':' in line && EndsWith(line, ".inf") {
      InfSuffixSurvives(line);
    }
    if r.Some? {
      assert line[ColonIndex(line)] in line;
      SuffixOfSuffix(line, 0, GroupStart(line).value, ".inf");
    }
  }

  /** A line that has a colon and ends with `.inf` keeps `.inf` after the
      whitespace past its first colon. */
  lemma InfSuffixSurvives(line: Line)
    requires ':' in line && EndsWith(line, ".inf")
    ensures MatchColonPattern(line, ".inf").Some?
  {
    var n := |line|;
    var p := ColonIndex(line);
    assert line[n - 4..][0] == '.' && line[n - 4..][1] == 'i' && line[n - 4..][2] == 'n' && line[n - 4..][3] == 'f';
    assert p < n - 4;
    var k := SpanEnd(line, p + 1);
    SpanEndBefore(line, p + 1, n - 4);
    SuffixShorter(line, 0, k, ".inf");
  }
}
