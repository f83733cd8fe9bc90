/**
  The pattern `S-1-5-21-[0-9]+-[0-9]+-[0-9]+-[0-9]+$` that picks domain-user SIDs out
  of the subkey names of the remote HKEY_USERS hive. The pattern is anchored at the end
  of the string only, so it matches any string with such a suffix.

  `DigitRuns`, `SidFrom` and `PatternMatches` say what the pattern denotes; `IsSidMatch` is the
  matcher, which reads the digit runs from the right; `IsSidMatchCorrect` proves the two agree.
 */
module SidPattern {
  import opened Common

  const SidPrefix: string := "S-1-5-21-"

  /** The character class `[0-9]`: the ASCII digits only. */
  predicate IsDigit(c: char) {
    '0' <= c <= '9'
  }

  /** Every character of `s[lo..hi]` is a digit. */
  predicate DigitsIn(s: string, lo: nat, hi: nat)
    requires lo <= hi <= |s|
  {
    forall j :: lo <= j < hi ==> IsDigit(s[j])
  }

  /** `s[lo..hi]` is `n >= 1` non-empty runs of digits joined by '-'. */
  ghost predicate DigitRuns(s: string, lo: nat, hi: nat, n: nat)
    requires lo <= hi <= |s|
    decreases n
  {
    if n <= 1 then n == 1 && lo < hi && DigitsIn(s, lo, hi)
    else exists i :: lo <= i < hi - 1 && s[i] == '-' && DigitRuns(s, lo, i, n - 1) && DigitsIn(s, i + 1, hi)
  }

  /** From position `k` on, the string is exactly `S-1-5-21-` followed by four digit
      runs joined by '-'. */
  ghost predicate SidFrom(s: string, k: nat) {
    k + |SidPrefix| <= |s| && s[k..k + |SidPrefix|] == SidPrefix && DigitRuns(s, k + |SidPrefix|, |s|, 4)
  }

  /** What the regular expression accepts: the match may start anywhere, but must end
      at the end of the string. */
  ghost predicate PatternMatches(s: string) {
    exists k :: 0 <= k <= |s| && SidFrom(s, k)
  }

  /** The length of the longest run of digits that ends just before position `end`. */
  function DigitsBefore(s: string, end: nat): (n: nat)
    requires end <= |s|
    ensures n <= end && DigitsIn(s, end - n, end)
    ensures n < end ==> !IsDigit(s[end - n - 1])
  {
    if end == 0 || !IsDigit(s[end - 1]) then 0 else DigitsBefore(s, end - 1) + 1
  }

  /** Where `runs` digit runs joined by '-' and ending at `end` begin, each run taken as
      long as possible; None when there are no such runs. */
  function RunsStart(s: string, end: nat, runs: nat): (r: Option<nat>)
    requires end <= |s| && runs >= 1
    ensures r.Some? ==> r.value <= end
    decreases runs
  {
    var n := DigitsBefore(s, end);
    if n == 0 then None
    else if runs == 1 then Some(end - n)
    else if end - n >= 1 && s[end - n - 1] == '-' then RunsStart(s, end - n - 1, runs - 1)
    else None
  }

  /** The matcher: four digit runs end the string and `S-1-5-21-` stands right before them. */
  predicate IsSidMatch(s: string) {
    match RunsStart(s, |s|, 4)
    case None => false
    case Some(p) => p >= |SidPrefix| && s[p - |SidPrefix|..p] == SidPrefix
  }

  /** A run of digits preceded by a non-digit (or by nothing) is the longest run there. */
  lemma MaximalRun(s: string, q: nat, e: nat)
    requires q < e <= |s|
    requires DigitsIn(s, q, e)
    requires q == 0 || !IsDigit(s[q - 1])
    ensures DigitsBefore(s, e) == e - q
  {
  }

  lemma {:induction false} RunsStartSound(s: string, e: nat, n: nat, p: nat)
    requires e <= |s| && n >= 1 && RunsStart(s, e, n) == Some(p)
    ensures p <= e && DigitRuns(s, p, e, n) && (p == 0 || !IsDigit(s[p - 1]))
    decreases n
  {
    var m := DigitsBefore(s, e);
    if n > 1 {
      var i := e - m - 1;
      RunsStartSound(s, i, n - 1, p);
      assert s[i] == '-' && DigitRuns(s, p, i, n - 1) && DigitsIn(s, i + 1, e);
    }
  }

  lemma {:induction false} RunsStartComplete(s: string, p: nat, e: nat, n: nat)
    requires p <= e <= |s| && n >= 1
    requires DigitRuns(s, p, e, n) && (p == 0 || !IsDigit(s[p - 1]))
    ensures RunsStart(s, e, n) == Some(p)
    decreases n
  {
    if n == 1 {
      MaximalRun(s, p, e);
    } else {
      var i :| p <= i < e - 1 && s[i] == '-' && DigitRuns(s, p, i, n - 1) && DigitsIn(s, i + 1, e);
      MaximalRun(s, i + 1, e);
      RunsStartComplete(s, p, i, n - 1);
    }
  }

  lemma MatchAt(s: string, p: nat)
    requires RunsStart(s, |s|, 4) == Some(p)
    requires |SidPrefix| <= p && s[p - |SidPrefix|..p] == SidPrefix
    ensures PatternMatches(s)
  {
    RunsStartSound(s, |s|, 4, p);
    assert SidFrom(s, p - |SidPrefix|);
  }

  lemma MatchIsPattern(s: string)
    requires IsSidMatch(s)
    ensures PatternMatches(s)
  {
    var p := RunsStart(s, |s|, 4).value;
    MatchAt(s, p);
  }

  lemma PatternIsMatch(s: string, k: nat)
    requires k <= |s| && SidFrom(s, k)
    ensures IsSidMatch(s)
  {
    var w := |SidPrefix|;
    assert s[k + w - 1] == s[k..k + w][w - 1] == '-';
    RunsStartComplete(s, k + w, |s|, 4);
  }

  /** The matcher accepts exactly the strings the regular expression matches. */
  lemma IsSidMatchCorrect(s: string)
    ensures IsSidMatch(s) <==> PatternMatches(s)
  {
    if IsSidMatch(s) {
      MatchIsPattern(s);
    }
    if PatternMatches(s) {
      var k :| 0 <= k <= |s| && SidFrom(s, k);
      PatternIsMatch(s, k);
    }
  }
}
