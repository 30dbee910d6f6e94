/**
 * The regular expressions of the field kinds, written by hand.
 *
 * Every check in the source is a `re.match`, which anchors a pattern at the
 * start of the token but not at its end: a token is accepted when some PREFIX
 * of it matches. For each pattern this module gives
 *   - a reference predicate that says, with existential split points, that a
 *     prefix of the token has the pattern's structure, and
 *   - an executable scanner that decides the same thing left to right,
 * and proves the two equivalent.
 */
module Patterns {
  import opened CharClass
  import opened Maybe

  /* ------------------------------------------------------------------ */
  /* `\d+` and `\w+`                                                     */

  ghost predicate DigitsAtStart(s: string)
  {
    exists j :: 1 <= j <= |s| && AllDigits(s[..j])
  }

  predicate StartsWithDigit(s: string) { |s| > 0 && IsDigit(s[0]) }

  lemma DigitsAtStartIff(s: string)
    ensures DigitsAtStart(s) <==> StartsWithDigit(s)
  {
    if StartsWithDigit(s) {
      assert AllDigits(s[..1]);
    }
  }

  ghost predicate WordAtStart(s: string)
  {
    exists j :: 1 <= j <= |s| && AllWord(s[..j])
  }

  predicate StartsWithWordChar(s: string) { |s| > 0 && IsWordChar(s[0]) }

  lemma WordAtStartIff(s: string)
    ensures WordAtStart(s) <==> StartsWithWordChar(s)
  {
    if StartsWithWordChar(s) {
      assert AllWord(s[..1]);
    }
  }

  /* ------------------------------------------------------------------ */
  /* `\w+\d`, `\w+\d+` and `\w+\d+(\.\d+)?`                              */

  /** `\w+\d`: some word characters, then a digit. */
  ghost predicate WordThenDigit(s: string)
  {
    exists i :: 1 <= i < |s| && AllWord(s[..i]) && IsDigit(s[i])
  }

  /** `\w+\d+`. */
  ghost predicate WordThenDigits(s: string)
  {
    exists i, j :: 1 <= i < j <= |s| && AllWord(s[..i]) && AllDigits(s[i..j])
  }

  /** The group `(\.\d+)` occupying `s[j..k]`. */
  predicate FractionSpan(s: string, j: nat, k: nat)
    requires j <= k <= |s|
  {
    j + 2 <= k && s[j] == '.' && AllDigits(s[j + 1..k])
  }

  /** `\w+\d+(\.\d+)?` matching `s[..k]`, its groups ending at `i`, `j` and `k`. */
  predicate WordDigitsFractionSplit(s: string, i: nat, j: nat, k: nat)
  {
    1 <= i < j <= k <= |s| && AllWord(s[..i]) && AllDigits(s[i..j]) && (k == j || FractionSpan(s, j, k))
  }

  /** `\w+\d+(\.\d+)?`: the fraction group may match or be skipped. */
  ghost predicate WordDigitsOptFraction(s: string)
  {
    exists i, j, k :: WordDigitsFractionSplit(s, i, j, k)
  }

  /** Is there a digit in the run of word characters that starts at `i`? */
  function DigitInWordRun(s: string, i: nat): bool
    requires i <= |s|
    decreases |s| - i
  {
    if i == |s| || !IsWordChar(s[i]) then false
    else IsDigit(s[i]) || DigitInWordRun(s, i + 1)
  }

  /** The scanner for `\w+\d`: a word character, then a digit later in the same word run. */
  predicate WordDigitScan(s: string)
  {
    |s| >= 1 && IsWordChar(s[0]) && DigitInWordRun(s, 1)
  }

  lemma {:induction false} DigitInWordRunIff(s: string, i: nat)
    requires 1 <= i <= |s| && AllWord(s[..i])
    ensures DigitInWordRun(s, i) <==> exists k :: i <= k < |s| && AllWord(s[..k]) && IsDigit(s[k])
    decreases |s| - i
  {
    if i == |s| {
    } else if !IsWordChar(s[i]) {
    } else if IsDigit(s[i]) {
    } else {
      assert AllWord(s[..i + 1]) by {
        assert s[..i + 1] == s[..i] + [s[i]];
      }
      DigitInWordRunIff(s, i + 1);
    }
  }

  lemma WordDigitScanIff(s: string)
    ensures WordDigitScan(s) <==> WordThenDigit(s)
  {
    if |s| >= 1 && IsWordChar(s[0]) {
      assert AllWord(s[..1]);
      DigitInWordRunIff(s, 1);
    }
    if WordThenDigit(s) {
      var i :| 1 <= i < |s| && AllWord(s[..i]) && IsDigit(s[i]);
      assert s[..i][0] == s[0];
    }
  }

  /** `\w+\d`, `\w+\d+` and `\w+\d+(\.\d+)?` accept exactly the same tokens. */
  lemma NumericPatternsAgree(s: string)
    ensures WordThenDigit(s) <==> WordThenDigits(s)
    ensures WordThenDigits(s) <==> WordDigitsOptFraction(s)
  {
    if WordThenDigit(s) {
      var i :| 1 <= i < |s| && AllWord(s[..i]) && IsDigit(s[i]);
      assert AllDigits(s[i..i + 1]);
      assert WordDigitsFractionSplit(s, i, i + 1, i + 1);
    }
    if WordThenDigits(s) {
      var i, j :| 1 <= i < j <= |s| && AllWord(s[..i]) && AllDigits(s[i..j]);
      assert s[i..j][0] == s[i];
      assert WordDigitsFractionSplit(s, i, j, j);
    }
    if WordDigitsOptFraction(s) {
      var i: nat, j: nat, k: nat :| WordDigitsFractionSplit(s, i, j, k);
      assert 1 <= i < j <= |s| && AllWord(s[..i]) && AllDigits(s[i..j]);
    }
  }

  /* ------------------------------------------------------------------ */
  /* `MUAC\d+(\.\d+)` (the fraction group is NOT optional here)          */

  /** The pattern matching `s[..k]`, with the point at `j`. */
  predicate MuacSplit(s: string, j: nat, k: nat)
  {
    4 < j && j + 1 < k <= |s| && s[..4] == "MUAC" && AllDigits(s[4..j]) && s[j] == '.' && AllDigits(s[j + 1..k])
  }

  ghost predicate MuacDecimal(s: string)
  {
    exists j, k :: MuacSplit(s, j, k)
  }

  /** The end of the run of digits that starts at `i`. */
  function DigitRun(s: string, i: nat): (r: nat)
    requires i <= |s|
    ensures i <= r <= |s| && AllDigits(s[i..r])
    ensures r == |s| || !IsDigit(s[r])
    decreases |s| - i
  {
    if i < |s| && IsDigit(s[i]) then DigitRun(s, i + 1) else i
  }

  predicate MuacScan(s: string)
  {
    4 <= |s| && s[..4] == "MUAC" &&
    var j := DigitRun(s, 4);
    4 < j && j + 1 < |s| && s[j] == '.' && IsDigit(s[j + 1])
  }

  lemma MuacScanIff(s: string)
    ensures MuacScan(s) <==> MuacDecimal(s)
  {
    if MuacScan(s) {
      var j := DigitRun(s, 4);
      assert MuacSplit(s, j, j + 2);
    }
    if MuacDecimal(s) {
      var j: nat, k: nat :| MuacSplit(s, j, k);
      var r := DigitRun(s, 4);
      if r < j {
        assert s[4..j][r - 4] == s[r];
      } else if r > j {
        assert s[4..r][j - 4] == s[j];
      }
      assert s[j + 1..k][0] == s[j + 1];
    }
  }

  /* ------------------------------------------------------------------ */
  /* `0\d{15}`                                                           */

  predicate PhonePattern(s: string)
  {
    |s| >= 16 && s[0] == '0' && AllDigits(s[1..16])
  }

  /* ------------------------------------------------------------------ */
  /* `(\d{1,2})\.(\d{1,2})\.(\d{4})`                                     */

  /** The three captured groups of the date pattern. */
  datatype DateGroups = DateGroups(day: string, month: string, year: string)

  /** The pattern matches a prefix of `s` with a day group of `a` digits and a month group of `b`. */
  predicate DateSplit(s: string, a: nat, b: nat)
  {
    1 <= a <= 2 && 1 <= b <= 2 && a + b + 6 <= |s|
    && AllDigits(s[..a]) && s[a] == '.'
    && AllDigits(s[a + 1..a + 1 + b]) && s[a + 1 + b] == '.'
    && AllDigits(s[a + b + 2..a + b + 6])
  }

  ghost predicate DatePattern(s: string)
  {
    exists a, b :: DateSplit(s, a, b)
  }

  function GroupsAt(s: string, a: nat, b: nat): DateGroups
    requires DateSplit(s, a, b)
  {
    DateGroups(s[..a], s[a + 1..a + 1 + b], s[a + b + 2..a + b + 6])
  }

  /** Greedy `\d{1,2}` at `from`: how many digits it takes (0 when there is none). */
  function ShortDigitRun(s: string, from: nat): (n: nat)
    requires from <= |s|
    ensures n <= 2 && from + n <= |s|
  {
    if from < |s| && IsDigit(s[from]) then
      (if from + 1 < |s| && IsDigit(s[from + 1]) then 2 else 1)
    else 0
  }

  /** `re.match(r'(\d{1,2})\.(\d{1,2})\.(\d{4})', s)`, with its groups. */
  function MatchDate(s: string): (r: Option<DateGroups>)
    ensures r.Some? ==> 1 <= |r.value.day| <= 2 && AllDigits(r.value.day)
    ensures r.Some? ==> 1 <= |r.value.month| <= 2 && AllDigits(r.value.month)
    ensures r.Some? ==> |r.value.year| == 4 && AllDigits(r.value.year)
  {
    var a := ShortDigitRun(s, 0);
    if a == 0 || a >= |s| || s[a] != '.' then None
    else
      var b := ShortDigitRun(s, a + 1);
      if b == 0 || a + b + 6 > |s| || s[a + 1 + b] != '.' || !AllDigits(s[a + b + 2..a + b + 6]) then None
      else Some(GroupsAt(s, a, b))
  }

  /** The scanner finds a match exactly when one exists, and the split is unique, so its
      groups are the ones the regular expression captures. */
  lemma MatchDateIff(s: string)
    ensures MatchDate(s).Some? <==> DatePattern(s)
    ensures forall a, b :: DateSplit(s, a, b) ==> MatchDate(s) == Some(GroupsAt(s, a, b))
  {
    forall a, b | DateSplit(s, a, b) ensures MatchDate(s) == Some(GroupsAt(s, a, b)) {
      DateSplitUnique(s, a, b);
    }
    if MatchDate(s).Some? {
      var a := ShortDigitRun(s, 0);
      var b := ShortDigitRun(s, a + 1);
      assert DateSplit(s, a, b);
    }
  }

  lemma DateSplitUnique(s: string, a: nat, b: nat)
    requires DateSplit(s, a, b)
    ensures ShortDigitRun(s, 0) == a && ShortDigitRun(s, a + 1) == b
    ensures MatchDate(s) == Some(GroupsAt(s, a, b))
  {
    assert s[..a][0] == s[0];
    if a == 2 {
      assert s[..a][1] == s[1];
    }
    assert s[a + 1..a + 1 + b][0] == s[a + 1];
    if b == 2 {
      assert s[a + 1..a + 1 + b][1] == s[a + 2];
    }
  }

  /* ------------------------------------------------------------------ */
  /* Anchoring: only the start of a token is constrained.               */

  /** Appending text to a token never un-matches a pattern that `re.match` anchors only at the start. */
  lemma PrefixMatchesSurviveAppend(s: string, t: string)
    ensures StartsWithDigit(s) ==> StartsWithDigit(s + t)
    ensures StartsWithWordChar(s) ==> StartsWithWordChar(s + t)
    ensures WordDigitScan(s) ==> WordDigitScan(s + t)
    ensures MuacScan(s) ==> MuacScan(s + t)
    ensures PhonePattern(s) ==> PhonePattern(s + t)
    ensures MatchDate(s).Some? ==> MatchDate(s + t) == MatchDate(s)
  {
    var u := s + t;
    if WordDigitScan(s) {
      WordDigitScanIff(s);
      var i :| 1 <= i < |s| && AllWord(s[..i]) && IsDigit(s[i]);
      assert u[..i] == s[..i];
      WordDigitScanIff(u);
    }
    if MuacScan(s) {
      MuacScanIff(s);
      var j: nat, k: nat :| MuacSplit(s, j, k);
      assert u[..4] == s[..4] && u[4..j] == s[4..j] && u[j + 1..k] == s[j + 1..k];
      assert MuacSplit(u, j, k);
      MuacScanIff(u);
    }
    if PhonePattern(s) {
      assert u[1..16] == s[1..16];
    }
    if MatchDate(s).Some? {
      MatchDateIff(s);
      var a: nat, b: nat :| DateSplit(s, a, b);
      assert u[..a] == s[..a];
      assert u[a + 1..a + 1 + b] == s[a + 1..a + 1 + b];
      assert u[a + b + 2..a + b + 6] == s[a + b + 2..a + b + 6];
      assert DateSplit(u, a, b);
      DateSplitUnique(u, a, b);
      DateSplitUnique(s, a, b);
    }
  }
}
