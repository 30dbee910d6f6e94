/**
 * Character classes and string helpers with the meaning they have in the
 * Python 2 source: byte strings, `re` patterns compiled without the UNICODE or
 * LOCALE flag, and ASCII-only `upper`, `lower` and `strip`.
 *
 *   \d          [0-9]
 *   \w          [A-Za-z0-9_]
 *   \s, strip   space, tab, newline, carriage return, vertical tab, form feed
 */
module CharClass {
  import opened Maybe


  predicate IsDigit(c: char) { '0' <= c <= '9' }

  predicate IsLetter(c: char) { 'A' <= c <= 'Z' || 'a' <= c <= 'z' }

  predicate IsWordChar(c: char) { IsLetter(c) || IsDigit(c) || c == '_' }

  predicate IsSpace(c: char)
  {
    c == ' ' || c == '\t' || c == '\n' || c == '\r' || c == '\U{000B}' || c == '\U{000C}'
  }

  predicate AllDigits(s: string) { forall k :: 0 <= k < |s| ==> IsDigit(s[k]) }

  predicate AllWord(s: string) { forall k :: 0 <= k < |s| ==> IsWordChar(s[k]) }

  predicate AllLetters(s: string) { forall k :: 0 <= k < |s| ==> IsLetter(s[k]) }

  predicate AllSpaces(s: string) { forall k :: 0 <= k < |s| ==> IsSpace(s[k]) }

  predicate NoSpaces(s: string) { forall k :: 0 <= k < |s| ==> !IsSpace(s[k]) }

  function ToUpper(c: char): char
  {
    if 'a' <= c <= 'z' then (c as int - 32) as char else c
  }

  function ToLower(c: char): char
  {
    if 'A' <= c <= 'Z' then (c as int + 32) as char else c
  }

  /** `str.upper()`: every ASCII lower-case letter raised, nothing else touched. */
  function Upper(s: string): (r: string)
    ensures |r| == |s|
    ensures forall k :: 0 <= k < |s| ==> r[k] == ToUpper(s[k])
  {
    seq(|s|, k requires 0 <= k < |s| => ToUpper(s[k]))
  }

  /** `str.lower()`. */
  function Lower(s: string): (r: string)
    ensures |r| == |s|
    ensures forall k :: 0 <= k < |s| ==> r[k] == ToLower(s[k])
  {
    seq(|s|, k requires 0 <= k < |s| => ToLower(s[k]))
  }

  /** Upper- and lower-casing forget the case they replace: applying either after either gives
      the same as applying it alone. */
  lemma CaseFolding(s: string)
    ensures Upper(Upper(s)) == Upper(s) && Upper(Lower(s)) == Upper(s)
    ensures Lower(Lower(s)) == Lower(s) && Lower(Upper(s)) == Lower(s)
  {
    assert forall k :: 0 <= k < |s| ==> Upper(Lower(s))[k] == Upper(s)[k];
    assert forall k :: 0 <= k < |s| ==> Lower(Upper(s))[k] == Lower(s)[k];
  }

  /** `first_cap`: capitalises the first character and leaves the others alone. */
  function FirstCap(s: string): string
  {
    if |s| < 1 then s else [ToUpper(s[0])] + s[1..]
  }

  lemma FirstCapOnlyTouchesHead(s: string)
    ensures |FirstCap(s)| == |s|
    ensures |s| > 0 ==> FirstCap(s)[0] == ToUpper(s[0]) && FirstCap(s)[1..] == s[1..]
    ensures FirstCap(FirstCap(s)) == FirstCap(s)
    ensures Upper(FirstCap(s)) == Upper(s)
  {
    if |s| > 0 {
      assert FirstCap(s)[1..] == s[1..];
      assert FirstCap(FirstCap(s)) == [ToUpper(ToUpper(s[0]))] + s[1..];
      assert Upper(FirstCap(s)) == Upper(s) by {
        forall k | 0 <= k < |s| ensures Upper(FirstCap(s))[k] == Upper(s)[k] {
          if k > 0 { assert FirstCap(s)[k] == s[k]; }
        }
      }
    }
  }

  /** `re.sub(r'[A-Z]', '', s, 0, re.IGNORECASE)`: every ASCII letter deleted. */
  function DeleteLetters(s: string): (r: string)
    ensures |r| <= |s|
    ensures forall k :: 0 <= k < |r| ==> !IsLetter(r[k])
  {
    if s == [] then []
    else if IsLetter(s[0]) then DeleteLetters(s[1..])
    else [s[0]] + DeleteLetters(s[1..])
  }

  lemma {:induction false} DeleteLettersAppend(a: string, b: string)
    ensures DeleteLetters(a + b) == DeleteLetters(a) + DeleteLetters(b)
  {
    if a == [] {
      assert a + b == b;
    } else {
      assert (a + b)[1..] == a[1..] + b;
      DeleteLettersAppend(a[1..], b);
    }
  }

  /** Deleting letters keeps every other character, in order. */
  lemma {:induction false} DeleteLettersKeepsTheRest(s: string)
    requires forall k :: 0 <= k < |s| ==> !IsLetter(s[k])
    ensures DeleteLetters(s) == s
  {
    if s != [] {
      DeleteLettersKeepsTheRest(s[1..]);
    }
  }

  lemma {:induction false} DeleteLettersDropsAll(s: string)
    requires AllLetters(s)
    ensures DeleteLetters(s) == []
  {
    if s != [] {
      DeleteLettersDropsAll(s[1..]);
    }
  }

  /** A code such as `WT` in front of digits disappears entirely. */
  lemma LettersThenRest(code: string, rest: string)
    requires AllLetters(code)
    requires forall k :: 0 <= k < |rest| ==> !IsLetter(rest[k])
    ensures DeleteLetters(code + rest) == rest
  {
    DeleteLettersAppend(code, rest);
    DeleteLettersDropsAll(code);
    DeleteLettersKeepsTheRest(rest);
  }

  /** `int(s)` for a string of decimal digits. */
  function DigitsValue(s: string): nat
    requires AllDigits(s)
  {
    if s == [] then 0 else DigitsValue(s[..|s| - 1]) * 10 + (s[|s| - 1] as int - '0' as int)
  }

  /** The end of the whitespace run that starts at `i`. */
  function SpacesFrom(s: string, i: nat): (j: nat)
    requires i <= |s|
    ensures i <= j <= |s|
    ensures forall k :: i <= k < j ==> IsSpace(s[k])
    ensures j < |s| ==> !IsSpace(s[j])
    decreases |s| - i
  {
    if i < |s| && IsSpace(s[i]) then SpacesFrom(s, i + 1) else i
  }

  /** The start of the whitespace run that ends at `j`, going no lower than `lo`. */
  function SpacesBefore(s: string, lo: nat, j: nat): (i: nat)
    requires lo <= j <= |s|
    ensures lo <= i <= j
    ensures forall k :: i <= k < j ==> IsSpace(s[k])
    ensures i > lo ==> !IsSpace(s[i - 1])
    decreases j
  {
    if j > lo && IsSpace(s[j - 1]) then SpacesBefore(s, lo, j - 1) else j
  }

  /** `str.strip()`: leading and trailing whitespace removed. */
  function Strip(s: string): (r: string)
    ensures |r| <= |s|
    ensures r == [] || (!IsSpace(r[0]) && !IsSpace(r[|r| - 1]))
  {
    var i := SpacesFrom(s, 0);
    s[i..SpacesBefore(s, i, |s|)]
  }

  /** A string strips to nothing exactly when it is all whitespace. */
  lemma StripBlank(s: string)
    ensures Strip(s) == [] <==> AllSpaces(s)
  {
    var i := SpacesFrom(s, 0);
    var j := SpacesBefore(s, i, |s|);
    if Strip(s) == [] {
      assert i == j;
    }
  }

  /** Stripping removes only whitespace from the two ends: the result is a slice of the input. */
  lemma StripIsSlice(s: string)
    ensures exists i, j :: 0 <= i <= j <= |s| && Strip(s) == s[i..j] && AllSpaces(s[..i]) && AllSpaces(s[j..])
  {
    var i := SpacesFrom(s, 0);
    var j := SpacesBefore(s, i, |s|);
    assert AllSpaces(s[..i]);
    assert AllSpaces(s[j..]);
  }

  /** A string with no whitespace at either end is its own strip; in particular stripping twice
      is stripping once. */
  lemma StripFixpoint(s: string)
    ensures (s == [] || (!IsSpace(s[0]) && !IsSpace(s[|s| - 1]))) ==> Strip(s) == s
    ensures Strip(Strip(s)) == Strip(s)
  {
    var r := Strip(s);
    assert SpacesFrom(r, 0) == 0;
    assert SpacesBefore(r, 0, |r|) == |r|;
    if s == [] || (!IsSpace(s[0]) && !IsSpace(s[|s| - 1])) {
      assert SpacesFrom(s, 0) == 0;
      assert SpacesBefore(s, 0, |s|) == |s|;
    }
  }

  /** Whitespace around a core with no whitespace at its ends strips away, and only it. */
  lemma StripAround(pre: string, core: string, post: string)
    requires AllSpaces(pre) && AllSpaces(post)
    requires core != [] && !IsSpace(core[0]) && !IsSpace(core[|core| - 1])
    ensures Strip(pre + core + post) == core
  {
    var s := pre + core + post;
    assert forall k :: 0 <= k < |pre| ==> s[k] == pre[k];
    assert s[|pre|] == core[0];
    assert SpacesFrom(s, 0) == |pre|;
    assert forall k :: |pre| + |core| <= k < |s| ==> s[k] == post[k - |pre| - |core|];
    assert s[|pre| + |core| - 1] == core[|core| - 1];
    assert SpacesBefore(s, |pre|, |s|) == |pre| + |core|;
    assert s[|pre|..|pre| + |core|] == core;
  }

  /** Python's `int(s)` on a byte string: optional surrounding whitespace, an optional sign that
      may itself be followed by whitespace, then decimal digits; `None` where `int` raises
      ValueError. */
  function IntOf(s: string): Option<int>
  {
    var t := Strip(s);
    if t != [] && (t[0] == '+' || t[0] == '-') then
      var d := t[SpacesFrom(t, 1)..];
      if d != [] && AllDigits(d) then Some(if t[0] == '-' then -(DigitsValue(d) as int) else DigitsValue(d)) else None
    else if t != [] && AllDigits(t) then Some(DigitsValue(t))
    else None
  }

  /** `int` reads a run of digits as its decimal value. */
  lemma IntOfDigits(d: string)
    requires d != [] && AllDigits(d)
    ensures IntOf(d) == Some(DigitsValue(d))
  {
    StripFixpoint(d);
  }

  /** The whitespace run from `i` ends at the first non-whitespace character. */
  lemma SpacesFromStopsAt(s: string, i: nat, p: nat)
    requires i <= p < |s|
    requires forall k :: i <= k < p ==> IsSpace(s[k])
    requires !IsSpace(s[p])
    ensures SpacesFrom(s, i) == p
  {
  }

  /** A stripped text made of a sign, optional whitespace and digits reads as the signed value. */
  lemma IntOfSignedText(s: string, d: string)
    requires Strip(s) == s && s != [] && (s[0] == '-' || s[0] == '+')
    requires s[SpacesFrom(s, 1)..] == d && d != [] && AllDigits(d)
    ensures IntOf(s) == Some(if s[0] == '-' then -(DigitsValue(d) as int) else DigitsValue(d))
  {
  }

  /** A sign in front of the digits, with or without whitespace between, negates or keeps
      their value. */
  lemma IntOfSigned(sign: char, run: string, d: string)
    requires sign == '-' || sign == '+'
    requires AllSpaces(run)
    requires d != [] && AllDigits(d)
    ensures IntOf([sign] + run + d) == Some(if sign == '-' then -(DigitsValue(d) as int) else DigitsValue(d))
  {
    var s := [sign] + run + d;
    var p := 1 + |run|;
    assert Strip(s) == s by {
      assert IsDigit(d[|d| - 1]) && s[|s| - 1] == d[|d| - 1];
      StripFixpoint(s);
    }
    assert SpacesFrom(s, 1) == p by {
      assert forall k :: 1 <= k < p ==> s[k] == run[k - 1];
      assert IsDigit(d[0]) && s[p] == d[0];
      SpacesFromStopsAt(s, 1, p);
    }
    assert s[p..] == d;
    IntOfSignedText(s, d);
  }

  /** `int('- 5')` is -5: whitespace may follow the sign. */
  lemma IntOfSpacedSign(s: string)
    requires s == "- 5"
    ensures IntOf(s) == Some(-5)
  {
    assert s == ['-'] + " " + "5";
    IntOfSigned('-', " ", "5");
    assert DigitsValue("5") == 5;
  }

  /** Text with a letter or punctuation among its digits is refused. */
  lemma IntOfRefuses(s: string)
    requires exists k :: 0 <= k < |s| && !IsDigit(s[k]) && !IsSpace(s[k]) && s[k] != '+' && s[k] != '-'
    ensures IntOf(s) == None
  {
    var k :| 0 <= k < |s| && !IsDigit(s[k]) && !IsSpace(s[k]) && s[k] != '+' && s[k] != '-';
    var i := SpacesFrom(s, 0);
    var j := SpacesBefore(s, i, |s|);
    assert i <= k < j;
    var t := Strip(s);
    assert t == s[i..j];
    assert t[k - i] == s[k];
    if t != [] && (t[0] == '+' || t[0] == '-') {
      var p := SpacesFrom(t, 1);
      assert p <= k - i;
      assert t[p..][k - i - p] == s[k];
    }
  }
}
