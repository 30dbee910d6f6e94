/**
 * The entry points of `ThouMessage`: `pull_code`, which splits the code off a
 * message, `parse`, which picks the message class from the code and hands the
 * rest to `process`, and `caseless_hash`, which lower-cases a handler table.
 */
module Dispatch {
  import opened CharClass
  import opened Calendar
  import opened Schemas
  import opened Engine

  /** The first whitespace at or after `i`, or `|s|` when there is none. */
  function SpaceFrom(s: string, i: nat): (j: nat)
    requires i <= |s|
    ensures i <= j <= |s|
    ensures forall k :: i <= k < j ==> !IsSpace(s[k])
    ensures j < |s| ==> IsSpace(s[j])
    decreases |s| - i
  {
    if i == |s| || IsSpace(s[i]) then i else SpaceFrom(s, i + 1)
  }

  /** `pull_code(msg)`: `re.split(r'\s+', msg, 1)` padded with `''` and cut to two items,
      that is, the text before the first whitespace run and the text after it. */
  function PullCode(msg: string): (string, string)
  {
    var i := SpaceFrom(msg, 0);
    if i == |msg| then (msg, "") else (msg[..i], msg[SpacesFrom(msg, i)..])
  }

  /** The code holds no whitespace and the remainder does not start with any; without whitespace
      the whole message is the code, otherwise code, a non-empty run of whitespace and remainder
      make up the message. */
  lemma PullCodeSplit(msg: string)
    ensures var (code, rem) := PullCode(msg);
      NoSpaces(code) && (rem == [] || !IsSpace(rem[0]))
      && (NoSpaces(msg) ==> code == msg && rem == [])
      && (!NoSpaces(msg) ==> exists run :: AllSpaces(run) && run != [] && msg == code + run + rem)
  {
    var i := SpaceFrom(msg, 0);
    if i < |msg| {
      var j := SpacesFrom(msg, i);
      var run := msg[i..j];
      assert AllSpaces(run);
      assert msg == msg[..i] + run + msg[j..];
    }
  }

  /** Splitting back what was joined: a code without whitespace, a whitespace run and a remainder
      that does not start with whitespace come back apart. */
  lemma PullCodeJoin(code: string, run: string, rest: string)
    requires NoSpaces(code) && AllSpaces(run) && run != []
    requires rest == [] || !IsSpace(rest[0])
    ensures PullCode(code + run + rest) == (code, rest)
  {
    var msg := code + run + rest;
    assert msg[|code|] == run[0];
    assert forall k :: 0 <= k < |code| ==> msg[k] == code[k];
    assert SpaceFrom(msg, 0) == |code|;
    assert forall k :: |code| <= k < |code| + |run| ==> msg[k] == run[k - |code|];
    assert rest != [] ==> msg[|code| + |run|] == rest[0];
    assert SpacesFrom(msg, |code|) == |code| + |run|;
    assert msg[..|code|] == code;
    assert msg[|code| + |run|..] == rest;
  }

  /** Splitting a stripped text leaves a remainder with no whitespace at either end. */
  lemma PullCodeTrimmed(s: string)
    requires Strip(s) == s
    ensures Strip(PullCode(s).1) == PullCode(s).1
  {
    var (code, rem) := PullCode(s);
    PullCodeSplit(s);
    if rem != [] {
      assert rem == s[|s| - |rem|..];
      assert s != [] && !IsSpace(s[|s| - 1]) by { StripFixpoint(s); }
      StripFixpoint(rem);
    }
  }

  /** A message without whitespace is all code. */
  lemma PullCodeWhole(code: string)
    requires NoSpaces(code)
    ensures PullCode(code) == (code, "")
  {
    assert SpaceFrom(code, 0) == |code|;
  }

  /** `caseless_hash(hsh)`: the same table under lower-cased keys. Which value a lower-cased key
      keeps when several keys lower to it depends on the dictionary's iteration order, so only
      some original key's value is promised there. */
  method CaselessHash<V>(hsh: map<string, V>) returns (ans: map<string, V>)
    ensures ans.Keys == set k | k in hsh :: Lower(k)
    ensures forall key :: key in ans ==> exists k :: k in hsh && Lower(k) == key && ans[key] == hsh[k]
    ensures forall k :: k in hsh && (forall k2 :: k2 in hsh && Lower(k2) == Lower(k) ==> k2 == k) ==>
      Lower(k) in ans && ans[Lower(k)] == hsh[k]
  {
    ans := map[];
    var todo := hsh.Keys;
    while todo != {}
      invariant todo <= hsh.Keys
      invariant ans.Keys == set k | k in hsh.Keys - todo :: Lower(k)
      invariant forall key :: key in ans ==> exists k :: k in hsh.Keys - todo && Lower(k) == key && ans[key] == hsh[k]
      decreases todo
    {
      var k :| k in todo;
      ans := ans[Lower(k) := hsh[k]];
      todo := todo - {k};
    }
  }

  /** `ThouMessage.parse(msg, ad)`: strip the text, split off the code, look its class up without
      regard to case (UnknownMessage when absent) and process the remainder. */
  function Parsed(msg: string, ref: Moment, pull: Puller): Outcome
  {
    var split := PullCode(Strip(msg));
    ProcessSpec(Lookup(split.0), split.0, split.1, ref, pull)
  }

  method Parse(msg: string, ref: Moment, pull: Puller) returns (o: Outcome)
    ensures o == Parsed(msg, ref, pull)
  {
    var (code, rem) := PullCode(Strip(msg));
    o := Process(Lookup(code), code, rem, ref, pull);
  }

  /** A parse is the processing of the remainder by the class the code selects. */
  lemma ParsedVia(msg: string, code: string, rem: string, ref: Moment, pull: Puller)
    requires PullCode(Strip(msg)) == (code, rem)
    ensures Parsed(msg, ref, pull) == ProcessSpec(Lookup(code), code, rem, ref, pull)
  {
  }

  /** The message records the class chosen from its code, the code as typed, and the remainder
      after it, which carries no whitespace at either end. */
  lemma ParseDispatch(msg: string, ref: Moment, pull: Puller)
    ensures var d := DraftOf(Parsed(msg, ref, pull));
      (d.code, d.text) == PullCode(Strip(msg)) && d.mtype == Lookup(d.code)
      && NoSpaces(d.code) && Strip(d.text) == d.text
  {
    var s := Strip(msg);
    var (code, rem) := PullCode(s);
    var t := Lookup(code);
    assert Parsed(msg, ref, pull) == ProcessSpec(t, code, rem, ref, pull);
    ProcessKeepsHeader(t, code, rem, ref, pull);
    StripFixpoint(msg);
    PullCodeTrimmed(s);
  }

  /** Whitespace around a message changes nothing. */
  lemma ParseIgnoresOuterSpace(msg: string, ref: Moment, pull: Puller)
    ensures Parsed(Strip(msg), ref, pull) == Parsed(msg, ref, pull)
  {
    StripFixpoint(msg);
  }

  /** A code that names no class always fails, whatever `pull` does: on the remainder when there
      is one, quoting it, and otherwise in the base semantic check. */
  lemma ParseUnknownFails(msg: string, ref: Moment, pull: Puller)
    requires Upper(PullCode(Strip(msg)).0) !in MSG_ASSOC
    ensures var (code, rem) := PullCode(Strip(msg));
      Parsed(msg, ref, pull) ==
        if rem == [] then
          Failed(Draft(UnknownMessage, code, rem, [], []), [SemanticProblem("Extend semantics_check.")])
        else
          var e := TextProblem("bad_text", "Superfluous text: \"" + rem + "\"");
          Failed(Draft(UnknownMessage, code, rem, [], [e]), [e])
  {
    var (code, rem) := PullCode(Strip(msg));
    LookupUnknownIff(code);
    ParsedVia(msg, code, rem, ref, pull);
    UnknownAlwaysFails(code, rem, ref, pull);
    StripFixpoint(msg);
    PullCodeTrimmed(Strip(msg));
    StripBlank(rem);
  }

  /** A message is split at its first whitespace run. */
  lemma SplitSample(m: string)
    requires m == "XXX foo bar"
    ensures PullCode(Strip(m)) == ("XXX", "foo bar")
  {
    var code, run, rem := "XXX", " ", "foo bar";
    assert m == code + run + rem;
    assert !IsSpace(m[0]) && !IsSpace(m[|m| - 1]);
    StripFixpoint(m);
    PullCodeJoin(code, run, rem);
  }

  /** An unknown code followed by words fails on the words. */
  lemma UnknownWithText(m: string, ref: Moment, pull: Puller)
    requires m == "XXX foo bar"
    ensures Parsed(m, ref, pull) ==
      var e := TextProblem("bad_text", "Superfluous text: \"foo bar\"");
      Failed(Draft(UnknownMessage, "XXX", "foo bar", [], [e]), [e])
  {
    SplitSample(m);
    var rem := "foo bar";
    assert Upper("XXX") == "XXX";
    ParseUnknownFails(m, ref, pull);
    assert "Superfluous text: \"" + rem + "\"" == "Superfluous text: \"foo bar\"";
  }

  /** A bare unknown code fails in the base semantic check. */
  lemma UnknownAlone(h: string, ref: Moment, pull: Puller)
    requires h == "  hello\n"
    ensures Parsed(h, ref, pull) ==
      Failed(Draft(UnknownMessage, "hello", "", [], []), [SemanticProblem("Extend semantics_check.")])
  {
    var pre, code, post := "  ", "hello", "\n";
    assert h == pre + code + post;
    StripAround(pre, code, post);
    PullCodeWhole(code);
    assert Upper(code) == "HELLO";
    ParseUnknownFails(h, ref, pull);
  }
}
