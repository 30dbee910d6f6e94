/**
 * `ThouMessage.process` and `ThouMessage.__init__`: the loop that drives a
 * schema over the text after the code, and the two-tier verdict that turns the
 * collected fields and errors into a message or a failure.
 *
 * `pull`, which extracts one position's token(s), lives in the parser module,
 * which is not part of this model. It is a parameter here (`Puller`); what the
 * engine needs of it is stated as predicates (`KeepsSuffix`, `KeepsKind`) that
 * only the lemmas relying on them require.
 */
module Engine {
  import opened CharClass
  import opened Calendar
  import opened FieldKinds
  import opened Schemas

  /** The field object `pull` returns for one position (`cur`): its kind, whether it holds
      several values, and the converted value(s). */
  datatype FieldValue = FieldValue(kind: FieldKind, several: bool, data: seq<Value>)

  /** One call of `pull`: it returns `(cur, err, etc)`, or it raises. */
  datatype PullOutcome =
    | Pulled(field: FieldValue, errors: seq<string>, rest: string)
    | Raised(reason: string)

  /** `pull(spec, code, remaining text, reference date)`. */
  type Puller = (FieldSpec, string, string, Moment) -> PullOutcome

  predicate IsSuffix(a: string, b: string)
  {
    |a| <= |b| && a == b[|b| - |a|..]
  }

  /** `pull` only ever consumes text: what it leaves is a suffix of what it was given. */
  ghost predicate KeepsSuffix(pull: Puller)
  {
    forall spec, code, text, ref ::
      pull(spec, code, text, ref).Pulled? ==> IsSuffix(pull(spec, code, text, ref).rest, text)
  }

  /** The field object `pull` returns is of the position's kind. */
  ghost predicate KeepsKind(pull: Puller)
  {
    forall spec, code, text, ref ::
      pull(spec, code, text, ref).Pulled? ==> pull(spec, code, text, ref).field.kind == spec.kind
  }

  /** An entry of the error list: `(code, fld)` from a field, the `('bad_text', ...)` pair for
      superfluous text, or a bare string from `semantics_check`. */
  datatype Problem =
    | FieldProblem(code: string, spec: FieldSpec)
    | TextProblem(code: string, detail: string)
    | SemanticProblem(note: string)

  /** The attributes `__init__` sets before it can raise. */
  datatype Draft = Draft(mtype: MessageType, code: string, text: string, fields: seq<FieldValue>, errors: seq<Problem>)

  /** A constructed message, or the `ThouMsgError` carrying the partial message and its errors. */
  datatype Outcome =
    | Valid(message: Draft, entries: map<string, FieldValue>)
    | Failed(partial: Draft, errors: seq<Problem>)

  /* ------------------------------------------------------------------ */
  /* The walk over the schema                                            */

  /** One iteration of the loop: the position, the text it was given, what `pull` did. */
  datatype Step = Step(spec: FieldSpec, input: string, outcome: PullOutcome)

  /** The remaining text after a step: unchanged when `pull` raised. */
  function After(st: Step): string
  {
    match st.outcome
    case Pulled(_, _, rest) => rest
    case Raised(_) => st.input
  }

  function Leftover(steps: seq<Step>, text: string): string
  {
    if steps == [] then text else After(steps[|steps| - 1])
  }

  /** The steps `process` takes over `fields`: one per position, in order, each given what the
      previous one left, whatever errors came before. */
  function Walk(fields: seq<FieldSpec>, code: string, text: string, ref: Moment, pull: Puller): (steps: seq<Step>)
    ensures |steps| == |fields|
    ensures forall i :: 0 <= i < |fields| ==>
      steps[i].spec == fields[i] && steps[i].outcome == pull(fields[i], code, steps[i].input, ref)
    decreases |fields|
  {
    if fields == [] then []
    else
      var prior := Walk(fields[..|fields| - 1], code, text, ref, pull);
      var last := fields[|fields| - 1];
      var input := Leftover(prior, text);
      prior + [Step(last, input, pull(last, code, input, ref))]
  }

  /** `[(e, fld) for e in err]`. */
  function Tag(errs: seq<string>, spec: FieldSpec): (r: seq<Problem>)
    ensures |r| == |errs|
    ensures forall k :: 0 <= k < |errs| ==> r[k] == FieldProblem(errs[k], spec)
  {
    seq(|errs|, k requires 0 <= k < |errs| => FieldProblem(errs[k], spec))
  }

  /** Tagging distributes over concatenation: `errors.extend` of two lists in turn. */
  lemma TagAppend(a: seq<string>, b: seq<string>, spec: FieldSpec)
    ensures Tag(a + b, spec) == Tag(a, spec) + Tag(b, spec)
  {
    assert forall k :: 0 <= k < |a + b| ==> Tag(a + b, spec)[k] == (Tag(a, spec) + Tag(b, spec))[k];
  }

  /** The errors one step adds: its field's errors, or the one for the exception. */
  function StepProblems(st: Step): seq<Problem>
  {
    match st.outcome
    case Pulled(_, errs, _) => Tag(errs, st.spec)
    case Raised(reason) => [FieldProblem(reason, st.spec)]
  }

  function FieldProblems(steps: seq<Step>): seq<Problem>
  {
    if steps == [] then [] else FieldProblems(steps[..|steps| - 1]) + StepProblems(steps[|steps| - 1])
  }

  /** `fobs`: one field object per step that did not raise. */
  function Values(steps: seq<Step>): seq<FieldValue>
  {
    if steps == [] then []
    else
      var last := steps[|steps| - 1];
      Values(steps[..|steps| - 1]) + if last.outcome.Pulled? then [last.outcome.field] else []
  }

  function SuperfluousDetail(rest: string): string
  {
    "Superfluous text: \"" + Strip(rest) + "\""
  }

  /** The error added when text is left after the last position. */
  function Superfluous(rest: string): seq<Problem>
  {
    if Strip(rest) != [] then [TextProblem("bad_text", SuperfluousDetail(rest))] else []
  }

  /** The kind names of some field objects. */
  function Names(fobs: seq<FieldValue>): set<string>
  {
    set f | f in fobs :: f.kind.name
  }

  /** The kind names of the positions of a schema. */
  function SchemaNames(fields: seq<FieldSpec>): set<string>
  {
    set i | 0 <= i < |fields| :: fields[i].kind.name
  }

  /** `reduce(as_hash, fobs, {})`: each field object under its kind's name, a later one
      replacing an earlier one of the same name. */
  function Entries(fobs: seq<FieldValue>): map<string, FieldValue>
  {
    if fobs == [] then map[]
    else Entries(fobs[..|fobs| - 1])[fobs[|fobs| - 1].kind.name := fobs[|fobs| - 1]]
  }

  /** The semantic notes as errors. */
  function Semantic(notes: seq<string>): (r: seq<Problem>)
    ensures |r| == |notes|
    ensures forall k :: 0 <= k < |notes| ==> r[k] == SemanticProblem(notes[k])
  {
    if notes == [] then [] else [SemanticProblem(notes[0])] + Semantic(notes[1..])
  }

  /** `klass(cod, msg, fobs, errors, dt)`: raise on field errors; otherwise run the semantic
      check and raise on its errors; only then build the entries. */
  function Init(t: MessageType, code: string, text: string, fobs: seq<FieldValue>, errs: seq<Problem>, ref: Moment): Outcome
  {
    var draft := Draft(t, code, text, fobs, errs);
    if errs != [] then Failed(draft, errs)
    else
      var notes := SemanticsCheck(t, ref);
      if notes != [] then Failed(draft, Semantic(notes))
      else Valid(draft, Entries(fobs))
  }

  /** The walk over `fields` followed by the constructor of `t`. */
  function Run(fields: seq<FieldSpec>, t: MessageType, code: string, msg: string, ref: Moment, pull: Puller): Outcome
  {
    var steps := Walk(fields, code, msg, ref, pull);
    Init(t, code, msg, Values(steps), FieldProblems(steps) + Superfluous(Leftover(steps, msg)), ref)
  }

  /** What `process(klass, cod, msg, dt)` produces. */
  function ProcessSpec(t: MessageType, code: string, msg: string, ref: Moment, pull: Puller): Outcome
  {
    Run(Fields(t), t, code, msg, ref, pull)
  }

  /** `ThouMessage.process`: visit every position, threading the remaining text through `pull`,
      collecting every error and never stopping early; then flag superfluous text. */
  method Process(t: MessageType, code: string, msg: string, ref: Moment, pull: Puller) returns (o: Outcome)
    ensures o == ProcessSpec(t, code, msg, ref, pull)
  {
    var fields := Fields(t);
    var errors: seq<Problem> := [];
    var fobs: seq<FieldValue> := [];
    var etc := msg;
    ghost var steps: seq<Step> := [];
    for i := 0 to |fields|
      invariant steps == Walk(fields[..i], code, msg, ref, pull)
      invariant etc == Leftover(steps, msg)
      invariant errors == FieldProblems(steps)
      invariant fobs == Values(steps)
    {
      var fld := fields[i];
      var got := pull(fld, code, etc, ref);
      WalkExtends(fields, i, code, msg, ref, pull);
      AppendStep(steps, Step(fld, etc, got), msg);
      steps := steps + [Step(fld, etc, got)];
      match got {
        case Raised(reason) =>
          errors := errors + [FieldProblem(reason, fld)];
        case Pulled(cur, err, rest) =>
          errors := errors + Tag(err, fld);
          etc := rest;
          fobs := fobs + [cur];
      }
    }
    assert fields[..|fields|] == fields;
    if Strip(etc) != [] {
      errors := errors + [TextProblem("bad_text", SuperfluousDetail(etc))];
    }
    assert errors == FieldProblems(steps) + Superfluous(etc);
    o := Init(t, code, msg, fobs, errors, ref);
  }

  /* ------------------------------------------------------------------ */
  /* Properties of the walk                                              */

  /** One more position extends the walk by one step, given what the walk so far left. */
  lemma WalkExtends(fields: seq<FieldSpec>, i: nat, code: string, text: string, ref: Moment, pull: Puller)
    requires i < |fields|
    ensures var prior := Walk(fields[..i], code, text, ref, pull);
      var input := Leftover(prior, text);
      Walk(fields[..i + 1], code, text, ref, pull) == prior + [Step(fields[i], input, pull(fields[i], code, input, ref))]
  {
    assert fields[..i + 1][..i] == fields[..i];
  }

  /** The walk threads the text: the first position gets all of it, every later one what the
      previous step left, whatever errors came before. */
  lemma {:induction false} WalkThreads(fields: seq<FieldSpec>, code: string, text: string, ref: Moment, pull: Puller)
    ensures var steps := Walk(fields, code, text, ref, pull);
      (|fields| > 0 ==> steps[0].input == text)
      && forall i :: 0 < i < |fields| ==> steps[i].input == After(steps[i - 1])
    decreases |fields|
  {
    if fields != [] {
      var prefix := fields[..|fields| - 1];
      WalkThreads(prefix, code, text, ref, pull);
      var steps := Walk(fields, code, text, ref, pull);
      var prior := Walk(prefix, code, text, ref, pull);
      assert steps[..|prior|] == prior;
      forall i | 0 < i < |fields| ensures steps[i].input == After(steps[i - 1]) {
        if i < |prior| {
          assert steps[i] == prior[i] && steps[i - 1] == prior[i - 1];
        }
      }
    }
  }

  /** Appending a step appends its errors and its field object and moves the leftover on. */
  lemma AppendStep(steps: seq<Step>, st: Step, text: string)
    ensures FieldProblems(steps + [st]) == FieldProblems(steps) + StepProblems(st)
    ensures Values(steps + [st]) == Values(steps) + if st.outcome.Pulled? then [st.outcome.field] else []
    ensures Leftover(steps + [st], text) == After(st)
  {
    assert (steps + [st])[..|steps|] == steps;
  }

  predicate Faulty(st: Step)
  {
    st.outcome.Raised? || st.outcome.errors != []
  }

  function CountFaulty(steps: seq<Step>): nat
  {
    if steps == [] then 0 else CountFaulty(steps[..|steps| - 1]) + if Faulty(steps[|steps| - 1]) then 1 else 0
  }

  function CountRaised(steps: seq<Step>): nat
  {
    if steps == [] then 0 else CountRaised(steps[..|steps| - 1]) + if steps[|steps| - 1].outcome.Raised? then 1 else 0
  }

  /** A problem comes from a step when it carries the step's schema entry and one of the error
      codes the step's `pull` returned, or the message of the exception it raised. */
  predicate ComesFrom(p: Problem, st: Step)
  {
    p.FieldProblem? && p.spec == st.spec &&
    match st.outcome
    case Pulled(_, errs, _) => p.code in errs
    case Raised(reason) => p.code == reason
  }

  /** Every collected error comes from some step of the walk. */
  lemma {:induction false} FieldProblemsTagged(steps: seq<Step>)
    ensures forall k :: 0 <= k < |FieldProblems(steps)| ==>
      exists i :: 0 <= i < |steps| && ComesFrom(FieldProblems(steps)[k], steps[i])
  {
    if steps != [] {
      var prior := steps[..|steps| - 1];
      FieldProblemsTagged(prior);
      var last := steps[|steps| - 1];
      forall k | 0 <= k < |FieldProblems(steps)|
        ensures exists i :: 0 <= i < |steps| && ComesFrom(FieldProblems(steps)[k], steps[i])
      {
        if k < |FieldProblems(prior)| {
          assert FieldProblems(steps)[k] == FieldProblems(prior)[k];
          var i :| 0 <= i < |prior| && ComesFrom(FieldProblems(prior)[k], prior[i]);
          assert steps[i] == prior[i];
        } else {
          var j := k - |FieldProblems(prior)|;
          assert FieldProblems(steps)[k] == StepProblems(last)[j];
          match last.outcome {
            case Pulled(_, errs, _) =>
              assert errs[j] in errs;
            case Raised(_) =>
          }
          assert ComesFrom(FieldProblems(steps)[k], steps[|steps| - 1]);
        }
      }
    } else {
      assert FieldProblems(steps) == [];
    }
  }

  /** No field errors at all exactly when no step raised or reported an error. */
  lemma {:induction false} NoProblemsIff(steps: seq<Step>)
    ensures FieldProblems(steps) == [] <==> CountFaulty(steps) == 0
    ensures FieldProblems(steps) == [] <==> forall i :: 0 <= i < |steps| ==> !Faulty(steps[i])
  {
    if steps != [] {
      var prior := steps[..|steps| - 1];
      NoProblemsIff(prior);
      var last := steps[|steps| - 1];
      assert StepProblems(last) == [] <==> !Faulty(last);
      if forall i :: 0 <= i < |steps| ==> !Faulty(steps[i]) {
        assert forall i :: 0 <= i < |prior| ==> !Faulty(prior[i]) by {
          forall i | 0 <= i < |prior| ensures !Faulty(prior[i]) { assert prior[i] == steps[i]; }
        }
      }
      if FieldProblems(steps) == [] {
        forall i | 0 <= i < |steps| ensures !Faulty(steps[i]) {
          if i < |prior| { assert steps[i] == prior[i]; }
        }
      }
    }
  }

  /** With a `pull` that reports at most one error per position (as `is_legal` does), the field
      errors number exactly the faulty positions. */
  lemma {:induction false} OneErrorPerFaultyField(steps: seq<Step>)
    requires forall i :: 0 <= i < |steps| && steps[i].outcome.Pulled? ==> |steps[i].outcome.errors| <= 1
    ensures |FieldProblems(steps)| == CountFaulty(steps)
  {
    if steps != [] {
      OneErrorPerFaultyField(steps[..|steps| - 1]);
    }
  }

  /** A raising position adds no field object; every other one adds exactly one. */
  lemma {:induction false} ValuesCount(steps: seq<Step>)
    ensures |Values(steps)| == |steps| - CountRaised(steps)
  {
    if steps != [] {
      ValuesCount(steps[..|steps| - 1]);
    }
  }

  /** When no position raised, the field objects line up with the positions. */
  lemma {:induction false} ValuesAligned(steps: seq<Step>)
    requires forall i :: 0 <= i < |steps| ==> steps[i].outcome.Pulled?
    ensures |Values(steps)| == |steps|
    ensures forall i :: 0 <= i < |steps| ==> Values(steps)[i] == steps[i].outcome.field
  {
    if steps != [] {
      var prior := steps[..|steps| - 1];
      ValuesAligned(prior);
      forall i | 0 <= i < |steps| ensures Values(steps)[i] == steps[i].outcome.field {
        if i < |prior| { assert steps[i] == prior[i]; }
      }
    }
  }

  /** Under `pull`'s contract the text left after the walk is a suffix of the text it started with. */
  lemma {:induction false} LeftoverIsSuffix(fields: seq<FieldSpec>, code: string, text: string, ref: Moment, pull: Puller)
    requires KeepsSuffix(pull)
    ensures IsSuffix(Leftover(Walk(fields, code, text, ref, pull), text), text)
    decreases |fields|
  {
    if fields != [] {
      var prefix := fields[..|fields| - 1];
      LeftoverIsSuffix(prefix, code, text, ref, pull);
      var prior := Walk(prefix, code, text, ref, pull);
      var input := Leftover(prior, text);
      var last := fields[|fields| - 1];
      var got := pull(last, code, input, ref);
      if got.Pulled? {
        assert IsSuffix(got.rest, input);
        assert got.rest == text[|text| - |got.rest|..] by {
          assert input == text[|text| - |input|..];
          assert got.rest == input[|input| - |got.rest|..];
        }
      }
    }
  }

  /** `entries` holds one key per kind name among the field objects, mapped to the last object
      of that name. */
  lemma {:induction false} EntriesSpec(fobs: seq<FieldValue>)
    ensures Entries(fobs).Keys == Names(fobs)
    ensures forall i :: 0 <= i < |fobs| && (forall j :: i < j < |fobs| ==> fobs[j].kind.name != fobs[i].kind.name) ==>
      Entries(fobs)[fobs[i].kind.name] == fobs[i]
  {
    if fobs != [] {
      var prior := fobs[..|fobs| - 1];
      var last := fobs[|fobs| - 1];
      EntriesSpec(prior);
      assert fobs == prior + [last];
      assert Names(fobs) == Names(prior) + {last.kind.name};
      forall i | 0 <= i < |fobs| && (forall j :: i < j < |fobs| ==> fobs[j].kind.name != fobs[i].kind.name)
        ensures Entries(fobs)[fobs[i].kind.name] == fobs[i]
      {
        if i < |prior| {
          assert prior[i] == fobs[i];
          assert forall j :: i < j < |prior| ==> prior[j].kind.name != prior[i].kind.name by {
            forall j | i < j < |prior| ensures prior[j].kind.name != prior[i].kind.name {
              assert prior[j] == fobs[j];
            }
          }
        }
      }
    }
  }

  /* ------------------------------------------------------------------ */
  /* Properties of process                                               */

  /** The error list ends with at most one superfluous-text error, after all field errors, and
      only when non-blank text is left; its detail quotes the trimmed leftover. */
  lemma SuperfluousTextLast(steps: seq<Step>, rest: string)
    ensures var all := FieldProblems(steps) + Superfluous(rest);
      (forall k :: 0 <= k < |FieldProblems(steps)| ==> all[k].FieldProblem?)
      && (AllSpaces(rest) ==> all == FieldProblems(steps))
      && (!AllSpaces(rest) ==>
            |all| == |FieldProblems(steps)| + 1
            && all[|all| - 1] == TextProblem("bad_text", "Superfluous text: \"" + Strip(rest) + "\""))
  {
    FieldProblemsTagged(steps);
    StripBlank(rest);
  }

  /** The two tiers: any field-level error (including superfluous text) fails the parse with those
      errors and the semantic check is not consulted; otherwise the semantic check decides. */
  lemma ProcessTiers(t: MessageType, code: string, msg: string, ref: Moment, pull: Puller)
    ensures var steps := Walk(Fields(t), code, msg, ref, pull);
      var errs := FieldProblems(steps) + Superfluous(Leftover(steps, msg));
      var draft := Draft(t, code, msg, Values(steps), errs);
      (errs != [] ==> ProcessSpec(t, code, msg, ref, pull) == Failed(draft, errs))
      && (errs == [] && SemanticsCheck(t, ref) != [] ==>
            ProcessSpec(t, code, msg, ref, pull).Failed?
            && |ProcessSpec(t, code, msg, ref, pull).errors| == |SemanticsCheck(t, ref)|
            && forall k :: 0 <= k < |SemanticsCheck(t, ref)| ==>
                 ProcessSpec(t, code, msg, ref, pull).errors[k] == SemanticProblem(SemanticsCheck(t, ref)[k]))
      && (errs == [] && SemanticsCheck(t, ref) == [] ==>
            ProcessSpec(t, code, msg, ref, pull) == Valid(draft, Entries(Values(steps))))
  {
  }

  /** A walk-and-construct succeeds exactly when every position pulled without error, nothing but
      whitespace is left, and the semantic check has nothing to say. */
  lemma RunValidIff(fields: seq<FieldSpec>, t: MessageType, code: string, msg: string, ref: Moment, pull: Puller)
    ensures var steps := Walk(fields, code, msg, ref, pull);
      Run(fields, t, code, msg, ref, pull).Valid? <==>
        (forall i :: 0 <= i < |steps| ==> steps[i].outcome.Pulled? && steps[i].outcome.errors == [])
        && AllSpaces(Leftover(steps, msg))
        && SemanticsCheck(t, ref) == []
  {
    var steps := Walk(fields, code, msg, ref, pull);
    var rest := Leftover(steps, msg);
    var errs := FieldProblems(steps) + Superfluous(rest);
    assert Run(fields, t, code, msg, ref, pull).Valid? <==> errs == [] && SemanticsCheck(t, ref) == [];
    assert errs == [] <==> FieldProblems(steps) == [] && Superfluous(rest) == [];
    NoProblemsIff(steps);
    StripBlank(rest);
  }

  /** A parse succeeds exactly when every position pulled without error, nothing but whitespace
      is left, and the message type is a known one. */
  lemma ProcessValidIff(t: MessageType, code: string, msg: string, ref: Moment, pull: Puller)
    ensures var steps := Walk(Fields(t), code, msg, ref, pull);
      ProcessSpec(t, code, msg, ref, pull).Valid? <==>
        (forall i :: 0 <= i < |steps| ==> steps[i].outcome.Pulled? && steps[i].outcome.errors == [])
        && AllSpaces(Leftover(steps, msg))
        && t != UnknownMessage
  {
    RunValidIff(Fields(t), t, code, msg, ref, pull);
    SemanticsCheckIff(t, ref);
  }

  /** Field objects that line up with the positions have the schema's names. */
  lemma SameNames(fobs: seq<FieldValue>, fields: seq<FieldSpec>)
    requires |fobs| == |fields|
    requires forall i :: 0 <= i < |fields| ==> fobs[i].kind.name == fields[i].kind.name
    ensures Names(fobs) == SchemaNames(fields)
  {
    forall f | f in fobs ensures f.kind.name in SchemaNames(fields) {
      var i :| 0 <= i < |fobs| && fobs[i] == f;
    }
    forall i | 0 <= i < |fields| ensures fields[i].kind.name in Names(fobs) {
      assert fobs[i] in fobs;
    }
  }

  /** On success over positions of distinct kinds, the entries have one key per position, the
      position's kind name, mapped to the field object `pull` returned there. */
  lemma RunValidEntries(fields: seq<FieldSpec>, t: MessageType, code: string, msg: string, ref: Moment, pull: Puller)
    requires KeepsKind(pull)
    requires forall i, j :: 0 <= i < j < |fields| ==> fields[i].kind.name != fields[j].kind.name
    requires Run(fields, t, code, msg, ref, pull).Valid?
    ensures var steps := Walk(fields, code, msg, ref, pull);
      var entries := Run(fields, t, code, msg, ref, pull).entries;
      entries.Keys == SchemaNames(fields)
      && forall i :: 0 <= i < |fields| ==>
           steps[i].outcome.Pulled? && entries[fields[i].kind.name] == steps[i].outcome.field
  {
    var steps := Walk(fields, code, msg, ref, pull);
    var fobs := Values(steps);
    assert Run(fields, t, code, msg, ref, pull).entries == Entries(fobs);
    RunValidIff(fields, t, code, msg, ref, pull);
    ValuesAligned(steps);
    EntriesSpec(fobs);
    forall i | 0 <= i < |fields| ensures fobs[i].kind.name == fields[i].kind.name {
      assert steps[i].outcome == pull(fields[i], code, steps[i].input, ref);
    }
    SameNames(fobs, fields);
  }

  /** On success the entries have one key per schema position, the position's kind name, mapped
      to the field object `pull` returned there. */
  lemma ValidEntries(t: MessageType, code: string, msg: string, ref: Moment, pull: Puller)
    requires KeepsKind(pull)
    requires ProcessSpec(t, code, msg, ref, pull).Valid?
    ensures var steps := Walk(Fields(t), code, msg, ref, pull);
      var entries := ProcessSpec(t, code, msg, ref, pull).entries;
      entries.Keys == SchemaNames(Fields(t))
      && forall i :: 0 <= i < |Fields(t)| ==>
           steps[i].outcome.Pulled? && entries[Fields(t)[i].kind.name] == steps[i].outcome.field
  {
    SchemaKindsDistinct(t);
    RunValidEntries(Fields(t), t, code, msg, ref, pull);
  }

  /** The message a parse produced, whether or not it was raised with errors. */
  function DraftOf(o: Outcome): Draft
  {
    if o.Valid? then o.message else o.partial
  }

  /** Whatever the verdict, the message records its class, its code and the text it was given,
      and the field objects collected; a failure carries the draft's own errors unless the
      semantic check produced them. */
  lemma RunKeepsHeader(fields: seq<FieldSpec>, t: MessageType, code: string, msg: string, ref: Moment, pull: Puller)
    ensures var d := DraftOf(Run(fields, t, code, msg, ref, pull));
      d.mtype == t && d.code == code && d.text == msg && d.fields == Values(Walk(fields, code, msg, ref, pull))
  {
  }

  lemma ProcessKeepsHeader(t: MessageType, code: string, msg: string, ref: Moment, pull: Puller)
    ensures var d := DraftOf(ProcessSpec(t, code, msg, ref, pull));
      d.mtype == t && d.code == code && d.text == msg && d.fields == Values(Walk(Fields(t), code, msg, ref, pull))
  {
    RunKeepsHeader(Fields(t), t, code, msg, ref, pull);
  }

  /** UnknownMessage has no fields and the base semantic check: it always fails, with the
      superfluous-text error when anything but whitespace follows the code, and with the base
      check's note otherwise. */
  lemma UnknownAlwaysFails(code: string, msg: string, ref: Moment, pull: Puller)
    ensures ProcessSpec(UnknownMessage, code, msg, ref, pull) ==
      if AllSpaces(msg) then
        Failed(Draft(UnknownMessage, code, msg, [], []), [SemanticProblem("Extend semantics_check.")])
      else
        var e := TextProblem("bad_text", "Superfluous text: \"" + Strip(msg) + "\"");
        Failed(Draft(UnknownMessage, code, msg, [], [e]), [e])
  {
    assert Fields(UnknownMessage) == [];
    var steps := Walk([], code, msg, ref, pull);
    assert steps == [];
    assert Values(steps) == [] && FieldProblems(steps) == [] && Leftover(steps, msg) == msg;
    StripBlank(msg);
  }
}
