/**
 * The message schemas of messages/rmessages.py: each message class's `fields`
 * list, its `semantics_check`, and the `MSG_ASSOC` table that maps an
 * upper-cased code to its class.
 */
module Schemas {
  import opened CharClass
  import opened Calendar
  import opened FieldKinds

  /** A schema position: a bare kind, or a `(kind, True)` pair, which may repeat. */
  datatype FieldSpec = FieldSpec(kind: FieldKind, repeatable: bool)

  function Single(kind: FieldKind): FieldSpec { FieldSpec(kind, false) }

  function Repeated(kind: FieldKind): FieldSpec { FieldSpec(kind, true) }

  datatype MessageType =
    | UnknownMessage
    | PregMessage | RefMessage | ANCMessage | DepMessage | RiskMessage | RedMessage
    | BirMessage | ChildMessage | DeathMessage | ResultMessage | RedResultMessage
    | NBCMessage | PNCMessage | CCMMessage | CMRMessage | CBNMessage | ChildHealthMessage

  /** The class attribute `fields`. UnknownMessage inherits the base class's empty list. */
  function Fields(t: MessageType): seq<FieldSpec>
  {
    match t
    case UnknownMessage => []
    case PregMessage =>
      [Single(ID_FIELD), Single(LMP_DATE_FIELD), Single(DATE_FIELD), Single(GRAVIDITY_FIELD), Single(PARITY_FIELD),
       Repeated(PREG_CODE_FIELD), Repeated(SYMPTOM_CODE_FIELD),
       Single(LOCATION_FIELD), Single(WEIGHT_FIELD), Single(TOILET_FIELD), Single(HANDWASH_FIELD)]
    case RefMessage => [Single(PHONE_BASED_ID_FIELD)]
    case ANCMessage =>
      [Single(ID_FIELD), Single(DATE_FIELD), Single(ANC_FIELD), Repeated(SYMPTOM_CODE_FIELD),
       Single(LOCATION_FIELD), Single(WEIGHT_FIELD)]
    case DepMessage => [Single(ID_FIELD), Single(NUMBER_FIELD), Single(DATE_FIELD)]
    case RiskMessage => [Single(ID_FIELD), Repeated(SYMPTOM_CODE_FIELD), Single(LOCATION_FIELD), Single(WEIGHT_FIELD)]
    case RedMessage => [Repeated(RED_SYMPTOM_CODE_FIELD), Single(LOCATION_FIELD)]
    case BirMessage =>
      [Single(ID_FIELD), Single(NUMBER_FIELD), Single(DATE_FIELD), Single(GENDER_FIELD),
       Repeated(SYMPTOM_CODE_FIELD), Single(LOCATION_FIELD), Single(BREAST_FEED_FIELD), Single(WEIGHT_FIELD)]
    case ChildMessage =>
      [Single(ID_FIELD), Single(NUMBER_FIELD), Single(DATE_FIELD), Single(VACCINATION_FIELD),
       Single(VACCINATION_COMPLETION_FIELD), Repeated(SYMPTOM_CODE_FIELD),
       Single(LOCATION_FIELD), Single(WEIGHT_FIELD), Single(MUAC_FIELD)]
    case DeathMessage =>
      [Single(ID_FIELD), Single(NUMBER_FIELD), Single(DATE_FIELD), Single(LOCATION_FIELD), Single(DEATH_FIELD)]
    case ResultMessage =>
      [Single(ID_FIELD), Repeated(SYMPTOM_CODE_FIELD), Single(LOCATION_FIELD), Single(INTERVENTION_FIELD),
       Single(MOTHER_HEALTH_STATUS_FIELD)]
    case RedResultMessage =>
      [Single(ID_FIELD), Single(DATE_FIELD), Repeated(SYMPTOM_CODE_FIELD), Single(LOCATION_FIELD),
       Single(INTERVENTION_FIELD), Single(MOTHER_HEALTH_STATUS_FIELD)]
    case NBCMessage =>
      [Single(ID_FIELD), Single(NUMBER_FIELD), Single(NBC_FIELD), Single(DATE_FIELD), Repeated(SYMPTOM_CODE_FIELD),
       Single(BREAST_FEED_FIELD), Single(NBC_INTERVENTION_FIELD), Single(NEWBORN_HEALTH_STATUS_FIELD)]
    case PNCMessage =>
      [Single(ID_FIELD), Single(PNC_FIELD), Single(DATE_FIELD), Repeated(SYMPTOM_CODE_FIELD),
       Single(INTERVENTION_FIELD), Single(MOTHER_HEALTH_STATUS_FIELD)]
    case CCMMessage =>
      [Single(ID_FIELD), Single(NUMBER_FIELD), Single(DATE_FIELD), Repeated(SYMPTOM_CODE_FIELD),
       Single(INTERVENTION_FIELD), Single(MUAC_FIELD)]
    case CMRMessage =>
      [Single(ID_FIELD), Single(NUMBER_FIELD), Single(DATE_FIELD), Repeated(SYMPTOM_CODE_FIELD),
       Single(INTERVENTION_FIELD), Single(NEWBORN_HEALTH_STATUS_FIELD)]
    case CBNMessage =>
      [Single(ID_FIELD), Single(NUMBER_FIELD), Single(DATE_FIELD), Single(BREAST_FEED_FIELD),
       Single(HEIGHT_FIELD), Single(WEIGHT_FIELD), Single(MUAC_FIELD)]
    case ChildHealthMessage =>
      [Single(ID_FIELD), Single(NUMBER_FIELD), Single(DATE_FIELD), Single(VACCINATION_FIELD),
       Repeated(SYMPTOM_CODE_FIELD), Single(LOCATION_FIELD), Single(WEIGHT_FIELD), Single(MUAC_FIELD)]
  }

  /** `semantics_check(adate)`. Every concrete class returns `[]`; UnknownMessage inherits the base
      method, whose `@abstractmethod` has no effect without an ABCMeta metaclass. */
  function SemanticsCheck(t: MessageType, ref: Moment): seq<string>
  {
    if t == UnknownMessage then ["Extend semantics_check."] else []
  }

  const MSG_ASSOC: map<string, MessageType> := map[
    "PRE" := PregMessage,
    "REF" := RefMessage,
    "ANC" := ANCMessage,
    "DEP" := DepMessage,
    "RISK" := RiskMessage,
    "RED" := RedMessage,
    "BIR" := BirMessage,
    "CHI" := ChildMessage,
    "DTH" := DeathMessage,
    "RES" := ResultMessage,
    "RAR" := RedResultMessage,
    "NBC" := NBCMessage,
    "PNC" := PNCMessage,
    "CCM" := CCMMessage,
    "CMR" := CMRMessage,
    "CBN" := CBNMessage
  ]

  /** The class `parse` picks: `MSG_ASSOC[code.upper()]`, or UnknownMessage on a KeyError. */
  function Lookup(code: string): MessageType
  {
    var key := Upper(code);
    if key in MSG_ASSOC then MSG_ASSOC[key] else UnknownMessage
  }

  /** Dispatch ignores the case of the code. */
  lemma LookupIgnoresCase(c1: string, c2: string)
    requires Upper(c1) == Upper(c2)
    ensures Lookup(c1) == Lookup(c2)
  {
  }

  /** Re-casing a code, up or down, never changes the class it selects. */
  lemma LookupCaseFolds(code: string)
    ensures Lookup(Lower(code)) == Lookup(code) && Lookup(Upper(code)) == Lookup(code)
  {
    CaseFolding(code);
  }

  /** A code selects UnknownMessage exactly when its upper-cased form is none of the sixteen keys. */
  lemma LookupUnknownIff(code: string)
    ensures Lookup(code) == UnknownMessage <==> Upper(code) !in MSG_ASSOC
  {
    if Upper(code) in MSG_ASSOC {
      assert UnknownMessage !in MSG_ASSOC.Values;
    }
  }

  /** Only three-letter codes and the four-letter RISK reach a schema; ChildHealthMessage is in no entry. */
  lemma KnownCodeShape(code: string)
    ensures Lookup(code) != UnknownMessage ==> |code| == 3 || (|code| == 4 && Lookup(code) == RiskMessage)
    ensures Lookup(code) != ChildHealthMessage
  {
    var key := Upper(code);
    if key in MSG_ASSOC {
      assert |key| == |code|;
      assert key in {"PRE", "REF", "ANC", "DEP", "RISK", "RED", "BIR", "CHI", "DTH", "RES", "RAR", "NBC", "PNC", "CCM", "CMR", "CBN"};
    }
  }

  lemma SampleCodes()
    ensures Lookup("pre") == PregMessage && Lookup("Risk") == RiskMessage && Lookup("dTh") == DeathMessage
    ensures Lookup("XXX") == UnknownMessage && Lookup("") == UnknownMessage && Lookup("RIS") == UnknownMessage
  {
    assert Upper("pre") == "PRE";
    assert Upper("Risk") == "RISK";
    assert Upper("dTh") == "DTH";
    assert Upper("XXX") == "XXX";
    assert Upper("RIS") == "RIS";
  }

  /** The semantic tier complains only for UnknownMessage. */
  lemma SemanticsCheckIff(t: MessageType, ref: Moment)
    ensures SemanticsCheck(t, ref) == [] <==> t != UnknownMessage
  {
  }

  /** Within a schema no kind appears twice, so the entries map has one key per position. */
  lemma SchemaKindsDistinct(t: MessageType)
    ensures forall i, j :: 0 <= i < j < |Fields(t)| ==> Fields(t)[i].kind.name != Fields(t)[j].kind.name
  {
  }

  /** The repeatable positions are all code lists: `\w+` kinds with a list of expected codes. */
  lemma RepeatablesAreCodeLists(t: MessageType)
    ensures forall i :: 0 <= i < |Fields(t)| && Fields(t)[i].repeatable ==>
      Fields(t)[i].kind.template == Patterned(Word, "what_code") && Fields(t)[i].kind.expectations.Some?
  {
  }
}
