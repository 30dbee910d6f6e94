/**
 * The field-kind catalogue of messages/rmessages.py.
 *
 * In the source every kind is a class with class methods `is_legal(token,
 * refdate)`, `convert(token)` and, for code kinds, `expectations()`; most kinds
 * differ from their parent only in a regular expression, an error code or a
 * code list. Here a kind is a value: a configured instance of one of two
 * templates (a pattern with its error code, or a D.M.YYYY date with its gap
 * rule), an optional expectation list and a converter.
 */
module FieldKinds {
  import opened CharClass
  import opened Calendar
  import opened Patterns
  import opened Maybe

  /** The patterns the kinds test with `re.match` (and the one length check). */
  datatype Shape =
    | LengthSixteen           // len(token) == 16
    | ZeroThenFifteenDigits   // 0\d{15}
    | Digits                  // \d+
    | Word                    // \w+
    | WordDigit               // \w+\d
    | WordDigits              // \w+\d+
    | WordDigitsFraction      // \w+\d+(\.\d+)?
    | MuacFraction            // MUAC\d+(\.\d+)

  /** `check_gap(sdate, adate)`: the default accepts every date; LMP demands `sdate < adate`. */
  datatype GapRule = AnyGap | StrictlyBeforeReference

  datatype Template = Patterned(shape: Shape, code: string) | DayMonthYear(gap: GapRule)

  /** What `convert` does. `KeepToken` stands for the converter a kind inherits from the
      parser module's base class, which keeps the token as it is. */
  datatype Converter = KeepToken | ToInt | LettersOffToInt | LettersOffDecimal | ToDate

  datatype FieldKind = FieldKind(name: string, template: Template, expectations: Option<seq<string>>, converter: Converter)

  /** A converted token. `Decimal` holds the text `float()` would read; floats are not modelled. */
  datatype Value = Token(text: string) | Whole(n: int) | Decimal(digits: string) | Day(date: Date)

  /** `is_legal` returns `[]` or one bare error-code string. */
  datatype Legality = Legal | Illegal(code: string)

  /* ------------------------------------------------------------------ */
  /* is_legal                                                            */

  /** The regular expression of a shape, stated with split points (the reference). */
  ghost predicate ShapeSpec(shape: Shape, tok: string)
  {
    match shape
    case LengthSixteen => |tok| == 16
    case ZeroThenFifteenDigits => exists digits, rest :: tok == "0" + digits + rest && |digits| == 15 && AllDigits(digits)
    case Digits => DigitsAtStart(tok)
    case Word => WordAtStart(tok)
    case WordDigit => WordThenDigit(tok)
    case WordDigits => WordThenDigits(tok)
    case WordDigitsFraction => WordDigitsOptFraction(tok)
    case MuacFraction => MuacDecimal(tok)
  }

  /** The scanner that decides a shape. */
  predicate ShapeMatches(shape: Shape, tok: string)
  {
    match shape
    case LengthSixteen => |tok| == 16
    case ZeroThenFifteenDigits => PhonePattern(tok)
    case Digits => StartsWithDigit(tok)
    case Word => StartsWithWordChar(tok)
    case WordDigit => WordDigitScan(tok)
    case WordDigits => WordDigitScan(tok)
    case WordDigitsFraction => WordDigitScan(tok)
    case MuacFraction => MuacScan(tok)
  }

  lemma ShapeMatchesSpec(shape: Shape, tok: string)
    ensures ShapeMatches(shape, tok) <==> ShapeSpec(shape, tok)
  {
    match shape
    case LengthSixteen =>
    case ZeroThenFifteenDigits =>
      if PhonePattern(tok) {
        assert tok == "0" + tok[1..16] + tok[16..];
      }
      if ShapeSpec(shape, tok) {
        var digits, rest :| tok == "0" + digits + rest && |digits| == 15 && AllDigits(digits);
        assert tok[1..16] == digits;
      }
    case Digits => DigitsAtStartIff(tok);
    case Word => WordAtStartIff(tok);
    case WordDigit => WordDigitScanIff(tok);
    case WordDigits => WordDigitScanIff(tok); NumericPatternsAgree(tok);
    case WordDigitsFraction => WordDigitScanIff(tok); NumericPatternsAgree(tok);
    case MuacFraction => MuacScanIff(tok);
  }

  /** `datetime(year = int(g3), month = int(g2), day = int(g1))`, before the range check. */
  function DateOf(g: DateGroups): Date
    requires AllDigits(g.day) && AllDigits(g.month) && AllDigits(g.year)
  {
    Date(DigitsValue(g.year), DigitsValue(g.month), DigitsValue(g.day))
  }

  predicate GapHolds(gap: GapRule, d: Date, ref: Moment)
  {
    match gap
    case AnyGap => true
    case StrictlyBeforeReference => Before(Midnight(d), ref)
  }

  /** `kind.is_legal(tok, ref)`. */
  function IsLegal(kind: FieldKind, tok: string, ref: Moment): Legality
  {
    match kind.template
    case Patterned(shape, code) => if ShapeMatches(shape, tok) then Legal else Illegal(code)
    case DayMonthYear(gap) =>
      match MatchDate(tok)
      case None => Illegal("bad_date")
      case Some(g) =>
        if !IsRealDate(DateOf(g)) then Illegal("impossible_date")
        else if GapHolds(gap, DateOf(g), ref) then Legal
        else Illegal("incoherent_date_periods")
  }

  /* ------------------------------------------------------------------ */
  /* convert and expectations                                            */

  /** `kind.convert(tok)`; `None` where Python raises (`int('')`, `int('1a')`, a failed match). */
  function Convert(kind: FieldKind, tok: string): Option<Value>
  {
    match kind.converter
    case KeepToken => Some(Token(tok))
    case ToInt => (match IntOf(tok) case None => None case Some(n) => Some(Whole(n)))
    case LettersOffToInt => (match IntOf(DeleteLetters(tok)) case None => None case Some(n) => Some(Whole(n)))
    case LettersOffDecimal => Some(Decimal(DeleteLetters(tok)))
    case ToDate =>
      match MatchDate(tok)
      case None => None
      case Some(g) => if IsRealDate(DateOf(g)) then Some(Day(DateOf(g))) else None
  }

  /** The codes a kind lists, as a set: the lists are read for membership only. */
  function ExpectationSet(kind: FieldKind): set<string>
  {
    match kind.expectations
    case None => {}
    case Some(codes) => set c | c in codes
  }

  /* ------------------------------------------------------------------ */
  /* The catalogue                                                       */

  const ID_FIELD := FieldKind("IDField", Patterned(LengthSixteen, "bad_indangamuntu"), None, KeepToken)
  const DATE_FIELD := FieldKind("DateField", DayMonthYear(AnyGap), None, ToDate)
  const LMP_DATE_FIELD := FieldKind("LMPDateField", DayMonthYear(StrictlyBeforeReference), None, ToDate)
  const NUMBER_FIELD := FieldKind("NumberField", Patterned(Digits, "bad_number"), None, ToInt)
  const CODE_FIELD := FieldKind("CodeField", Patterned(Word, "what_code"), None, KeepToken)
  const GRAVIDITY_FIELD := FieldKind("GravidityField", Patterned(Digits, "bad_number"), None, ToInt)
  const PARITY_FIELD := FieldKind("ParityField", Patterned(Digits, "bad_number"), None, ToInt)

  const PREG_CODE_FIELD := FieldKind("PregCodeField", Patterned(Word, "what_code"),
    Some(["GS", "MU", "HD", "RM", "OL", "YG", "NR", "TO", "HW", "NT", "NT", "NH", "KX", "YJ", "LZ"]), KeepToken)
  const PREV_PREG_FIELD := FieldKind("PrevPregField", Patterned(Word, "what_code"),
    Some(["GS", "MU", "HD", "RM"]), KeepToken)
  const SYMPTOM_CODE_FIELD := FieldKind("SymptomCodeField", Patterned(Word, "what_code"),
    Some(["AF", "CH", "CI", "CM", "IB", "DB", "DI", "DS", "FE", "FP", "HY", "JA", "MA", "NP", "NS",
          "OE", "PC", "RB", "SA", "SB", "VO"]), KeepToken)
  const RED_SYMPTOM_CODE_FIELD := FieldKind("RedSymptomCodeField", Patterned(Word, "what_code"),
    Some(["AP", "CO", "HE", "LA", "MC", "PA", "PS", "SC", "SL", "UN"]), KeepToken)
  const LOCATION_FIELD := FieldKind("LocationField", Patterned(Word, "what_code"),
    Some(["CL", "HO", "HP", "OR"]), KeepToken)

  const FLOATED_FIELD := FieldKind("FloatedField", Patterned(WordDigitsFraction, "bad_floated_field"), None, LettersOffDecimal)
  const NUMBERED_FIELD := FieldKind("NumberedField", Patterned(WordDigits, "bad_numbered_field"), None, LettersOffToInt)
  const HEIGHT_FIELD := FieldKind("HeightField", Patterned(WordDigits, "bad_numbered_field"), None, LettersOffToInt)
  const WEIGHT_FIELD := FieldKind("WeightField", Patterned(WordDigitsFraction, "bad_floated_field"), None, LettersOffDecimal)

  const TOILET_FIELD := FieldKind("ToiletField", Patterned(Word, "what_code"), Some(["TO", "NT"]), KeepToken)
  const HANDWASH_FIELD := FieldKind("HandwashField", Patterned(Word, "what_code"), Some(["HW", "NH"]), KeepToken)
  const PHONE_BASED_ID_FIELD := FieldKind("PhoneBasedIDField", Patterned(ZeroThenFifteenDigits, "bad_phone_id"), None, KeepToken)

  const ANC_FIELD := FieldKind("ANCField", Patterned(WordDigit, "anc_code"), None, LettersOffToInt)
  const PNC_FIELD := FieldKind("PNCField", Patterned(WordDigit, "pnc_code"), None, LettersOffToInt)
  const NBC_FIELD := FieldKind("NBCField", Patterned(WordDigit, "nbc_code"),
    Some(["EBF", "NB", "PH", "NBC1", "NBC2", "NBC3", "NBC4", "NBC5"]), LettersOffToInt)
  const GENDER_FIELD := FieldKind("GenderField", Patterned(Word, "what_code"), Some(["BO", "GI"]), KeepToken)
  const BREAST_FEED_FIELD := FieldKind("BreastFeedField", Patterned(WordDigit, "nbc_code"),
    Some(["CBF", "EBF", "NB"]), LettersOffToInt)

  const INTERVENTION_FIELD := FieldKind("InterventionField", Patterned(Word, "what_code"),
    Some(["PR", "AA", "AL", "AT", "NA", "PT", "TR"]), KeepToken)
  const NBC_INTERVENTION_FIELD := FieldKind("NBCInterventionField", Patterned(Word, "what_code"),
    Some(["PR", "AA", "AL", "AT", "NA", "PT", "TR"]), KeepToken)
  const HEALTH_STATUS_FIELD := FieldKind("HealthStatusField", Patterned(Word, "what_code"),
    Some(["MW", "MS", "CW", "CS"]), KeepToken)
  const NEWBORN_HEALTH_STATUS_FIELD := FieldKind("NewbornHealthStatusField", Patterned(Word, "what_code"),
    Some(["CW", "CS"]), KeepToken)
  const MOTHER_HEALTH_STATUS_FIELD := FieldKind("MotherHealthStatusField", Patterned(Word, "what_code"),
    Some(["MW", "MS"]), KeepToken)

  const VACCINATION_FIELD := FieldKind("VaccinationField", Patterned(WordDigits, "bad_numbered_field"),
    Some(["V1", "V2", "V3", "V4", "V5", "V6"]), LettersOffToInt)
  const VACCINATION_COMPLETION_FIELD := FieldKind("VaccinationCompletionField", Patterned(Word, "what_code"),
    Some(["VC", "VI", "NV"]), KeepToken)
  const MUAC_FIELD := FieldKind("MUACField", Patterned(MuacFraction, "bad_muac_code"), None, LettersOffDecimal)
  const DEATH_FIELD := FieldKind("DeathField", Patterned(Word, "what_code"), Some(["ND", "CD", "MD"]), KeepToken)

  /* ------------------------------------------------------------------ */
  /* Properties of the catalogue                                         */

  lemma IdLegalIff(tok: string, ref: Moment)
    ensures IsLegal(ID_FIELD, tok, ref) == if |tok| == 16 then Legal else Illegal("bad_indangamuntu")
  {
  }

  /** A phone-based id is a '0' and fifteen digits, and anything may follow them. */
  lemma PhoneIdLegalIff(tok: string, ref: Moment)
    ensures IsLegal(PHONE_BASED_ID_FIELD, tok, ref) == Legal <==>
      exists digits, rest :: tok == "0" + digits + rest && |digits| == 15 && AllDigits(digits)
    ensures IsLegal(PHONE_BASED_ID_FIELD, tok, ref) in {Legal, Illegal("bad_phone_id")}
  {
    ShapeMatchesSpec(ZeroThenFifteenDigits, tok);
  }

  lemma NumberLegalIff(tok: string, ref: Moment)
    ensures IsLegal(NUMBER_FIELD, tok, ref) == Legal <==> DigitsAtStart(tok)
    ensures IsLegal(NUMBER_FIELD, tok, ref) == Legal <==> |tok| > 0 && IsDigit(tok[0])
    ensures IsLegal(NUMBER_FIELD, tok, ref) in {Legal, Illegal("bad_number")}
  {
    DigitsAtStartIff(tok);
  }

  /** `is_legal` accepts `1a` (only the start is anchored) but `int('1a')` raises. */
  lemma NumberLegalYetUnconvertible(ref: Moment)
    ensures IsLegal(NUMBER_FIELD, "1a", ref) == Legal
    ensures Convert(NUMBER_FIELD, "1a") == None
  {
    var s := "1a";
    assert !IsDigit(s[1]) && !IsSpace(s[1]) && s[1] != '+' && s[1] != '-';
    IntOfRefuses(s);
  }

  /** The kinds that carry a number behind a code all accept the same tokens: a run of word
      characters with a digit after its first character. */
  lemma NumericKindsAgree(kind: FieldKind, tok: string, ref: Moment)
    requires kind in {FLOATED_FIELD, NUMBERED_FIELD, HEIGHT_FIELD, WEIGHT_FIELD, VACCINATION_FIELD,
                      ANC_FIELD, PNC_FIELD, NBC_FIELD, BREAST_FEED_FIELD}
    ensures IsLegal(kind, tok, ref) == Legal <==> WordThenDigit(tok)
    ensures IsLegal(kind, tok, ref) == Legal <==> exists i :: 1 <= i < |tok| && AllWord(tok[..i]) && IsDigit(tok[i])
    ensures IsLegal(kind, tok, ref) != Legal ==> IsLegal(kind, tok, ref) == Illegal(kind.template.code)
  {
    WordDigitScanIff(tok);
  }

  lemma MuacLegalIff(tok: string, ref: Moment)
    ensures IsLegal(MUAC_FIELD, tok, ref) == Legal <==> MuacDecimal(tok)
  {
    MuacScanIff(tok);
  }

  /** The fraction is compulsory for MUAC: `MUAC12` is refused, `MUAC12.5` accepted. */
  lemma MuacNeedsFraction(ref: Moment)
    ensures IsLegal(MUAC_FIELD, "MUAC12", ref) == Illegal("bad_muac_code")
    ensures IsLegal(MUAC_FIELD, "MUAC12.5", ref) == Legal
    ensures Convert(MUAC_FIELD, "MUAC12.5") == Some(Decimal("12.5"))
  {
    var s := "MUAC12";
    assert DigitRun(s, 6) == 6;
    assert DigitRun(s, 4) == 6;
    var t := "MUAC12.5";
    assert DigitRun(t, 6) == 6;
    assert DigitRun(t, 4) == 6;
    LettersThenRest("MUAC", "12.5");
    assert t == "MUAC" + "12.5";
  }

  /** A code followed by a number: the converters drop the code and read the number. */
  lemma CodedNumberConverts(code: string, digits: string, fraction: string)
    requires AllLetters(code) && digits != [] && AllDigits(digits) && AllDigits(fraction)
    ensures Convert(NUMBERED_FIELD, code + digits) == Some(Whole(DigitsValue(digits)))
    ensures Convert(FLOATED_FIELD, code + digits + "." + fraction) == Some(Decimal(digits + "." + fraction))
  {
    LettersThenRest(code, digits);
    IntOfDigits(digits);
    assert code + digits + "." + fraction == code + (digits + "." + fraction);
    LettersThenRest(code, digits + "." + fraction);
  }

  /** The date kinds test in a fixed order: shape, then calendar, then gap. With the default
      gap rule a real calendar date is legal whatever the reference date. */
  lemma DateLegality(kind: FieldKind, tok: string, ref: Moment)
    requires kind.template.DayMonthYear?
    ensures !DatePattern(tok) ==> IsLegal(kind, tok, ref) == Illegal("bad_date")
    ensures forall a, b :: DateSplit(tok, a, b) ==>
      (!IsRealDate(DateOf(GroupsAt(tok, a, b))) ==> IsLegal(kind, tok, ref) == Illegal("impossible_date"))
      && (IsRealDate(DateOf(GroupsAt(tok, a, b))) && kind.template.gap == AnyGap ==> IsLegal(kind, tok, ref) == Legal)
  {
    MatchDateIff(tok);
  }

  /** An LMP date is legal exactly when its midnight comes strictly before the reference moment. */
  lemma LmpLegalIff(tok: string, a: nat, b: nat, ref: Moment)
    requires DateSplit(tok, a, b) && IsRealDate(DateOf(GroupsAt(tok, a, b)))
    ensures var d := DateOf(GroupsAt(tok, a, b));
      IsLegal(LMP_DATE_FIELD, tok, ref) ==
        if DateBefore(d, ref.date) || (d == ref.date && ref.micros > 0) then Legal else Illegal("incoherent_date_periods")
  {
    MatchDateIff(tok);
    MidnightBefore(DateOf(GroupsAt(tok, a, b)), ref);
  }

  /** `31.02.2020` is not a calendar date. */
  lemma ThirtyFirstOfFebruary(kind: FieldKind, ref: Moment)
    requires kind.template.DayMonthYear?
    ensures IsLegal(kind, "31.02.2020", ref) == Illegal("impossible_date")
  {
    assert DateSplit("31.02.2020", 2, 2);
    DateSplitUnique("31.02.2020", 2, 2);
  }

  /** A legal date token always converts, to the date it was checked as. */
  lemma LegalDateConverts(kind: FieldKind, tok: string, ref: Moment)
    requires kind.template.DayMonthYear? && kind.converter == ToDate
    requires IsLegal(kind, tok, ref) == Legal
    ensures Convert(kind, tok).Some? && Convert(kind, tok).value.Day?
    ensures IsRealDate(Convert(kind, tok).value.date)
    ensures GapHolds(kind.template.gap, Convert(kind, tok).value.date, ref)
  {
  }

  /** `re.match` is anchored at the start only: text appended to a legal token keeps it legal,
      for every kind except the length-checked id. */
  lemma LegalityIgnoresTrailingText(kind: FieldKind, tok: string, extra: string, ref: Moment)
    requires !(kind.template.Patterned? && kind.template.shape == LengthSixteen)
    requires IsLegal(kind, tok, ref) == Legal
    ensures IsLegal(kind, tok + extra, ref) == Legal
  {
    PrefixMatchesSurviveAppend(tok, extra);
  }

  /** The id kind, by contrast, is exact. */
  lemma IdIsExact(ref: Moment)
    ensures IsLegal(ID_FIELD, "AAAAAAAAAAAAAAAA", ref) == Legal
    ensures IsLegal(ID_FIELD, "AAAAAAAAAAAAAAAA" + "A", ref) == Illegal("bad_indangamuntu")
  {
  }

  /** Code lists that refine another kind's list stay inside it. */
  lemma PrevPregCodesNest()
    ensures ExpectationSet(PREV_PREG_FIELD) <= ExpectationSet(PREG_CODE_FIELD)
  {
  }

  /** The newborn and mother status codes split the general health status codes between them. */
  lemma HealthStatusCodesSplit()
    ensures ExpectationSet(NEWBORN_HEALTH_STATUS_FIELD) !! ExpectationSet(MOTHER_HEALTH_STATUS_FIELD)
    ensures ExpectationSet(NEWBORN_HEALTH_STATUS_FIELD) + ExpectationSet(MOTHER_HEALTH_STATUS_FIELD)
      == ExpectationSet(HEALTH_STATUS_FIELD)
  {
    assert ExpectationSet(HEALTH_STATUS_FIELD) == {"MW", "MS", "CW", "CS"};
    assert ExpectationSet(NEWBORN_HEALTH_STATUS_FIELD) == {"CW", "CS"};
    assert ExpectationSet(MOTHER_HEALTH_STATUS_FIELD) == {"MW", "MS"};
  }

  /** `NT` is listed twice among the pregnancy codes, so the list is read as a set. */
  lemma PregCodesRepeatNT()
    ensures PREG_CODE_FIELD.expectations.Some?
    ensures var codes := PREG_CODE_FIELD.expectations.value;
      |codes| == 15 && codes[9] == codes[10] == "NT" && |ExpectationSet(PREG_CODE_FIELD)| < |codes|
  {
    var codes := PREG_CODE_FIELD.expectations.value;
    var rest := codes[..10] + codes[11..];
    assert ExpectationSet(PREG_CODE_FIELD) == set c | c in rest by {
      forall c | c in codes ensures c in rest {
        if c == codes[10] { assert rest[9] == c; }
        else {
          var k :| 0 <= k < |codes| && codes[k] == c;
          if k < 10 { assert rest[k] == c; } else { assert rest[k - 1] == c; }
        }
      }
    }
    SetOfSeqAtMost(rest);
  }

  lemma {:induction false} SetOfSeqAtMost(s: seq<string>)
    ensures |set c | c in s| <= |s|
  {
    if s != [] {
      SetOfSeqAtMost(s[1..]);
      assert (set c | c in s) == (set c | c in s[1..]) + {s[0]};
    }
  }

  /** None of the breast-feeding codes contains a digit, so the `\w+\d` test the kind inherits
      from NBCField rejects every one of them. */
  lemma BreastFeedCodesNeverLegal(ref: Moment)
    ensures forall c :: c in ExpectationSet(BREAST_FEED_FIELD) ==> IsLegal(BREAST_FEED_FIELD, c, ref) == Illegal("nbc_code")
  {
    forall c | c in ExpectationSet(BREAST_FEED_FIELD)
      ensures IsLegal(BREAST_FEED_FIELD, c, ref) == Illegal("nbc_code")
    {
      assert c in {"CBF", "EBF", "NB"};
      assert forall k :: 0 <= k < |c| ==> !IsDigit(c[k]);
      NoDigitNoScan(c, 1);
    }
  }

  lemma {:induction false} NoDigitNoScan(s: string, i: nat)
    requires i <= |s|
    requires forall k :: 0 <= k < |s| ==> !IsDigit(s[k])
    ensures !DigitInWordRun(s, i)
    decreases |s| - i
  {
    if i < |s| {
      NoDigitNoScan(s, i + 1);
    }
  }

  /** Every vaccination code passes the kind's own test and converts to its checkpoint number. */
  lemma VaccinationCodesLegal(ref: Moment)
    ensures forall c :: c in ExpectationSet(VACCINATION_FIELD) ==>
      IsLegal(VACCINATION_FIELD, c, ref) == Legal && Convert(VACCINATION_FIELD, c).Some?
      && 1 <= Convert(VACCINATION_FIELD, c).value.n <= 6
  {
    forall c | c in ExpectationSet(VACCINATION_FIELD)
      ensures IsLegal(VACCINATION_FIELD, c, ref) == Legal && Convert(VACCINATION_FIELD, c).Some?
      ensures 1 <= Convert(VACCINATION_FIELD, c).value.n <= 6
    {
      assert c in {"V1", "V2", "V3", "V4", "V5", "V6"};
      assert |c| == 2 && c[0] == 'V' && '1' <= c[1] <= '6';
      assert DigitInWordRun(c, 1);
      LettersThenRest([c[0]], [c[1]]);
      assert c == [c[0]] + [c[1]];
      assert DeleteLetters(c) == [c[1]];
      IntOfDigits([c[1]]);
    }
  }
}
