# RapidSMS 1000 Days message parsing, modelled in Dafny

This project models `messages/rmessages.py`, the module that turns an SMS report
into a typed message. A report such as `PRE 1234567890123456 01.02.2015 …` is handled
in five steps:

1. It is stripped.
2. Its first whitespace-delimited token, the *code*, is split off (`pull_code`).
3. The code is looked up in `MSG_ASSOC` without regard to case. An unknown code gives
   `UnknownMessage`.
4. The message class's ordered `fields` schema is driven over the remainder (`process`):
   - each position's *field kind* checks a token with `is_legal` and converts it with
     `convert`;
   - every error is collected and the loop never stops early;
   - non-blank text left at the end becomes a `bad_text` error.
5. The constructor applies two tiers of checks. Field errors fail the message first.
   Only if there are none does the class's `semantics_check` run. Only then is the
   `entries` table built.

The modules:

- `Maybe`: an option type.
- `CharClass`, in `text.dfy`: the Python 2 character classes and string operations the
  source relies on:
  - `\d`, `\w`, `\s`;
  - ASCII `upper`, `lower` and `strip`;
  - `int()`, which also accepts whitespace between the sign and the digits;
  - the letter deletion done by `re.sub`;
  - `first_cap`.
- `Calendar`, in `dates.dfy`: the part of `datetime` used. That is the Gregorian range
  check of the constructor and the order of two datetimes.
- `Patterns`: the regular expressions of the field kinds. Each has two parts:
  - a reference predicate, which states the pattern with existential split points;
  - a scanner that decides it.
  A lemma proves that the two agree. `re.match` is anchored only at the start, and the
  model keeps that.
- `FieldKinds`: the catalogue of field kinds as values, not as a class hierarchy. Each
  kind holds:
  - a template: a pattern with its error code, or a day.month.year date with its gap rule;
  - an optional list of expected codes;
  - a converter.
  `IsLegal` and `Convert` are the kinds' `is_legal` and `convert`.
- `Schemas`: the `fields` list and `semantics_check` of every message class, and
  `MSG_ASSOC`.
- `Engine`: `process` and the constructor.
  - `Process` is the loop, proved equal to the specification `ProcessSpec`.
  - `Walk` lists the steps the loop takes.
  - `Init` is the two-tier constructor.
  - A raised `ThouMsgError` is the `Failed` outcome. It carries the partial message
    and the errors.
- `Dispatch`: `pull_code`, `parse` (method `Parse`, proved equal to the specification
  `Parsed`) and `caseless_hash`.

The field puller `pull` belongs to the parser module, which is not part of this model.
It appears as a function parameter. It returns either the field object, its error codes
and the remaining text, or an exception message. Two properties of `pull` are stated as
predicates: it only consumes text (`KeepsSuffix`), and it returns a field of the position's
kind (`KeepsKind`). Only the lemmas that rely on them require them. The reference date,
which `parse` takes from `datetime.today()` when none is given, is a parameter.

The docstring of `UnknownMessage` (messages/rmessages.py:458-459) says it is the class a
message falls back to "since every message has to be successfully parsed". The code does
otherwise, and the model follows the code: an `UnknownMessage` never parses successfully.
It has no fields and inherits the base `semantics_check`, which returns
`['Extend semantics_check.']`; `@abstractmethod` has no effect without an ABC metaclass.
So an unknown code fails with `bad_text` when anything follows it, and with that note
otherwise.

Two further details follow the code as written: the message's `text` is the remainder
after the code, not the whole report (messages/rmessages.py:417, :438 and :443), and the
`bad_text` detail is `Superfluous text: "<trimmed leftover>"` (messages/rmessages.py:436-437).

## Model

| member | source | states |
|---|---|---|
| CharClass.CaseFolding | messages/rmessages.py:386 | `upper()` and `lower()` forget the case they replace: either one after either one equals it alone |
| CharClass.FirstCapOnlyTouchesHead | messages/rmessages.py:10-13 | `first_cap` keeps the length, upper-cases only the first character and leaves the rest unchanged; it is idempotent, and upper-casing its result equals upper-casing its input |
| CharClass.DeleteLetters | messages/rmessages.py:150-152 | `re.sub('[A-Z]', '', s, 0, re.I)` never lengthens the text and leaves no letter in it |
| CharClass.DeleteLettersAppend | messages/rmessages.py:150-152 | the letter deletion distributes over concatenation |
| CharClass.DeleteLettersKeepsTheRest | messages/rmessages.py:164-166 | text without letters is left unchanged |
| CharClass.DeleteLettersDropsAll | messages/rmessages.py:164-166 | text made only of letters is deleted entirely |
| CharClass.LettersThenRest | messages/rmessages.py:164-166 | a letter code followed by letter-free text leaves exactly that text |
| CharClass.Strip | messages/rmessages.py:411 | `str.strip()` never lengthens the text, and its result neither starts nor ends with whitespace |
| CharClass.StripBlank | messages/rmessages.py:436 | `etc.strip()` is empty exactly when the leftover is all whitespace |
| CharClass.StripIsSlice | messages/rmessages.py:437 | the stripped text is a slice of the input with only whitespace cut away at each end |
| CharClass.StripFixpoint | messages/rmessages.py:411 | text with no whitespace at either end strips to itself, and stripping twice is stripping once |
| CharClass.StripAround | messages/rmessages.py:411 | whitespace around a core that has none at its ends strips away to exactly the core |
| CharClass.IntOfDigits | messages/rmessages.py:70-71 | `int()` reads a non-empty digit run as its decimal value |
| CharClass.IntOfSigned | messages/rmessages.py:70-71 | `int()` negates the value after a `-` sign and keeps it after a `+` sign, whether or not whitespace separates sign and digits |
| CharClass.IntOfSpacedSign | messages/rmessages.py:70-71 | `int('- 5')` is -5 |
| CharClass.IntOfRefuses | messages/rmessages.py:70-71 | `int()` raises on text holding a character that is not a digit, a sign or whitespace |
| Calendar.DaysInMonth | messages/rmessages.py:39-41 | a month has 28 to 31 days, and February has 29 exactly in leap years |
| Calendar.MidnightBefore | messages/rmessages.py:56-58 | midnight of a date precedes a datetime exactly when the datetime falls on a later day, or on the same day after midnight |
| Calendar.FebruaryTwentyNinth | messages/rmessages.py:39-41 | 29 February exists exactly in leap years; 30 and 31 February never exist |
| Patterns.DigitsAtStartIff | messages/rmessages.py:67 | `re.match(r'\d+')` succeeds exactly when the first character is a digit |
| Patterns.WordAtStartIff | messages/rmessages.py:80 | `re.match(r'\w+')` succeeds exactly when the first character is a word character |
| Patterns.WordDigitScanIff | messages/rmessages.py:210-212 | the scanner accepts exactly the tokens matching `\w+\d` |
| Patterns.NumericPatternsAgree | messages/rmessages.py:145-166 | `\w+\d`, `\w+\d+` and `\w+\d+(\.\d+)?` accept the same tokens under a start-anchored match |
| Patterns.MuacScanIff | messages/rmessages.py:313-315 | the scanner accepts exactly the tokens matching `MUAC\d+(\.\d+)`, fraction compulsory |
| Patterns.MatchDate | messages/rmessages.py:34 | the day and month groups hold one or two digits and the year group holds four |
| Patterns.MatchDateIff | messages/rmessages.py:34 | the date match succeeds exactly when the pattern `(\d{1,2})\.(\d{1,2})\.(\d{4})` has a split of the token, and every split yields the groups returned |
| Patterns.DateSplitUnique | messages/rmessages.py:34-37 | a date token has one split only, found by the greedy digit runs |
| Patterns.PrefixMatchesSurviveAppend | messages/rmessages.py:34 | start-anchored matches survive text appended to the token, with unchanged date groups |
| FieldKinds.ShapeMatchesSpec | messages/rmessages.py:145-161 | each kind's scanner accepts exactly the tokens its regular expression or length test accepts |
| FieldKinds.IdLegalIff | messages/rmessages.py:20-22 | an id is legal exactly when it has 16 characters, and otherwise fails with `bad_indangamuntu` |
| FieldKinds.IdIsExact | messages/rmessages.py:20-22 | 16 characters pass the id check and 17 characters fail it |
| FieldKinds.PhoneIdLegalIff | messages/rmessages.py:201-203 | a phone-based id is legal exactly when it starts with `0` and fifteen digits; the only error is `bad_phone_id` |
| FieldKinds.NumberLegalIff | messages/rmessages.py:65-67 | a number token is legal exactly when it starts with a digit; the only error is `bad_number` |
| FieldKinds.NumberLegalYetUnconvertible | messages/rmessages.py:65-71 | `1a` passes `is_legal`, yet `int('1a')` raises |
| FieldKinds.NumericKindsAgree | messages/rmessages.py:145-230 | every coded-number kind accepts exactly a word run with a digit after its first character, and otherwise fails with that kind's own error code |
| FieldKinds.MuacLegalIff | messages/rmessages.py:313-315 | a MUAC token is legal exactly when it matches `MUAC\d+(\.\d+)` |
| FieldKinds.MuacNeedsFraction | messages/rmessages.py:313-315 | `MUAC12` fails with `bad_muac_code`; `MUAC12.5` is legal and converts to the decimal `12.5` |
| FieldKinds.CodedNumberConverts | messages/rmessages.py:150-166 | a letter code followed by digits converts to the digits' value, or to the decimal text when a fraction follows |
| FieldKinds.DateLegality | messages/rmessages.py:33-42 | the date kinds check in order: no pattern gives `bad_date`, a non-calendar date gives `impossible_date`, and with the default gap rule any real date is legal |
| FieldKinds.LmpLegalIff | messages/rmessages.py:56-58 | a real LMP date is legal exactly when its midnight lies strictly before the reference datetime, and otherwise fails with `incoherent_date_periods` |
| FieldKinds.ThirtyFirstOfFebruary | messages/rmessages.py:38-40 | `31.02.2020` fails with `impossible_date` |
| FieldKinds.LegalDateConverts | messages/rmessages.py:44-48 | a legal date token converts to a real calendar date that satisfies the kind's gap rule |
| FieldKinds.LegalityIgnoresTrailingText | messages/rmessages.py:34 | text appended to a legal token keeps it legal, for every kind except the length-checked id |
| FieldKinds.PrevPregCodesNest | messages/rmessages.py:99-110 | the previous-pregnancy codes lie within the pregnancy codes |
| FieldKinds.HealthStatusCodesSplit | messages/rmessages.py:268-288 | the newborn and mother status codes do not overlap, and together they make up the health status codes |
| FieldKinds.PregCodesRepeatNT | messages/rmessages.py:99-101 | the pregnancy list has 15 entries with `NT` at positions 9 and 10, so it holds fewer distinct codes than entries |
| FieldKinds.BreastFeedCodesNeverLegal | messages/rmessages.py:246-253 | none of `CBF`, `EBF`, `NB` passes the inherited `\w+\d` check; each fails with `nbc_code` |
| FieldKinds.VaccinationCodesLegal | messages/rmessages.py:290-299 | every listed vaccination code is legal and converts to a checkpoint number from 1 to 6 |
| Schemas.LookupIgnoresCase | messages/rmessages.py:410-417 | codes that agree after upper-casing select the same class |
| Schemas.LookupCaseFolds | messages/rmessages.py:413-415 | upper- or lower-casing a code does not change the class it selects |
| Schemas.LookupUnknownIff | messages/rmessages.py:412-416 | a code selects `UnknownMessage` exactly when its upper-cased form is not a key of `MSG_ASSOC` |
| Schemas.KnownCodeShape | messages/rmessages.py:624-642 | a known code has three characters, or four when it selects `RiskMessage`; no code selects `ChildHealthMessage` |
| Schemas.SampleCodes | messages/rmessages.py:624-642 | `pre`, `Risk` and `dTh` select their classes; `XXX`, the empty code and `RIS` select `UnknownMessage` |
| Schemas.SemanticsCheckIff | messages/rmessages.py:453-471 | the semantic check complains only for `UnknownMessage` |
| Schemas.SchemaKindsDistinct | messages/rmessages.py:462-618 | no schema lists the same kind twice |
| Schemas.RepeatablesAreCodeLists | messages/rmessages.py:462-618 | every repeatable position is a `\w+` code kind with a list of expected codes |
| Engine.Walk | messages/rmessages.py:421-435 | there is one step per schema position, in order, and each step is the `pull` of that position on the text it was given |
| Engine.WalkThreads | messages/rmessages.py:424-431 | the first position gets the whole text and each later one gets what the previous step left; a raising step leaves the text unchanged |
| Engine.TagAppend | messages/rmessages.py:429-432 | pairing errors with their schema entry distributes over concatenating the error lists |
| Engine.Process | messages/rmessages.py:421-438 | the loop gives exactly the specification `ProcessSpec`, which is the walk, the superfluous-text check and the constructor |
| Engine.FieldProblemsTagged | messages/rmessages.py:429-435 | every collected error comes from one position of the walk: it carries that position's schema entry and either one of the error codes its `pull` returned or the message of the exception it raised |
| Engine.NoProblemsIff | messages/rmessages.py:426-435 | there are no field errors exactly when no step raised or reported an error |
| Engine.OneErrorPerFaultyField | messages/rmessages.py:426-435 | with a `pull` that reports at most one error per position, the error count equals the number of faulty positions |
| Engine.ValuesCount | messages/rmessages.py:433-435 | a raising position adds no field object and every other position adds exactly one |
| Engine.ValuesAligned | messages/rmessages.py:433 | when nothing raised, the field objects line up with the positions |
| Engine.LeftoverIsSuffix | messages/rmessages.py:424-431 | when `pull` only consumes, the text left after the walk is a suffix of the remainder |
| Engine.EntriesSpec | messages/rmessages.py:448-451 | `entries` has one key per kind name, mapped to the last field object of that name |
| Engine.SuperfluousTextLast | messages/rmessages.py:436-437 | all field errors come first; exactly one `bad_text` error quoting the trimmed leftover follows, and only when non-blank text is left |
| Engine.ProcessTiers | messages/rmessages.py:440-447 | any field-level error fails with those errors and skips the semantic check; otherwise semantic notes fail the message; otherwise the message is valid with its entries |
| Engine.RunValidIff | messages/rmessages.py:436-447 | a walk over any schema succeeds exactly when every step pulled cleanly, only whitespace is left, and the semantic check is silent |
| Engine.ProcessValidIff | messages/rmessages.py:421-447 | a message is valid exactly when every position pulled cleanly, only whitespace is left, and its class is not `UnknownMessage` |
| Engine.RunValidEntries | messages/rmessages.py:448-451 | on success over distinct kinds, the entry keys are the schema's kind names, each mapped to the object pulled at its position |
| Engine.ValidEntries | messages/rmessages.py:448-451 | on success the entry keys are exactly the schema's kind names, each mapped to the object pulled at that position |
| Engine.RunKeepsHeader | messages/rmessages.py:440-444 | valid or failed, the message records its class, its code, its text and the collected field objects |
| Engine.ProcessKeepsHeader | messages/rmessages.py:440-444 | valid or failed, the processed message records its class, its code, its text and its field objects |
| Engine.UnknownAlwaysFails | messages/rmessages.py:436-460 | `UnknownMessage` fails: with the `bad_text` error when non-blank text follows, and otherwise with `Extend semantics_check.` |
| Dispatch.PullCodeSplit | messages/rmessages.py:379-380 | the code has no whitespace and the remainder does not start with any; a message without whitespace is all code; otherwise code, a non-empty whitespace run and the remainder make up the message |
| Dispatch.PullCodeJoin | messages/rmessages.py:379-380 | code, whitespace run and remainder joined together split back into code and remainder |
| Dispatch.PullCodeWhole | messages/rmessages.py:379-380 | text without whitespace splits into itself and `''` |
| Dispatch.PullCodeTrimmed | messages/rmessages.py:411 | splitting a stripped text leaves a remainder that is itself stripped |
| Dispatch.CaselessHash | messages/rmessages.py:383-387 | the keys are the lower-cased original keys; each value belongs to some original key with that lower-cased form, and to the only one when the lowering is unique |
| Dispatch.Parse | messages/rmessages.py:410-417 | the method runs the `Process` loop on the split message and gives exactly the specification `Parsed`; `Parsed` states the same steps as a function, and the dispatch lemmas below are proved about it |
| Dispatch.ParsedVia | messages/rmessages.py:411-417 | a parse processes the remainder with the class its code selects |
| Dispatch.ParseDispatch | messages/rmessages.py:410-417 | the message records the split-off code, the class it selects and the remainder, which has no whitespace at either end |
| Dispatch.ParseIgnoresOuterSpace | messages/rmessages.py:411 | whitespace around a report does not change the parse |
| Dispatch.ParseUnknownFails | messages/rmessages.py:410-460 | a code that selects no class always fails, quoting the remainder when there is one and giving the base semantic note otherwise |
| Dispatch.SplitSample | messages/rmessages.py:379-380 | `XXX foo bar` splits into `XXX` and `foo bar` |
| Dispatch.UnknownWithText | messages/rmessages.py:436-437 | `XXX foo bar` fails with the single error `bad_text`, `Superfluous text: "foo bar"` |
| Dispatch.UnknownAlone | messages/rmessages.py:453-455 | `  hello\n` fails with the single note `Extend semantics_check.` |

## Left out

- `creation_sql`, `create_in_db` and `parse_report` are left out. They build SQL, talk to a database, and call application handlers passed in at run time.
- The parser module is not part of this model. Its `ThouField.pull`, `subname`, `display`, `dbtype` and `default_dbvalue` are unseen. `pull` is a parameter, constrained only by the two stated predicates.
- The entries table is keyed by the kind's class name. The parser's `subname` is unseen, and the lemmas need only the keys to be distinct per schema.
- The kinds' `column_name` attributes are left out. They name database columns and play no part in parsing.
- Kinds that define no `convert` inherit one from the parser module. It is modelled as keeping the token as it is.
- `float()` is not modelled. `Convert` of a decimal kind yields the letter-stripped text that `float` would read, and it never fails, although `float` can raise.
- `datetime.today()`, the default reference date of `parse`, is left out. The reference date is always a parameter.
- `datetime` values carry time of day only as microseconds since midnight. Time zones are left out, because the source builds naive datetimes.
- Python 2 byte strings are modelled as `seq<char>`, with ASCII-only case mapping and the `re` character classes of byte patterns. Locale-dependent behaviour is left out.
- Dispatch.CaselessHash: when two keys lower to the same string, the source keeps whichever comes last in the dictionary's iteration order. That order is unspecified, so the model promises only that the value belongs to one of those keys.
- `transferer.py`, `import_correct.py` and `oldconverter.py` are outside the modelled core.
