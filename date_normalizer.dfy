/** The posted-date normaliser of JobScraper.ts: `standardizePostedDate`
    turns free text into an absolute instant, `toRelativePostedDate` and
    `getRelativeFromDates` into a relative phrase.

    Instants are integer milliseconds since the epoch. The JavaScript `Date`
    machinery the code leans on (`Date.parse`, the local-time setters,
    `toISOString`'s rendering) belongs to the engine and is a parameter,
    `Clock`, about which nothing is assumed. */
module DateNormalizer {
  import opened Wrappers
  import opened Text
  import opened DatePatterns

  /** The engine's date primitives, left uninterpreted. */
  datatype Clock = Clock(
    parse: string -> Option<int>,  // Date.parse(s), or new Date(s).getTime(); None for NaN
    subDays: (int, int) -> int,    // d.setDate(d.getDate() - n), local time
    subMonths: (int, int) -> int,  // d.setMonth(d.getMonth() - n), local time
    subYears: (int, int) -> int,   // d.setFullYear(d.getFullYear() - n), local time
    iso: int -> string)            // d.toISOString() of a valid date

  const MsPerSecond: int := 1000
  const MsPerMinute: int := 60 * MsPerSecond
  const MsPerHour: int := 60 * MsPerMinute
  const MsPerDay: int := 24 * MsPerHour

  /** How far from the epoch a `Date` may be; beyond it the time value is NaN. */
  const MaxTime: int := 8_640_000_000_000_000

  predicate InRange(t: int) {
    -MaxTime <= t <= MaxTime
  }

  /** What `toISOString()` does with a time value: render it (`Iso`), or
      throw a `RangeError` when the date is invalid. */
  datatype Stamp = Iso(instant: int) | RangeError

  function ToIso(t: int): Stamp {
    if InRange(t) then Iso(t) else RangeError
  }

  /** A copy of `reference` moved back `n` units by the setter the source
      uses for that unit; hours, minutes and seconds are exact. */
  function MoveBack(clock: Clock, reference: int, n: nat, u: Unit): (r: Stamp)
    ensures !InRange(reference) ==> r == RangeError
    ensures r.Iso? ==> InRange(r.instant)
  {
    if !InRange(reference) then RangeError
    else ToIso(
      match u
      case Day => clock.subDays(reference, n)
      case Week => clock.subDays(reference, n * 7)
      case Month => clock.subMonths(reference, n)
      case Year => clock.subYears(reference, n)
      case Hour => reference - n * MsPerHour
      case Minute => reference - n * MsPerMinute
      case Second => reference - n * MsPerSecond)
  }

  /** A week back is seven days back; an hour back is sixty minutes back, a
      minute sixty seconds; moving back by nothing exact keeps the instant. */
  lemma MoveBackUnits(clock: Clock, reference: int, n: nat)
    ensures MoveBack(clock, reference, n, Week) == MoveBack(clock, reference, 7 * n, Day)
    ensures MoveBack(clock, reference, n, Hour) == MoveBack(clock, reference, 60 * n, Minute)
    ensures MoveBack(clock, reference, n, Minute) == MoveBack(clock, reference, 60 * n, Second)
    ensures MoveBack(clock, reference, 0, Second) == ToIso(reference)
  {
  }

  // ---------------------------------------------------------------------
  // standardizePostedDate
  // ---------------------------------------------------------------------

  /** Which branch of `standardizePostedDate` answers, tried in the source's
      order: the first that applies wins. */
  datatype Rule =
    | Blank                       // undefined, "" or only white space
    | Parsed(time: int)           // Date.parse accepts the text
    | Today                       // "new" or "today"
    | Yesterday                   // "yesterday"
    | UnitsAgo(c: Capture)        // the "N unit ago" search
    | Abbreviated(c: Capture)     // the "Nd" / "Nm" / "Ny" search
    | Approximate(c: Capture)     // the "about N unit" search
    | Unrecognised

  /** The text the patterns see: `postedDate.toLowerCase().trim()`. */
  function StandardLower(raw: string): string {
    Trim(ToLower(raw))
  }

  function StandardizeRule(postedDate: Option<string>, clock: Clock): Rule {
    if postedDate.None? || Trim(postedDate.value) == "" then Blank
    else if clock.parse(postedDate.value).Some? then Parsed(clock.parse(postedDate.value).value)
    else TextRule(StandardLower(postedDate.value))
  }

  /** The rules after `Date.parse`, on the lower-cased, trimmed text. */
  function TextRule(lower: string): Rule {
    if lower == "new" || lower == "today" then Today
    else if lower == "yesterday" then Yesterday
    else if Search(Ago, lower).Some? then UnitsAgo(Search(Ago, lower).value)
    else if Search(Shorthand, lower).Some? then Abbreviated(Search(Shorthand, lower).value)
    else if Search(Hedged, lower).Some? then Approximate(Search(Hedged, lower).value)
    else Unrecognised
  }

  /** `standardizePostedDate(postedDate, fallbackDate)`: the instant whose
      ISO text it returns, or the RangeError `toISOString` throws. */
  function StandardizePostedDate(postedDate: Option<string>, fallback: int, clock: Clock): Stamp {
    ApplyRule(StandardizeRule(postedDate, clock), fallback, clock)
  }

  /** What each rule returns: the fallback, the parsed instant, or the
      fallback moved back by the captured amount. */
  function ApplyRule(rule: Rule, fallback: int, clock: Clock): (r: Stamp)
    ensures r.Iso? ==> InRange(r.instant)
    ensures rule.Blank? || rule.Today? || rule.Unrecognised? ==> r == ToIso(fallback)
  {
    match rule
    case Blank => ToIso(fallback)
    case Parsed(t) => ToIso(t)
    case Today => ToIso(fallback)
    case Yesterday => MoveBack(clock, fallback, 1, Day)
    case UnitsAgo(c) => MoveBack(clock, fallback, c.value, c.unit)
    case Abbreviated(c) => MoveBack(clock, fallback, c.value, c.unit)
    case Approximate(c) => MoveBack(clock, fallback, c.value, c.unit)
    case Unrecognised => ToIso(fallback)
  }

  /** Missing, empty or white-space text, and text no rule recognises, give
      the fallback instant; text `Date.parse` accepts gives its instant
      whatever it says, since that rule is tried first. */
  lemma StandardizeFallsBack(postedDate: Option<string>, fallback: int, clock: Clock)
    ensures postedDate.None? || AllSpaces(postedDate.value) ==>
              StandardizePostedDate(postedDate, fallback, clock) == ToIso(fallback)
    ensures StandardizeRule(postedDate, clock) == Unrecognised ==>
              StandardizePostedDate(postedDate, fallback, clock) == ToIso(fallback)
    ensures postedDate.Some? && !AllSpaces(postedDate.value) && clock.parse(postedDate.value).Some? ==>
              StandardizePostedDate(postedDate, fallback, clock) == ToIso(clock.parse(postedDate.value).value)
  {
  }

  /** `new`, `today` and `yesterday`, in any letter case and padding, when
      `Date.parse` does not claim them. */
  lemma StandardizeKeywords(raw: string, fallback: int, clock: Clock)
    requires clock.parse(raw).None?
    ensures StandardLower(raw) == "new" || StandardLower(raw) == "today" ==>
              StandardizeRule(Some(raw), clock) == Today
              && StandardizePostedDate(Some(raw), fallback, clock) == ToIso(fallback)
    ensures StandardLower(raw) == "yesterday" ==>
              StandardizeRule(Some(raw), clock) == Yesterday
              && StandardizePostedDate(Some(raw), fallback, clock) == MoveBack(clock, fallback, 1, Day)
  {
    var lower := StandardLower(raw);
    if lower == "new" || lower == "today" {
      KeywordRule(raw, clock);
      ByRule(raw, Today, fallback, clock);
    } else if lower == "yesterday" {
      KeywordRule(raw, clock);
      ByRule(raw, Yesterday, fallback, clock);
    }
  }

  /** The rule-level half of `StandardizeKeywords`. */
  lemma KeywordRule(raw: string, clock: Clock)
    requires clock.parse(raw).None?
    requires StandardLower(raw) in {"new", "today", "yesterday"}
    ensures StandardizeRule(Some(raw), clock) == TextRule(StandardLower(raw))
    ensures TextRule(StandardLower(raw)) == if StandardLower(raw) == "yesterday" then Yesterday else Today
  {
    KeywordRules();
    LowerKeepsSpaces(raw);
    ToTextRules(raw, clock);
  }

  lemma KeywordRules()
    ensures TextRule("new") == Today && TextRule("today") == Today
    ensures TextRule("yesterday") == Yesterday
  {
  }

  // -- reading text built from a number -----------------------------------

  function Plural(plural: bool): string {
    if plural then "s" else ""
  }

  predicate NoDigits(s: string) {
    forall k :: 0 <= k < |s| ==> !IsDigit(s[k])
  }

  /** Lower-case letters and spaces only. */
  predicate Letters(s: string) {
    forall k :: 0 <= k < |s| ==> s[k] == ' ' || 'a' <= s[k] <= 'z'
  }

  lemma LettersConcat(a: string, b: string)
    requires Letters(a) && Letters(b)
    ensures Letters(a + b)
  {
    forall k | 0 <= k < |a + b| ensures (a + b)[k] == ' ' || 'a' <= (a + b)[k] <= 'z' {
      if k >= |a| { assert (a + b)[k] == b[k - |a|]; }
    }
  }

  /** The rule for text whose only number, `n`, starts at `start` and is
      followed by `r`: the first of the three patterns whose tail `r` fits. */
  function NumberRule(start: nat, n: nat, r: string): Rule {
    if Tail(Ago, r, 0).Some? then UnitsAgo(Capture(start, n, Tail(Ago, r, 0).value))
    else if Tail(Shorthand, r, 0).Some? then Abbreviated(Capture(start, n, Tail(Shorthand, r, 0).value))
    else if Tail(Hedged, r, 0).Some? then Approximate(Capture(start, n, Tail(Hedged, r, 0).value))
    else Unrecognised
  }

  /** Facts about `h + d + r` when `d` is the only run of digits in it. */
  lemma NumberIn(h: string, d: string, r: string)
    requires NoDigits(h) && d != [] && AllDigits(d) && NoDigits(r)
    ensures var s := h + d + r;
      && (forall k :: 0 <= k < |h| ==> !IsDigit(s[k]))
      && AllDigits(s[|h|..|h| + |d|]) && s[|h|..|h| + |d|] == d
      && (forall k :: |h| + |d| <= k < |s| ==> !IsDigit(s[k]))
  {
    var s := h + d + r;
    assert s[|h|..|h| + |d|] == d;
    forall k | |h| + |d| <= k < |s| ensures !IsDigit(s[k]) {
      assert s[k] == r[k - |h| - |d|];
    }
    forall k | 0 <= k < |h| ensures !IsDigit(s[k]) {
      assert s[k] == h[k];
    }
  }

  /** Pattern `p` finds in `s` the number `n` at `start` exactly when the
      text `r` after the number fits its tail, and reads the tail's unit. */
  predicate FindsNumber(p: Pattern, s: string, start: nat, n: nat, r: string) {
    && (Tail(p, r, 0).None? ==> Search(p, s).None?)
    && (Tail(p, r, 0).Some? ==> Search(p, s) == Some(Capture(start, n, Tail(p, r, 0).value)))
  }

  /** Every pattern's leftmost match in `h + d + r`, the digits `d` being its
      only number, is read from `r`. */
  lemma SearchNumberIn(p: Pattern, h: string, d: string, r: string)
    requires NoDigits(h) && d != [] && AllDigits(d) && NoDigits(r)
    ensures FindsNumber(p, h + d + r, |h|, DecimalValue(d), r)
  {
    var s := h + d + r;
    var j := |h| + |d|;
    NumberIn(h, d, r);
    assert AllDigits(s[|h|..j]);
    assert s[|h|..j] == d;
    assert Tail(p, s, j) == Tail(p, r, 0) by { TailShift(p, h + d, r, 0); }
    SearchSingleNumber(p, s, |h|, j);
  }

  /** Text not claimed by `Date.parse` and not blank goes to the text rules,
      lower-cased and trimmed. */
  lemma ToTextRules(raw: string, clock: Clock)
    requires !AllSpaces(raw) && clock.parse(raw).None?
    ensures StandardizeRule(Some(raw), clock) == TextRule(StandardLower(raw))
  {
  }

  /** Lower-case, unpadded text not claimed by `Date.parse` goes to the text
      rules as it is. */
  lemma ToTextRulesAsWritten(s: string, clock: Clock)
    requires IsLower(s) && s != [] && !IsSpace(s[0]) && !IsSpace(s[|s| - 1])
    requires clock.parse(s).None?
    ensures StandardizeRule(Some(s), clock) == TextRule(s)
  {
    ToTextRules(s, clock);
    ToLowerIdempotent(s);
    TrimUnpadded(s);
  }

  const Hedges: set<string> := {"", "about ", "over ", "almost "}

  /** A number with an optional hedge in front and words behind is lower
      case, unpadded and none of the keywords. */
  lemma NumberPhrase(h: string, d: string, r: string)
    requires h in Hedges && d != [] && AllDigits(d) && Letters(r)
    requires r != [] ==> r[|r| - 1] != ' '
    ensures var s := h + d + r;
      && IsLower(s) && !IsSpace(s[0]) && !IsSpace(s[|s| - 1])
      && s != "new" && s != "today" && s != "yesterday"
  {
    var s := h + d + r;
    assert s[|s| - 1] == if r == [] then d[|d| - 1] else r[|r| - 1];
    assert s[0] == if h == "" then d[0] else h[0];
    forall k | 0 <= k < |s| ensures !('A' <= s[k] <= 'Z') {
      if k < |h| { assert s[k] == h[k]; }
      else if k < |h| + |d| { assert s[k] == d[k - |h|]; }
      else { assert s[k] == r[k - |h| - |d|]; }
    }
  }

  /** A number with an optional hedge and some words, not claimed by
      `Date.parse`: the first pattern whose tail the words fit decides. */
  lemma StandardizeNumberPhrase(h: string, d: string, r: string, clock: Clock)
    requires h in Hedges && d != [] && AllDigits(d) && Letters(r)
    requires r != [] ==> r[|r| - 1] != ' '
    requires clock.parse(h + d + r).None?
    ensures StandardizeRule(Some(h + d + r), clock) == NumberRule(|h|, DecimalValue(d), r)
  {
    NumberPhraseAsWritten(h, d, r, clock);
    NumberPhraseRule(h, d, r);
  }

  lemma NumberPhraseAsWritten(h: string, d: string, r: string, clock: Clock)
    requires h in Hedges && d != [] && AllDigits(d) && Letters(r)
    requires r != [] ==> r[|r| - 1] != ' '
    requires clock.parse(h + d + r).None?
    ensures StandardizeRule(Some(h + d + r), clock) == TextRule(h + d + r)
  {
    NumberPhrase(h, d, r);
    ToTextRulesAsWritten(h + d + r, clock);
  }

  lemma NumberPhraseRule(h: string, d: string, r: string)
    requires h in Hedges && d != [] && AllDigits(d) && Letters(r)
    requires r != [] ==> r[|r| - 1] != ' '
    ensures TextRule(h + d + r) == NumberRule(|h|, DecimalValue(d), r)
  {
    NumberPhrase(h, d, r);
    assert NoDigits(h) && NoDigits(r);
    SearchNumberIn(Ago, h, d, r);
    SearchNumberIn(Shorthand, h, d, r);
    SearchNumberIn(Hedged, h, d, r);
    TextRuleOfNumber(h + d + r, |h|, DecimalValue(d), r);
  }

  lemma TextRuleOfNumber(s: string, start: nat, n: nat, r: string)
    requires s != "new" && s != "today" && s != "yesterday"
    requires FindsNumber(Ago, s, start, n, r) && FindsNumber(Shorthand, s, start, n, r)
    requires FindsNumber(Hedged, s, start, n, r)
    ensures TextRule(s) == NumberRule(start, n, r)
  {
  }

  /** The words after the number in "N unit(s)" and "N unit(s) ago". */
  lemma UnitPhraseLetters(u: Unit, plural: bool, rest: string)
    requires rest in {"", " ago"}
    ensures var r := " " + UnitWord(u) + Plural(plural) + rest;
      Letters(r) && r[|r| - 1] != ' '
  {
    var w := UnitWord(u);
    assert Letters(w) by { match u case _ => }
    LettersConcat(" ", w);
    LettersConcat(" " + w, Plural(plural));
    LettersConcat(" " + w + Plural(plural), rest);
    var r := " " + w + Plural(plural) + rest;
    if rest == "" && !plural { assert r[|r| - 1] == w[|w| - 1]; }
  }

  /** "N unit ago" and "N units ago", for every unit, when `Date.parse`
      rejects the text: the reference moved back N of that unit, N read
      from the digits as written. */
  lemma StandardizeUnitsAgo(d: string, u: Unit, plural: bool, fallback: int, clock: Clock)
    requires d != [] && AllDigits(d)
    requires clock.parse(d + (" " + UnitWord(u) + Plural(plural) + " ago")).None?
    ensures StandardizePostedDate(Some(d + (" " + UnitWord(u) + Plural(plural) + " ago")), fallback, clock)
         == MoveBack(clock, fallback, DecimalValue(d), u)
  {
    var r := " " + UnitWord(u) + Plural(plural) + " ago";
    UnitsAgoRule(d, u, plural, clock);
    ByRule(d + r, UnitsAgo(Capture(0, DecimalValue(d), u)), fallback, clock);
  }

  /** The rule-level half of `StandardizeUnitsAgo`. */
  lemma UnitsAgoRule(d: string, u: Unit, plural: bool, clock: Clock)
    requires d != [] && AllDigits(d)
    requires clock.parse(d + (" " + UnitWord(u) + Plural(plural) + " ago")).None?
    ensures StandardizeRule(Some(d + (" " + UnitWord(u) + Plural(plural) + " ago")), clock)
         == UnitsAgo(Capture(0, DecimalValue(d), u))
  {
    UnitsAgoNumber(d, u, plural, clock);
    AgoPhraseRule(u, plural, 0, DecimalValue(d));
  }

  lemma UnitsAgoNumber(d: string, u: Unit, plural: bool, clock: Clock)
    requires d != [] && AllDigits(d)
    requires clock.parse(d + (" " + UnitWord(u) + Plural(plural) + " ago")).None?
    ensures StandardizeRule(Some(d + (" " + UnitWord(u) + Plural(plural) + " ago")), clock)
         == NumberRule(0, DecimalValue(d), " " + UnitWord(u) + Plural(plural) + " ago")
  {
    var r := " " + UnitWord(u) + Plural(plural) + " ago";
    assert d + r == "" + d + r;
    UnitPhraseLetters(u, plural, " ago");
    StandardizeNumberPhrase("", d, r, clock);
  }

  /** The rule for a number followed by " unit(s) ago". */
  lemma AgoPhraseRule(u: Unit, plural: bool, start: nat, n: nat)
    ensures NumberRule(start, n, " " + UnitWord(u) + Plural(plural) + " ago") == UnitsAgo(Capture(start, n, u))
  {
    AgoTails(u, Plural(plural));
  }

  /** "N unit(s)" with an optional hedge `about`, `over` or `almost`, and no
      `ago`, when `Date.parse` rejects the text: day, month and year are caught
      by the shorthand rule already (so are minutes, read as months); only
      week, hour and second reach the hedged rule. */
  lemma StandardizeHedged(h: string, d: string, u: Unit, plural: bool, fallback: int, clock: Clock)
    requires h in Hedges && d != [] && AllDigits(d)
    requires clock.parse(h + d + (" " + UnitWord(u) + Plural(plural))).None?
    ensures StandardizePostedDate(Some(h + d + (" " + UnitWord(u) + Plural(plural))), fallback, clock)
         == MoveBack(clock, fallback, DecimalValue(d), ShorthandReading(u))
  {
    HedgedRule(h, d, u, plural, clock);
    UnitPhraseInstant(h + d + (" " + UnitWord(u) + Plural(plural)), |h|, DecimalValue(d), u, fallback, clock);
  }

  /** The rule-level half of `StandardizeHedged`: weeks, hours and seconds
      are read by the hedged pattern, the other units by the shorthand one. */
  lemma HedgedRule(h: string, d: string, u: Unit, plural: bool, clock: Clock)
    requires h in Hedges && d != [] && AllDigits(d)
    requires clock.parse(h + d + (" " + UnitWord(u) + Plural(plural))).None?
    ensures StandardizeRule(Some(h + d + (" " + UnitWord(u) + Plural(plural))), clock) ==
           (if u in {Week, Hour, Second} then Approximate(Capture(|h|, DecimalValue(d), u))
            else Abbreviated(Capture(|h|, DecimalValue(d), ShorthandReading(u))))
  {
    HedgedNumber(h, d, u, plural, clock);
    UnitPhraseRule(u, plural, |h|, DecimalValue(d));
  }

  lemma HedgedNumber(h: string, d: string, u: Unit, plural: bool, clock: Clock)
    requires h in Hedges && d != [] && AllDigits(d)
    requires clock.parse(h + d + (" " + UnitWord(u) + Plural(plural))).None?
    ensures StandardizeRule(Some(h + d + (" " + UnitWord(u) + Plural(plural))), clock) ==
            NumberRule(|h|, DecimalValue(d), " " + UnitWord(u) + Plural(plural))
  {
    UnitPhraseLetters(u, plural, "");
    StandardizeNumberPhrase(h, d, " " + UnitWord(u) + Plural(plural), clock);
  }

  lemma UnitPhraseInstant(s: string, start: nat, n: nat, u: Unit, fallback: int, clock: Clock)
    requires StandardizeRule(Some(s), clock) ==
           (if u in {Week, Hour, Second} then Approximate(Capture(start, n, u))
            else Abbreviated(Capture(start, n, ShorthandReading(u))))
    ensures StandardizePostedDate(Some(s), fallback, clock) == MoveBack(clock, fallback, n, ShorthandReading(u))
  {
  }

  /** The rule for a number followed by " unit(s)" and nothing else. */
  lemma UnitPhraseRule(u: Unit, plural: bool, start: nat, n: nat)
    ensures NumberRule(start, n, " " + UnitWord(u) + Plural(plural)) ==
           (if u in {Week, Hour, Second} then Approximate(Capture(start, n, u))
            else Abbreviated(Capture(start, n, ShorthandReading(u))))
  {
    var r := " " + UnitWord(u) + Plural(plural);
    assert r == " " + UnitWord(u) + Plural(plural) + "";
    AgoTails(u, Plural(plural));
    WordTails(u, Plural(plural), "");
  }

  /** "Nd", "Nm", "Ny" when `Date.parse` rejects them: N days, months, years. */
  lemma StandardizeShorthand(d: string, letter: char, fallback: int, clock: Clock)
    requires d != [] && AllDigits(d) && letter in {'d', 'm', 'y'}
    requires clock.parse(d + [letter]).None?
    ensures StandardizePostedDate(Some(d + [letter]), fallback, clock) ==
      MoveBack(clock, fallback, DecimalValue(d), if letter == 'd' then Day else if letter == 'm' then Month else Year)
  {
    var u := if letter == 'd' then Day else if letter == 'm' then Month else Year;
    ShorthandRule(d, letter, clock);
    ByRule(d + [letter], Abbreviated(Capture(0, DecimalValue(d), u)), fallback, clock);
  }

  lemma ShorthandRule(d: string, letter: char, clock: Clock)
    requires d != [] && AllDigits(d) && letter in {'d', 'm', 'y'}
    requires clock.parse(d + [letter]).None?
    ensures StandardizeRule(Some(d + [letter]), clock) ==
      Abbreviated(Capture(0, DecimalValue(d), if letter == 'd' then Day else if letter == 'm' then Month else Year))
  {
    ShorthandNumber(d, letter, clock);
    LetterRule(letter, DecimalValue(d));
  }

  lemma ShorthandNumber(d: string, letter: char, clock: Clock)
    requires d != [] && AllDigits(d) && letter in {'d', 'm', 'y'}
    requires clock.parse(d + [letter]).None?
    ensures StandardizeRule(Some(d + [letter]), clock) == NumberRule(0, DecimalValue(d), [letter])
  {
    assert d + [letter] == "" + d + [letter];
    StandardizeNumberPhrase("", d, [letter], clock);
  }

  /** The rule for a number followed by a lone `d`, `m` or `y`. */
  lemma LetterRule(letter: char, n: nat)
    requires letter in {'d', 'm', 'y'}
    ensures NumberRule(0, n, [letter]) ==
      Abbreviated(Capture(0, n, if letter == 'd' then Day else if letter == 'm' then Month else Year))
  {
    assert Tail(Ago, [letter], 0).None?;
  }

  lemma ByRule(s: string, rule: Rule, fallback: int, clock: Clock)
    requires StandardizeRule(Some(s), clock) == rule
    ensures StandardizePostedDate(Some(s), fallback, clock) == ApplyRule(rule, fallback, clock)
  {
  }

  /** Whatever the text, the hedged rule only ever answers for weeks, hours
      and seconds: a number followed by a `d`, `m` or `y` word has already
      been taken by the shorthand rule. */
  lemma ApproximateOnlyWeeksHoursSeconds(postedDate: Option<string>, clock: Clock)
    requires StandardizeRule(postedDate, clock).Approximate?
    ensures StandardizeRule(postedDate, clock).c.unit in {Week, Hour, Second}
  {
    TextApproximate(StandardLower(postedDate.value));
  }

  /** The same, for the text rules alone. */
  lemma TextApproximate(lower: string)
    requires TextRule(lower).Approximate?
    ensures TextRule(lower).c.unit in {Week, Hour, Second}
  {
    var c := TextRule(lower).c;
    assert Search(Shorthand, lower).None? && Search(Hedged, lower) == Some(c);
    HedgedUnits(lower, c.start);
  }

  // ---------------------------------------------------------------------
  // getRelativeFromDates
  // ---------------------------------------------------------------------

  /** Whole days from `date` to `reference`, rounded down (`Math.floor`). */
  function ElapsedDays(date: int, reference: int): int {
    (reference - date) / MsPerDay
  }

  /** `getRelativeFromDates(date, reference)`. */
  function RelativeFromDates(date: int, reference: int): string {
    var days := ElapsedDays(date, reference);
    if days < 0 then "today"
    else if days == 0 then "today"
    else if days == 1 then "yesterday"
    else if days < 30 then NatToString(days) + " days ago"
    else
      var months := days / 30;
      if months < 12 then NatToString(months) + " months ago"
      else NatToString(months / 12) + " years ago"
  }

  /** A relative phrase read back: its leading number and the rest. */
  function ReadPhrase(p: string): Option<(nat, string)> {
    var j := SkipDigits(p, 0);
    if j > 0 then Some((DecimalValue(p[..j]), p[j..])) else None
  }

  lemma ReadNumberPhrase(n: nat, rest: string)
    requires rest != [] && !IsDigit(rest[0])
    ensures ReadPhrase(NatToString(n) + rest) == Some((n, rest))
  {
    var d := NatToString(n);
    var p := d + rest;
    assert p[..|d|] == d && p[|d|..] == rest;
    SkipDigitsOver(p, 0, |d|);
    DecimalRoundTrip(n);
  }

  /** The buckets of `getRelativeFromDates`, and what the phrase says when
      read back: up to a day "today" (future dates included), then
      "yesterday", then the exact number of days below 30, then whole
      30-day months (1 to 11) below 360 days, then whole 360-day years. */
  lemma RelativeBuckets(date: int, reference: int)
    ensures var d := ElapsedDays(date, reference);
      var p := RelativeFromDates(date, reference);
      && (d <= 0 <==> p == "today")
      && (d == 1 <==> p == "yesterday")
      && (2 <= d < 30 <==> ReadPhrase(p) == Some((d, " days ago")))
      && (30 <= d < 360 <==> exists m :: ReadPhrase(p) == Some((m, " months ago")))
      && (360 <= d <==> exists y :: ReadPhrase(p) == Some((y, " years ago")))
      && (30 <= d < 360 ==> ReadPhrase(p) == Some((d / 30, " months ago")) && 1 <= d / 30 <= 11)
      && (360 <= d ==> ReadPhrase(p) == Some((d / 360, " years ago")) && d / 360 >= 1)
  {
    var d := ElapsedDays(date, reference);
    var p := RelativeFromDates(date, reference);
    if d <= 1 {
    } else if d < 30 {
      ReadNumberPhrase(d, " days ago");
    } else if d < 360 {
      ReadNumberPhrase(d / 30, " months ago");
    } else {
      assert d / 30 / 12 == d / 360;
      ReadNumberPhrase(d / 360, " years ago");
    }
  }

  // ---------------------------------------------------------------------
  // toRelativePostedDate
  // ---------------------------------------------------------------------

  /** The phrases `toRelativePostedDate` can produce: `today`, `yesterday`, or
      a number, a space, one of the unit words the code writes or keeps, and
      ` ago`. */
  predicate IsRelativePhrase(p: string) {
    || p == "today" || p == "yesterday"
    || (var j := SkipDigits(p, 0); j > 0 && p[j..] in AgoSuffixes)
  }

  const AgoSuffixes: set<string> :=
    {" hour ago", " hours ago", " day ago", " days ago", " week ago", " weeks ago",
     " month ago", " months ago", " year ago", " years ago"}

  /** The text the anchored patterns see: `postedDate.trim().toLowerCase()`. */
  function RelativeLower(raw: string): string {
    ToLower(Trim(raw))
  }

  /** `getRelativeFromDates(date, referenceDate)` for any reference: an
      Invalid Date makes every comparison on the day count false, so the
      answer falls through to the years phrase with `NaN` for its number. */
  function RelativeFrom(date: int, reference: int): (p: string)
    ensures !InRange(reference) ==> p == "NaN years ago"
    ensures InRange(reference) ==> IsRelativePhrase(p)
  {
    if !InRange(reference) then "NaN years ago"
    else
      RelativeFromDatesIsPhrase(date, reference);
      RelativeFromDates(date, reference)
  }

  /** `Date.parse(raw)` and, when it is valid, the relative phrase for it;
      `reference` is `referenceDate`'s time value, out of range for an
      Invalid Date. */
  function FromParsed(clock: Clock, raw: string, reference: int): Option<string> {
    match clock.parse(raw)
    case None => None
    case Some(t) => Some(RelativeFrom(t, reference))
  }

  /** `toRelativePostedDate(postedDate, referenceDate)`; `None` is `null`. */
  function ToRelativePostedDate(postedDate: Option<string>, reference: int, clock: Clock): Option<string> {
    if postedDate.None? || Trim(postedDate.value) == "" then None
    else RelativeText(RelativeLower(postedDate.value), postedDate.value, reference, clock)
  }

  /** The anchored rules on the trimmed, lower-cased text `lower`, in the
      source's order; `raw` is what `Date.parse` is given. */
  function RelativeText(lower: string, raw: string, reference: int, clock: Clock): Option<string> {
    if IsIsoShape(lower) then FromParsed(clock, raw, reference)
    else if DayCode(lower).Some? then Some(DayCode(lower).value + " days ago")
    else if DaysAgo(lower).Some? then Some(DaysAgo(lower).value + " days ago")
    else if HedgedAmount(lower, "month").Some? then Some(HedgedAmount(lower, "month").value + " months ago")
    else if HedgedAmount(lower, "year").Some? then Some(HedgedAmount(lower, "year").value + " years ago")
    else if lower == "new" || lower == "today" then Some("today")
    else if lower == "yesterday" then Some("yesterday")
    else if PostedAgo(lower).Some? then
      Some(PostedAgo(lower).value.0 + " " + PostedAgo(lower).value.1 + " ago")
    else if DaysPlusAgo(lower).Some? then Some(DaysPlusAgo(lower).value + " days ago")
    else FromParsed(clock, raw, reference)
  }

  /** Missing, empty or white-space text is `null`. */
  lemma RelativeBlank(postedDate: Option<string>, reference: int, clock: Clock)
    ensures postedDate.None? || AllSpaces(postedDate.value) <==>
            postedDate.None? || RelativeLower(postedDate.value) == ""
    ensures postedDate.None? || AllSpaces(postedDate.value) ==>
            ToRelativePostedDate(postedDate, reference, clock).None?
  {
  }

  /** Lower-case text with no padding is its own `trim().toLowerCase()`. */
  lemma RelativeLowerAsWritten(s: string)
    requires IsLower(s) && s != [] && !IsSpace(s[0]) && !IsSpace(s[|s| - 1])
    ensures RelativeLower(s) == s
  {
    TrimUnpadded(s);
    ToLowerIdempotent(s);
  }

  // -- the rules on text that starts with a number ------------------------

  /** A number `d` first, followed by non-digit text `r`: `(\d+)` at the
      start takes `d`, and there is no hedge word in front of it. */
  lemma NumberDigits(d: string, r: string)
    requires d != [] && AllDigits(d) && r != [] && !IsDigit(r[0])
    ensures Digits1(d + r, 0) == Some(|d|) && (d + r)[..|d|] == d
  {
    assert [] + d + r == d + r;
    DigitsAt([], d, r);
  }

  /** The digit-led patterns find nothing in text that does not start with
      a digit, nor in a bare number. */
  lemma NumberMissing(s: string)
    requires s == [] || !IsDigit(s[0]) || AllDigits(s)
    ensures DayCode(s).None? && DaysAgo(s).None? && DaysPlusAgo(s).None?
  {
    if s != [] && IsDigit(s[0]) {
      assert s[0..|s|] == s;
      SkipDigitsOver(s, 0, |s|);
    }
  }

  /** `/^(\d+)d$/` on a number followed by `r`. */
  lemma NumberDayCode(d: string, r: string)
    requires d != [] && AllDigits(d) && r != [] && !IsDigit(r[0])
    ensures DayCode(d + r) == (if r == "d" then Some(d) else None)
  {
    NumberDigits(d, r);
    assert (d + r)[|d|] == r[0];
    assert |r| == 1 && r[0] == 'd' ==> r == "d";
  }

  /** `/^(\d+)\s+days?\s+ago$/` on a number followed by `r`. */
  lemma NumberDaysAgo(d: string, r: string)
    requires d != [] && AllDigits(d) && r != [] && !IsDigit(r[0])
    ensures DaysAgo(d + r) == (if DaysAgoTail(r, 0) == Some(|r|) then Some(d) else None)
  {
    DaysTailAfter(d, r);
    DaysAgoAfterNumber(d, r, DaysAgoTail(r, 0));
  }

  lemma DaysTailAfter(d: string, r: string)
    ensures DaysAgoTail(d + r, |d|) == Offset(DaysAgoTail(r, 0), |d|)
  {
    DaysAgoTailShift(d, r, 0);
  }

  lemma DaysAgoAfterNumber(d: string, r: string, t: Option<nat>)
    requires d != [] && AllDigits(d) && r != [] && !IsDigit(r[0])
    requires DaysAgoTail(d + r, |d|) == Offset(t, |d|)
    ensures DaysAgo(d + r) == (if t == Some(|r|) then Some(d) else None)
  {
    NumberDigits(d, r);
    DaysAgoOf(d + r, |d|, Offset(t, |d|), d);
  }

  /** `/^(about|over|almost)?\s*(\d+)\s+<word>s?$/` on a number followed by `r`. */
  lemma NumberHedged(d: string, r: string, word: string)
    requires d != [] && AllDigits(d) && r != [] && !IsDigit(r[0])
    ensures HedgedAmount(d + r, word) == (if WordsTail(r, 0, word) == Some(|r|) then Some(d) else None)
  {
    WordsTailAfter(d, r, word);
    HedgedAfterNumber(d, r, word, WordsTail(r, 0, word));
  }

  lemma WordsTailAfter(a: string, r: string, word: string)
    ensures WordsTail(a + r, |a|, word) == Offset(WordsTail(r, 0, word), |a|)
  {
    WordsTailShift(a, r, 0, word);
  }

  lemma HedgedAfterNumber(d: string, r: string, word: string, t: Option<nat>)
    requires d != [] && AllDigits(d) && r != [] && !IsDigit(r[0])
    requires WordsTail(d + r, |d|, word) == Offset(t, |d|)
    ensures HedgedAmount(d + r, word) == (if t == Some(|r|) then Some(d) else None)
  {
    NumberDigits(d, r);
    assert (d + r)[0] == d[0];
    HedgeZero(d + r);
    HedgedAmountOf(d + r, word, 0, |d|, Offset(t, |d|), d);
  }

  /** `/^(\d+)\+\s+days?\s+ago$/` on a number followed by `r`: it matches
      exactly when `r` is a `+` and day words that the pattern takes whole. */
  lemma NumberPlus(d: string, r: string)
    requires d != [] && AllDigits(d) && r != [] && !IsDigit(r[0])
    ensures DaysPlusAgo(d + r) ==
            (if Word(r, 0, "+") == Some(1) && DaysAgoTail(r, 1) == Some(|r|) then Some(d) else None)
  {
    NumberDigits(d, r);
    PlusWordAfter(d, r);
    PlusTailAfter(d, r);
    var p := Word(d + r, |d|, "+");
    var e := if p.Some? then DaysAgoTail(d + r, p.value) else None;
    DaysPlusAgoOf(d + r, |d|, p, e, d);
  }

  lemma PlusWordAfter(d: string, r: string)
    ensures Word(d + r, |d|, "+") == Offset(Word(r, 0, "+"), |d|)
  {
    WordShift(d, r, 0, "+");
  }

  lemma PlusTailAfter(d: string, r: string)
    requires 1 <= |r|
    ensures DaysAgoTail(d + r, |d| + 1) == Offset(DaysAgoTail(r, 1), |d|)
  {
    DaysAgoTailShift(d, r, 1);
  }

  /** A `+` in front of the day words. */
  lemma PlusTail(t: string)
    ensures Word("+" + t, 0, "+") == Some(1)
    ensures DaysAgoTail("+" + t, 1) == Offset(DaysAgoTail(t, 0), 1)
  {
    assert ("+" + t)[0..1] == "+";
    DaysAgoTailShift("+", t, 0);
  }

  /** The same pattern on a number followed by anything but `+`. */
  lemma NumberPlusMiss(d: string, r: string)
    requires d != [] && AllDigits(d) && r != [] && !IsDigit(r[0]) && r[0] != '+'
    ensures DaysPlusAgo(d + r).None?
  {
    NumberDigits(d, r);
    assert (d + r)[|d|] == r[0];
    Mismatch(d + r, |d|, "+", 0);
  }

  /** Text that starts with a digit has no hedge word. */
  lemma HedgeZero(s: string)
    requires s != [] && IsDigit(s[0])
    ensures SkipSpaces(s, HedgeEnd(s)) == 0
  {
    Mismatch(s, 0, "about", 0);
    Mismatch(s, 0, "over", 0);
    Mismatch(s, 0, "almost", 0);
  }

  /** A number first is neither a keyword nor `posted …`. */
  lemma NumberNotWords(d: string, r: string)
    requires d != [] && AllDigits(d)
    ensures d + r != "new" && d + r != "today" && d + r != "yesterday"
    ensures PostedAgo(d + r).None?
  {
    var s := d + r;
    assert s[0] == d[0];
    Mismatch(s, 0, "posted", 0);
  }

  /** The optional hedge, and the white space after it, end where the
      number begins. */
  lemma HedgeStart(h: string, d: string, r: string)
    requires h in Hedges && d != [] && AllDigits(d)
    ensures SkipSpaces(h + d + r, HedgeEnd(h + d + r)) == |h|
  {
    var s := h + d + r;
    assert s[|h|] == d[0];
    assert s[..|h|] == h;
    if h == "" {
      Mismatch(s, 0, "about", 0);
      Mismatch(s, 0, "over", 0);
      Mismatch(s, 0, "almost", 0);
    } else if h == "about " {
      assert s[0..5] == s[..|h|][0..5];
      OneSpace(s, 5);
    } else if h == "over " {
      Mismatch(s, 0, "about", 0);
      assert s[0..4] == s[..|h|][0..4];
      OneSpace(s, 4);
    } else {
      Mismatch(s, 0, "about", 1);
      Mismatch(s, 0, "over", 0);
      assert s[0..6] == s[..|h|][0..6];
      OneSpace(s, 6);
    }
  }

  // -- the forms the rules recognise --------------------------------------

  /** `Nd` in any case and padding reads "N days ago". */
  lemma RelativeDayCode(raw: string, d: string, reference: int, clock: Clock)
    requires d != [] && AllDigits(d) && RelativeLower(raw) == d + "d"
    ensures ToRelativePostedDate(Some(raw), reference, clock) == Some(d + " days ago")
  {
    DayCodeText(d);
    AtDayCode(d + "d", raw, reference, clock);
  }

  lemma DayCodeText(d: string)
    requires d != [] && AllDigits(d)
    ensures !IsIsoShape(d + "d") && DayCode(d + "d") == Some(d)
  {
    NumberDayCode(d, "d");
    assert (d + "d")[|d + "d"| - 1] == 'd';
  }

  /** `N day ago` and `N days ago` read "N days ago". */
  lemma RelativeDaysAgo(raw: string, d: string, pl: string, reference: int, clock: Clock)
    requires d != [] && AllDigits(d) && pl in {"", "s"} && RelativeLower(raw) == d + (" day" + pl + " ago")
    ensures ToRelativePostedDate(Some(raw), reference, clock) == Some(d + " days ago")
  {
    DaysAgoText(d, pl);
    AtDaysAgo(d + (" day" + pl + " ago"), raw, reference, clock);
  }

  lemma DaysAgoText(d: string, pl: string)
    requires d != [] && AllDigits(d) && pl in {"", "s"}
    ensures var w := " day" + pl + " ago";
      !IsIsoShape(d + w) && DayCode(d + w).None? && DaysAgo(d + w) == Some(d)
  {
    var w := " day" + pl + " ago";
    NumberDayCode(d, w);
    NumberDaysAgo(d, w);
    DayAgoWords(pl);
    assert (d + w)[|d + w| - 1] == 'o';
  }

  /** `\s+days?\s+ago` takes the whole of " day ago" and " days ago". */
  lemma DayAgoWords(pl: string)
    requires pl in {"", "s"}
    ensures DaysAgoTail(" day" + pl + " ago", 0) == Some(|" day" + pl + " ago"|)
  {
    var w := " day" + pl + " ago";
    var e := 4 + |pl|;
    OneSpace(w, 0);
    assert w[1..4] == "day";
    assert OptS(w, 4) == e;
    OneSpace(w, e);
    assert w[e + 1..e + 4] == "ago";
  }

  /** `N+ day ago` and `N+ days ago` read "N days ago". */
  lemma RelativeDaysPlus(raw: string, d: string, pl: string, reference: int, clock: Clock)
    requires d != [] && AllDigits(d) && pl in {"", "s"} && RelativeLower(raw) == d + ("+" + (" day" + pl + " ago"))
    ensures ToRelativePostedDate(Some(raw), reference, clock) == Some(d + " days ago")
  {
    var lower := d + ("+" + (" day" + pl + " ago"));
    DaysPlusText(d, pl);
    NumberNotWords(d, "+" + (" day" + pl + " ago"));
    AtDaysPlus(lower, raw, reference, clock);
  }

  lemma DaysPlusText(d: string, pl: string)
    requires d != [] && AllDigits(d) && pl in {"", "s"}
    ensures var w := "+" + (" day" + pl + " ago");
      && !IsIsoShape(d + w) && DayCode(d + w).None? && DaysAgo(d + w).None?
      && HedgedAmount(d + w, "month").None? && HedgedAmount(d + w, "year").None?
      && DaysPlusAgo(d + w) == Some(d)
  {
    var t := " day" + pl + " ago";
    var w := "+" + t;
    NumberDayCode(d, w);
    NumberDaysAgo(d, w);
    NumberHedged(d, w, "month");
    NumberHedged(d, w, "year");
    assert SkipSpaces(w, 0) == 0;
    DayAgoWords(pl);
    PlusTail(t);
    NumberPlus(d, w);
    assert (d + w)[|d + w| - 1] == 'o';
  }

  /** `N month(s)` and `N year(s)`, bare or after `about`, `over` or
      `almost`, read "N months ago" and "N years ago". */
  lemma RelativeHedged(raw: string, h: string, d: string, word: string, pl: string, reference: int, clock: Clock)
    requires h in Hedges && d != [] && AllDigits(d) && word in {"month", "year"} && pl in {"", "s"}
    requires RelativeLower(raw) == h + d + (" " + word + pl)
    ensures ToRelativePostedDate(Some(raw), reference, clock) ==
            Some(d + if word == "month" then " months ago" else " years ago")
  {
    var lower := h + d + (" " + word + pl);
    HedgedText(h, d, word, pl);
    if word == "month" {
      AtHedgedMonth(lower, raw, reference, clock);
    } else {
      AtHedgedYear(lower, raw, reference, clock);
    }
  }

  lemma HedgedText(h: string, d: string, word: string, pl: string)
    requires h in Hedges && d != [] && AllDigits(d) && word in {"month", "year"} && pl in {"", "s"}
    ensures var s := h + d + (" " + word + pl);
      && !IsIsoShape(s) && DayCode(s).None? && DaysAgo(s).None?
      && HedgedAmount(s, "month") == (if word == "month" then Some(d) else None)
      && HedgedAmount(s, "year") == (if word == "year" then Some(d) else None)
  {
    var r := " " + word + pl;
    HedgedFirst(h, d, word, pl);
    UnitWords(word, pl);
    HedgedAmountAt(h, d, r, "month");
    HedgedAmountAt(h, d, r, "year");
  }

  /** The hedged rule reads the number after the hedge and decides on what
      follows it. */
  lemma HedgedAmountAt(h: string, d: string, r: string, word: string)
    requires h in Hedges && d != [] && AllDigits(d) && r != [] && !IsDigit(r[0])
    ensures HedgedAmount(h + d + r, word) == (if WordsTail(r, 0, word) == Some(|r|) then Some(d) else None)
  {
    WordsTailAfter(h + d, r, word);
    HedgedAfterHedge(h, d, r, word, WordsTail(r, 0, word));
  }

  lemma HedgedAfterHedge(h: string, d: string, r: string, word: string, t: Option<nat>)
    requires h in Hedges && d != [] && AllDigits(d) && r != [] && !IsDigit(r[0])
    requires WordsTail(h + d + r, |h + d|, word) == Offset(t, |h + d|)
    ensures HedgedAmount(h + d + r, word) == (if t == Some(|r|) then Some(d) else None)
  {
    HedgeStart(h, d, r);
    DigitsAt(h, d, r);
    HedgedAmountOf(h + d + r, word, |h|, |h| + |d|, Offset(t, |h + d|), d);
  }

  /** A hedged phrase is not caught by the day rules. */
  lemma HedgedFirst(h: string, d: string, word: string, pl: string)
    requires h in Hedges && d != [] && AllDigits(d) && word in {"month", "year"} && pl in {"", "s"}
    ensures var s := h + d + (" " + word + pl);
      !IsIsoShape(s) && DayCode(s).None? && DaysAgo(s).None?
  {
    var r := " " + word + pl;
    var s := h + d + r;
    assert s[|s| - 1] == r[|r| - 1];
    if h == "" {
      assert s == d + r;
      NumberDayCode(d, r);
      NumberDaysAgo(d, r);
      UnitWords(word, pl);
    } else {
      assert s[0] == h[0];
    }
  }

  /** How " month(s)" and " year(s)" fare after a number. */
  lemma UnitWords(word: string, pl: string)
    requires word in {"month", "year"} && pl in {"", "s"}
    ensures var r := " " + word + pl;
      && DaysAgoTail(r, 0).None?
      && WordsTail(r, 0, "month") == (if word == "month" then Some(|r|) else None)
      && WordsTail(r, 0, "year") == (if word == "year" then Some(|r|) else None)
  {
    var r := " " + word + pl;
    OneSpace(r, 0);
    Mismatch(r, 1, "day", 0);
    assert r[1..1 + |word|] == word;
    assert OptS(r, 1 + |word|) == |r|;
    if word == "month" { Mismatch(r, 1, "year", 0); } else { Mismatch(r, 1, "month", 0); }
  }

  /** `posted N unit(s) ago` reads "N unit(s) ago", the unit word as written. */
  lemma RelativePosted(raw: string, d: string, w: string, reference: int, clock: Clock)
    requires d != [] && AllDigits(d) && w in PostedUnits
    requires RelativeLower(raw) == "posted " + d + (" " + w + " ago")
    ensures ToRelativePostedDate(Some(raw), reference, clock) == Some(d + " " + w + " ago")
  {
    var lower := "posted " + d + (" " + w + " ago");
    PostedText(d, w);
    PostedFirst(lower);
    AtPosted(lower, raw, reference, clock);
  }

  /** Text starting with `posted ` fits none of the rules before that one. */
  lemma PostedFirst(s: string)
    requires |s| > 9 && s[..7] == "posted " && s[|s| - 1] == 'o'
    ensures !IsIsoShape(s) && DayCode(s).None? && DaysAgo(s).None?
    ensures HedgedAmount(s, "month").None? && HedgedAmount(s, "year").None?
    ensures s != "new" && s != "today" && s != "yesterday"
  {
    assert s[0] == 'p' && s[1] == 'o';
    Mismatch(s, 0, "about", 0);
    Mismatch(s, 0, "over", 1);
    Mismatch(s, 0, "almost", 0);
  }

  lemma PostedText(d: string, w: string)
    requires d != [] && AllDigits(d) && w in PostedUnits
    ensures PostedAgo("posted " + d + (" " + w + " ago")) == Some((d, w))
  {
    PostedTail(w);
    PostedTextOf(d, w, " " + w + " ago");
  }

  lemma PostedTextOf(d: string, w: string, r: string)
    requires d != [] && AllDigits(d) && r != [] && r[0] == ' ' && PostedUnitAgo(r, 0) == Some(w)
    ensures PostedAgo("posted " + d + r) == Some((d, w))
  {
    PostedUnitShifted(d, r, w);
    PostedAgoHead(d, r, w);
  }

  lemma PostedUnitShifted(d: string, r: string, w: string)
    requires PostedUnitAgo(r, 0) == Some(w)
    ensures PostedUnitAgo("posted " + d + r, |"posted " + d| + 0) == Some(w)
  {
    PostedUnitAgoShift("posted " + d, r, 0);
  }

  lemma PostedAgoHead(d: string, r: string, w: string)
    requires d != [] && AllDigits(d) && r != [] && !IsDigit(r[0])
    requires PostedUnitAgo("posted " + d + r, |"posted " + d| + 0) == Some(w)
    ensures PostedAgo("posted " + d + r) == Some((d, w))
  {
    PostedHead(d, r);
    PostedAgoGlue("posted " + d + r, d, w);
  }

  lemma PostedAgoGlue(s: string, d: string, w: string)
    requires 7 + |d| <= |s| && Word(s, 0, "posted") == Some(6) && Spaces1(s, 6) == Some(7)
    requires Digits1(s, 7) == Some(7 + |d|) && s[7..7 + |d|] == d
    requires PostedUnitAgo(s, 7 + |d|) == Some(w)
    ensures PostedAgo(s) == Some((d, w))
  {
    PostedAgoOf(s, 7, 7 + |d|, d, w);
  }

  /** `posted\s+(\d+)` at the start of `posted N…`. */
  lemma PostedHead(d: string, r: string)
    requires d != [] && AllDigits(d) && r != [] && !IsDigit(r[0])
    ensures var s := "posted " + d + r;
      && Word(s, 0, "posted") == Some(6) && Spaces1(s, 6) == Some(7)
      && Digits1(s, 7) == Some(7 + |d|) && s[7..7 + |d|] == d
  {
    var s := "posted " + d + r;
    assert s[..7] == "posted ";
    assert s[0..6] == s[..7][0..6];
    assert s[6] == ' ' && s[7] == d[0];
    OneSpace(s, 6);
    DigitsAt("posted ", d, r);
  }

  /** The text after the number of a `posted …` phrase. */
  lemma PostedTail(w: string)
    requires w in PostedUnits
    ensures PostedUnitAgo(" " + w + " ago", 0) == Some(w)
  {
    var t := w + " ago";
    assert " " + w + " ago" == " " + t;
    OneSpace(" " + t, 0);
    PostedUnitFromShift(" ", t, 0);
    UnitAgoWord(w);
  }

  /** A unit word followed by ` ago` and nothing else. */
  lemma UnitAgoWord(w: string)
    requires w in PostedUnits
    ensures PostedUnitFrom(w + " ago", 0) == Some(w)
  {
    var t := w + " ago";
    PostedUnitEndWord(w, " ago");
    AgoAfterWord(w);
    assert t[0..|w|] == w;
    PostedUnitFromOf(t, |w|, w);
  }

  lemma AgoAfterWord(w: string)
    ensures AgoEnd(w + " ago", |w|) == Some(|w| + 4)
  {
    AgoEndShift(w, " ago", 0);
    AgoAlone();
  }

  lemma AgoAlone()
    ensures AgoEnd(" ago", 0) == Some(4)
  {
    OneSpace(" ago", 0);
    assert " ago"[1..4] == "ago";
  }

  /** The unit alternation takes the whole of a unit word followed by a space. */
  lemma PostedUnitEndWord(w: string, rest: string)
    requires w in PostedUnits && rest != [] && rest[0] == ' '
    ensures PostedUnitEnd(w + rest, 0) == Some(|w|)
  {
    var s := w + rest;
    var st := PostedStem(w[0]);
    assert s[0] == w[0] && s[|w|] == ' ';
    assert w == st || w == st + "s";
    assert s[0..|st|] == w[0..|st|] == st;
    if w != st { assert s[|st|] == w[|st|] == 's'; }
  }

  /** "N months ago", "N years ago" and the hour and week phrases fit none of
      the rules: what they read as is up to `Date.parse`. */
  lemma RelativeLeftToParse(raw: string, d: string, w: string, reference: int, clock: Clock)
    requires d != [] && AllDigits(d) && w in AgoSuffixes - {" day ago", " days ago"}
    requires RelativeLower(raw) == d + w
    ensures ToRelativePostedDate(Some(raw), reference, clock) == FromParsed(clock, raw, reference)
  {
    LeftToParseText(d, w);
    NumberNotWords(d, w);
    AtParse(d + w, raw, reference, clock);
  }

  lemma LeftToParseText(d: string, w: string)
    requires d != [] && AllDigits(d) && w in AgoSuffixes - {" day ago", " days ago"}
    ensures !IsIsoShape(d + w) && DayCode(d + w).None? && DaysAgo(d + w).None?
    ensures HedgedAmount(d + w, "month").None? && HedgedAmount(d + w, "year").None?
    ensures DaysPlusAgo(d + w).None?
  {
    assert |w| >= 9 && w[0] == ' ' && w[1] in {'h', 'w', 'm', 'y'} && w[|w| - 1] == 'o';
    NumberDayCode(d, w);
    NumberDaysAgo(d, w);
    NumberHedged(d, w, "month");
    NumberHedged(d, w, "year");
    NumberPlusMiss(d, w);
    OtherAgoWords(w);
    assert (d + w)[|d + w| - 1] == 'o';
  }

  /** How the other "unit(s) ago" phrases fare after their number. */
  lemma OtherAgoWords(w: string)
    requires |w| >= 9 && w[0] == ' ' && w[1] in {'h', 'w', 'm', 'y'}
    ensures DaysAgoTail(w, 0).None? && Word(w, 0, "+").None?
    ensures WordsTail(w, 0, "month") != Some(|w|) && WordsTail(w, 0, "year") != Some(|w|)
  {
    OneSpace(w, 0);
    Mismatch(w, 1, "day", 0);
    Mismatch(w, 0, "+", 0);
  }

  /** `new` and `today` read "today", `yesterday` reads "yesterday", in any
      letter case and padding. */
  lemma RelativeKeywords(raw: string, reference: int, clock: Clock)
    requires RelativeLower(raw) in {"new", "today", "yesterday"}
    ensures ToRelativePostedDate(Some(raw), reference, clock) ==
            Some(if RelativeLower(raw) == "yesterday" then "yesterday" else "today")
  {
    var lower := RelativeLower(raw);
    KeywordText(lower);
    AtKeyword(lower, raw, reference, clock);
  }

  lemma KeywordText(s: string)
    requires s in {"new", "today", "yesterday"}
    ensures !IsIsoShape(s) && DayCode(s).None? && DaysAgo(s).None?
    ensures HedgedAmount(s, "month").None? && HedgedAmount(s, "year").None?
  {
    assert !IsDigit(s[0]) && !IsSpace(s[0]);
    Mismatch(s, 0, "about", 0);
    Mismatch(s, 0, "over", 0);
    Mismatch(s, 0, "almost", 0);
  }

  // -- one step of the chain each ------------------------------------------

  lemma AtDayCode(lower: string, raw: string, reference: int, clock: Clock)
    requires !IsIsoShape(lower) && DayCode(lower).Some?
    ensures RelativeText(lower, raw, reference, clock) == Some(DayCode(lower).value + " days ago")
  {
  }

  lemma AtDaysAgo(lower: string, raw: string, reference: int, clock: Clock)
    requires !IsIsoShape(lower) && DayCode(lower).None? && DaysAgo(lower).Some?
    ensures RelativeText(lower, raw, reference, clock) == Some(DaysAgo(lower).value + " days ago")
  {
  }

  lemma AtHedgedMonth(lower: string, raw: string, reference: int, clock: Clock)
    requires !IsIsoShape(lower) && DayCode(lower).None? && DaysAgo(lower).None?
    requires HedgedAmount(lower, "month").Some?
    ensures RelativeText(lower, raw, reference, clock) == Some(HedgedAmount(lower, "month").value + " months ago")
  {
  }

  lemma AtHedgedYear(lower: string, raw: string, reference: int, clock: Clock)
    requires !IsIsoShape(lower) && DayCode(lower).None? && DaysAgo(lower).None?
    requires HedgedAmount(lower, "month").None? && HedgedAmount(lower, "year").Some?
    ensures RelativeText(lower, raw, reference, clock) == Some(HedgedAmount(lower, "year").value + " years ago")
  {
  }

  lemma AtKeyword(lower: string, raw: string, reference: int, clock: Clock)
    requires !IsIsoShape(lower) && DayCode(lower).None? && DaysAgo(lower).None?
    requires HedgedAmount(lower, "month").None? && HedgedAmount(lower, "year").None?
    requires lower in {"new", "today", "yesterday"}
    ensures RelativeText(lower, raw, reference, clock) == Some(if lower == "yesterday" then "yesterday" else "today")
  {
  }

  lemma AtPosted(lower: string, raw: string, reference: int, clock: Clock)
    requires !IsIsoShape(lower) && DayCode(lower).None? && DaysAgo(lower).None?
    requires HedgedAmount(lower, "month").None? && HedgedAmount(lower, "year").None?
    requires lower != "new" && lower != "today" && lower != "yesterday"
    requires PostedAgo(lower).Some?
    ensures RelativeText(lower, raw, reference, clock) ==
            Some(PostedAgo(lower).value.0 + " " + PostedAgo(lower).value.1 + " ago")
  {
  }

  lemma AtDaysPlus(lower: string, raw: string, reference: int, clock: Clock)
    requires !IsIsoShape(lower) && DayCode(lower).None? && DaysAgo(lower).None?
    requires HedgedAmount(lower, "month").None? && HedgedAmount(lower, "year").None?
    requires lower != "new" && lower != "today" && lower != "yesterday"
    requires PostedAgo(lower).None? && DaysPlusAgo(lower).Some?
    ensures RelativeText(lower, raw, reference, clock) == Some(DaysPlusAgo(lower).value + " days ago")
  {
  }

  lemma AtParse(lower: string, raw: string, reference: int, clock: Clock)
    requires !IsIsoShape(lower) && DayCode(lower).None? && DaysAgo(lower).None?
    requires HedgedAmount(lower, "month").None? && HedgedAmount(lower, "year").None?
    requires lower != "new" && lower != "today" && lower != "yesterday"
    requires PostedAgo(lower).None? && DaysPlusAgo(lower).None?
    ensures RelativeText(lower, raw, reference, clock) == FromParsed(clock, raw, reference)
  {
  }

  /** Text in the ISO shape goes straight to `new Date(postedDate)`: `null`
      when that is invalid, the relative phrase for it otherwise, whatever
      the later rules would have read in it. */
  lemma RelativeIsoRule(raw: string, reference: int, clock: Clock)
    requires IsIsoShape(RelativeLower(raw))
    ensures ToRelativePostedDate(Some(raw), reference, clock) == FromParsed(clock, raw, reference)
    ensures clock.parse(raw).None? ==> ToRelativePostedDate(Some(raw), reference, clock).None?
  {
    assert Trim(raw) != "";
  }

  /** Text that no rule matches and `Date.parse` rejects gives `null`. */
  lemma RelativeUnmatched(raw: string, reference: int, clock: Clock)
    requires Trim(raw) != ""
    requires var lower := RelativeLower(raw);
      && !IsIsoShape(lower) && DayCode(lower).None? && DaysAgo(lower).None?
      && HedgedAmount(lower, "month").None? && HedgedAmount(lower, "year").None?
      && lower != "new" && lower != "today" && lower != "yesterday"
      && PostedAgo(lower).None? && DaysPlusAgo(lower).None?
    requires clock.parse(raw).None?
    ensures ToRelativePostedDate(Some(raw), reference, clock).None?
  {
    AtParse(RelativeLower(raw), raw, reference, clock);
  }

  // -- what comes out ------------------------------------------------------

  lemma PhraseOfNumber(d: string, suffix: string)
    requires d != [] && AllDigits(d) && suffix in AgoSuffixes
    ensures IsRelativePhrase(d + suffix)
  {
    assert [] + d + suffix == d + suffix;
    DigitsAt([], d, suffix);
    assert (d + suffix)[|d|..] == suffix;
  }

  lemma PostedSuffix(w: string)
    requires w in PostedUnits
    ensures " " + w + " ago" in AgoSuffixes
  {
    if w == "hour" { assert " " + w + " ago" == " hour ago"; }
    else if w == "hours" { assert " " + w + " ago" == " hours ago"; }
    else if w == "day" { assert " " + w + " ago" == " day ago"; }
    else if w == "days" { assert " " + w + " ago" == " days ago"; }
    else if w == "week" { assert " " + w + " ago" == " week ago"; }
    else if w == "weeks" { assert " " + w + " ago" == " weeks ago"; }
    else if w == "month" { assert " " + w + " ago" == " month ago"; }
    else if w == "months" { assert " " + w + " ago" == " months ago"; }
    else if w == "year" { assert " " + w + " ago" == " year ago"; }
    else { assert " " + w + " ago" == " years ago"; }
  }

  /** `getRelativeFromDates` always answers with a relative phrase. */
  lemma RelativeFromDatesIsPhrase(date: int, reference: int)
    ensures IsRelativePhrase(RelativeFromDates(date, reference))
  {
    var days := ElapsedDays(date, reference);
    if days >= 2 {
      var n := if days < 30 then days else if days / 30 < 12 then days / 30 else days / 30 / 12;
      var suffix := if days < 30 then " days ago" else if days / 30 < 12 then " months ago" else " years ago";
      PhraseOfNumber(NatToString(n), suffix);
    }
  }

  /** Whatever the text, `toRelativePostedDate` answers `null` or one of the
      relative phrases; against an Invalid Date reference, a date left to
      `Date.parse` reads as `NaN years ago` instead. */
  lemma RelativeIsPhrase(postedDate: Option<string>, reference: int, clock: Clock)
    ensures InRange(reference) && ToRelativePostedDate(postedDate, reference, clock).Some? ==>
            IsRelativePhrase(ToRelativePostedDate(postedDate, reference, clock).value)
    ensures !InRange(reference) && ToRelativePostedDate(postedDate, reference, clock).Some? ==>
            IsRelativePhrase(ToRelativePostedDate(postedDate, reference, clock).value)
            || ToRelativePostedDate(postedDate, reference, clock).value == "NaN years ago"
  {
    if postedDate.Some? && Trim(postedDate.value) != "" {
      TextIsPhrase(RelativeLower(postedDate.value), postedDate.value, reference, clock);
    }
  }

  lemma TextIsPhrase(lower: string, raw: string, reference: int, clock: Clock)
    ensures InRange(reference) && RelativeText(lower, raw, reference, clock).Some? ==>
            IsRelativePhrase(RelativeText(lower, raw, reference, clock).value)
    ensures !InRange(reference) && RelativeText(lower, raw, reference, clock).Some? ==>
            IsRelativePhrase(RelativeText(lower, raw, reference, clock).value)
            || RelativeText(lower, raw, reference, clock).value == "NaN years ago"
  {
    if IsIsoShape(lower) {
      ParsedIsPhrase(raw, reference, clock);
    } else if DayCode(lower).Some? {
      AnswerIsPhrase(RelativeText(lower, raw, reference, clock), DayCode(lower).value, " days ago");
    } else if DaysAgo(lower).Some? {
      AnswerIsPhrase(RelativeText(lower, raw, reference, clock), DaysAgo(lower).value, " days ago");
    } else if HedgedAmount(lower, "month").Some? {
      AnswerIsPhrase(RelativeText(lower, raw, reference, clock), HedgedAmount(lower, "month").value, " months ago");
    } else if HedgedAmount(lower, "year").Some? {
      AnswerIsPhrase(RelativeText(lower, raw, reference, clock), HedgedAmount(lower, "year").value, " years ago");
    } else if lower == "new" || lower == "today" || lower == "yesterday" {
    } else if PostedAgo(lower).Some? {
      PostedIsPhrase(lower, RelativeText(lower, raw, reference, clock));
    } else if DaysPlusAgo(lower).Some? {
      AnswerIsPhrase(RelativeText(lower, raw, reference, clock), DaysPlusAgo(lower).value, " days ago");
    } else {
      ParsedIsPhrase(raw, reference, clock);
    }
  }

  /** What `Date.parse` leads to is a phrase. */
  lemma ParsedIsPhrase(raw: string, reference: int, clock: Clock)
    ensures InRange(reference) && FromParsed(clock, raw, reference).Some? ==>
            IsRelativePhrase(FromParsed(clock, raw, reference).value)
    ensures !InRange(reference) && FromParsed(clock, raw, reference).Some? ==>
            FromParsed(clock, raw, reference).value == "NaN years ago"
  {
  }
  /** A number and one of the suffixes is a phrase. */
  lemma AnswerIsPhrase(t: Option<string>, d: string, suffix: string)
    requires d != [] && AllDigits(d) && suffix in AgoSuffixes && t == Some(d + suffix)
    ensures IsRelativePhrase(t.value)
  {
    PhraseOfNumber(d, suffix);
  }

  /** The `posted … ago` rule answers a phrase. */
  lemma PostedIsPhrase(lower: string, t: Option<string>)
    requires PostedAgo(lower).Some?
    requires t == Some(PostedAgo(lower).value.0 + " " + PostedAgo(lower).value.1 + " ago")
    ensures IsRelativePhrase(t.value)
  {
    var (d, w) := PostedAgo(lower).value;
    PostedAgoUnit(lower);
    assert d + " " + w + " ago" == d + (" " + w + " ago");
    PostedSuffix(w);
    PhraseOfNumber(d, " " + w + " ago");
  }

  /** The canonical phrases `today` and `yesterday` read as themselves. */
  lemma CanonicalKeywords(reference: int, clock: Clock)
    ensures ToRelativePostedDate(Some("today"), reference, clock) == Some("today")
    ensures ToRelativePostedDate(Some("yesterday"), reference, clock) == Some("yesterday")
  {
    KeywordPhraseText("today", reference, clock);
    KeywordPhraseText("yesterday", reference, clock);
  }

  lemma KeywordPhraseText(p: string, reference: int, clock: Clock)
    requires p in {"today", "yesterday"}
    ensures RelativeLower(p) == p && RelativeText(p, p, reference, clock) == Some(p)
  {
    KeywordText(p);
    AtKeyword(p, p, reference, clock);
    KeywordLower(p);
  }

  lemma KeywordLower(p: string)
    requires p in {"today", "yesterday"}
    ensures RelativeLower(p) == p
  {
    assert IsLower(p) && !IsSpace(p[0]) && !IsSpace(p[|p| - 1]);
    RelativeLowerAsWritten(p);
  }

  /** The canonical phrase "N days ago" reads as itself. */
  lemma CanonicalDays(d: string, reference: int, clock: Clock)
    requires d != [] && AllDigits(d)
    ensures ToRelativePostedDate(Some(d + " days ago"), reference, clock) == Some(d + " days ago")
  {
    DaysPhraseText(d, reference, clock);
  }

  lemma DaysPhraseText(d: string, reference: int, clock: Clock)
    requires d != [] && AllDigits(d)
    ensures var p := d + " days ago";
      RelativeLower(p) == p && RelativeText(p, p, reference, clock) == Some(p)
  {
    var p := d + " days ago";
    assert " days ago" == " day" + "s" + " ago";
    DaysAgoText(d, "s");
    AtDaysAgo(p, p, reference, clock);
    DigitsLower(d, " days ago");
  }

  /** The canonical phrases "N months ago" and "N years ago" fit no rule and
      are left to `Date.parse`: unlike the others they are not guaranteed to
      read as themselves. */
  lemma CanonicalMonthsYears(d: string, reference: int, clock: Clock)
    requires d != [] && AllDigits(d)
    ensures ToRelativePostedDate(Some(d + " months ago"), reference, clock) == FromParsed(clock, d + " months ago", reference)
    ensures ToRelativePostedDate(Some(d + " years ago"), reference, clock) == FromParsed(clock, d + " years ago", reference)
  {
    LeftToParseCanonical(d, " months ago", reference, clock);
    LeftToParseCanonical(d, " years ago", reference, clock);
  }

  lemma LeftToParseCanonical(d: string, w: string, reference: int, clock: Clock)
    requires d != [] && AllDigits(d) && w in {" months ago", " years ago"}
    ensures ToRelativePostedDate(Some(d + w), reference, clock) == FromParsed(clock, d + w, reference)
  {
    LeftToParsePhrase(d, w, reference, clock);
  }

  lemma LeftToParsePhrase(d: string, w: string, reference: int, clock: Clock)
    requires d != [] && AllDigits(d) && w in {" months ago", " years ago"}
    ensures RelativeLower(d + w) == d + w
    ensures RelativeText(d + w, d + w, reference, clock) == FromParsed(clock, d + w, reference)
  {
    var s := d + w;
    LeftToParseText(d, w);
    NumberNotWords(d, w);
    AtParse(s, s, reference, clock);
    DigitsLower(d, w);
  }

  lemma DigitsLower(d: string, w: string)
    requires d != [] && AllDigits(d) && w in AgoSuffixes
    ensures RelativeLower(d + w) == d + w
  {
    var s := d + w;
    assert IsLower(s) by {
      forall k | 0 <= k < |s| ensures !('A' <= s[k] <= 'Z') {
        if k < |d| { assert s[k] == d[k]; } else { assert s[k] == w[k - |d|]; }
      }
    }
    assert s[0] == d[0] && s[|s| - 1] == 'o';
    RelativeLowerAsWritten(s);
  }

  /** A date less than 30 days back reads as a phrase that reads as itself. */
  lemma RecentPhraseFixed(date: int, reference: int, later: int, clock: Clock)
    requires ElapsedDays(date, reference) < 30
    ensures var p := RelativeFromDates(date, reference);
      ToRelativePostedDate(Some(p), later, clock) == Some(p)
  {
    var days := ElapsedDays(date, reference);
    var p := RelativeFromDates(date, reference);
    if days >= 2 {
      FixedDays(p, NatToString(days), later, clock);
    } else {
      FixedKeyword(p, later, clock);
    }
  }

  lemma FixedDays(p: string, d: string, reference: int, clock: Clock)
    requires d != [] && AllDigits(d) && p == d + " days ago"
    ensures ToRelativePostedDate(Some(p), reference, clock) == Some(p)
  {
    CanonicalDays(d, reference, clock);
  }

  lemma FixedKeyword(p: string, reference: int, clock: Clock)
    requires p == "today" || p == "yesterday"
    ensures ToRelativePostedDate(Some(p), reference, clock) == Some(p)
  {
    CanonicalKeywords(reference, clock);
  }
}
