/** The regular expressions of the posted-date normaliser (JobScraper.ts,
    `standardizePostedDate` and `toRelativePostedDate`), written out as
    matchers over lower-cased text.

    Every pattern here is deterministic in the sense that matters: a `\d+`
    is always followed by something that is not a digit, a `\s*`/`\s+` by
    something that is not white space, and an optional `s?` by something
    that cannot start with `s`, so backtracking never finds a second way to
    match, and the greedy reading below is the regex engine's reading. */
module DatePatterns {
  import opened Wrappers
  import opened Text

  datatype Unit = Second | Minute | Hour | Day | Week | Month | Year

  /** The position after the white space that starts at `i` (`\s*`). */
  function SkipSpaces(s: string, i: nat): (j: nat)
    requires i <= |s|
    ensures i <= j <= |s|
    ensures j < |s| ==> !IsSpace(s[j])
    decreases |s| - i
  {
    if i < |s| && IsSpace(s[i]) then SkipSpaces(s, i + 1) else i
  }

  /** The position after the decimal digits that start at `i` (`\d*`). */
  function SkipDigits(s: string, i: nat): (j: nat)
    requires i <= |s|
    ensures i <= j <= |s|
    ensures AllDigits(s[i..j])
    ensures j < |s| ==> !IsDigit(s[j])
    decreases |s| - i
  {
    if i < |s| && IsDigit(s[i]) then SkipDigits(s, i + 1) else i
  }

  predicate HasAt(s: string, i: nat, w: string) {
    i + |w| <= |s| && s[i..i + |w|] == w
  }

  /** A position found in `r`, seen from the text `a + r` when `|a| == n`. */
  function Offset(o: Option<nat>, n: nat): Option<nat> {
    if o.None? then None else Some(o.value + n)
  }

  /** The literal `w` at `i`, and the position after it. */
  function Word(s: string, i: nat, w: string): (r: Option<nat>)
    ensures r.Some? ==> r.value == i + |w| <= |s|
  {
    if HasAt(s, i, w) then Some(i + |w|) else None
  }

  /** `\s+` at `i`. */
  function Spaces1(s: string, i: nat): (r: Option<nat>)
    requires i <= |s|
    ensures r.Some? ==> i < r.value <= |s|
  {
    var j := SkipSpaces(s, i);
    if j > i then Some(j) else None
  }

  /** `(\d+)` at `i`. */
  function Digits1(s: string, i: nat): (r: Option<nat>)
    requires i <= |s|
    ensures r.Some? ==> i < r.value <= |s| && AllDigits(s[i..r.value])
  {
    var j := SkipDigits(s, i);
    if j > i then Some(j) else None
  }

  /** `s?` at `i`. */
  function OptS(s: string, i: nat): (j: nat)
    requires i <= |s|
    ensures i <= j <= |s|
  {
    if i < |s| && s[i] == 's' then i + 1 else i
  }

  /** The alternation `(day|month|year|week|hour|minute|second)` at `i`: the
      unit named and the position after its word. Only `month` and `minute`
      share a first letter, so the first letter picks the candidate words. */
  function UnitWordAt(s: string, i: nat): (r: Option<(Unit, nat)>)
    ensures r.Some? ==> i < r.value.1 <= |s|
  {
    if i >= |s| then None
    else if s[i] == 'd' then (if HasAt(s, i, "day") then Some((Day, i + 3)) else None)
    else if s[i] == 'm' then
      (if HasAt(s, i, "month") then Some((Month, i + 5))
       else if HasAt(s, i, "minute") then Some((Minute, i + 6))
       else None)
    else if s[i] == 'y' then (if HasAt(s, i, "year") then Some((Year, i + 4)) else None)
    else if s[i] == 'w' then (if HasAt(s, i, "week") then Some((Week, i + 4)) else None)
    else if s[i] == 'h' then (if HasAt(s, i, "hour") then Some((Hour, i + 4)) else None)
    else if s[i] == 's' then (if HasAt(s, i, "second") then Some((Second, i + 6)) else None)
    else None
  }

  /** The word each unit is spelt with. */
  function UnitWord(u: Unit): (w: string)
    ensures |w| >= 3 && !IsSpace(w[0]) && !IsSpace(w[|w| - 1])
  {
    match u
    case Second => "second"
    case Minute => "minute"
    case Hour => "hour"
    case Day => "day"
    case Week => "week"
    case Month => "month"
    case Year => "year"
  }

  // ---------------------------------------------------------------------
  // The three unanchored searches of standardizePostedDate
  // ---------------------------------------------------------------------

  datatype Pattern =
    | Ago        // /(\d+)\s*(day|month|year|week|hour|minute|second)s?\s*ago/
    | Shorthand  // /(\d+)\s*(d|day|days|m|month|months|y|year|years)/
    | Hedged     // /(about|over|almost)?\s*(\d+)\s*(day|month|year|week|hour|minute|second)s?/

  /** What the pattern demands after its digit group, tried at `j`, the end
      of the digits; the unit it captures. The shorthand alternation lists
      `d`, `m` and `y` before the longer words, and the code only looks at the
      first letter of the capture, so a `d`, `m` or `y` after the digits is
      all that is needed. */
  function Tail(p: Pattern, s: string, j: nat): Option<Unit>
    requires j <= |s|
  {
    var k := SkipSpaces(s, j);
    match p
    case Ago => AgoTail(s, k)
    case Shorthand => ShorthandLetter(s, k)
    case Hedged => HedgedTail(s, k)
  }

  /** `(day|…|second)s?` at `k`: the unit. */
  function HedgedTail(s: string, k: nat): Option<Unit> {
    if UnitWordAt(s, k).Some? then Some(UnitWordAt(s, k).value.0) else None
  }

  /** `(day|…|second)s?\s*ago` at `k`. */
  function AgoTail(s: string, k: nat): Option<Unit>
    requires k <= |s|
  {
    match UnitWordAt(s, k)
    case None => None
    case Some((u, e)) => if AgoAfter(s, e) then Some(u) else None
  }

  /** `s?\s*ago` at `e`. */
  predicate AgoAfter(s: string, e: nat)
    requires e <= |s|
  {
    HasAt(s, SkipSpaces(s, OptS(s, e)), "ago")
  }

  /** `(d|day|days|m|month|months|y|year|years)` at `k`: its first letter decides. */
  function ShorthandLetter(s: string, k: nat): Option<Unit> {
    if k < |s| && s[k] == 'd' then Some(Day)
    else if k < |s| && s[k] == 'm' then Some(Month)
    else if k < |s| && s[k] == 'y' then Some(Year)
    else None
  }

  /** The unit the shorthand pattern reads from the word of `u`, by its
      first letter: `minute` starts with the `m` of months. */
  function ShorthandReading(u: Unit): Unit {
    if u == Minute then Month else u
  }

  /** A match: where the digit group starts, its `parseInt` value, the unit. */
  datatype Capture = Capture(start: nat, value: nat, unit: Unit)

  /** The pattern with its digit group starting at `q`. */
  function MatchAt(p: Pattern, s: string, q: nat): Option<Capture>
  {
    if q < |s| && IsDigit(s[q]) then
      var j := SkipDigits(s, q);
      match Tail(p, s, j)
      case None => None
      case Some(u) => Some(Capture(q, DecimalValue(s[q..j]), u))
    else None
  }

  /** The leftmost match at or after `i`, as `String.prototype.match` finds
      without the `g` flag. For the hedged pattern the match may begin a few
      characters earlier (at an `about`, `over`, `almost` or white space),
      but its captures are those of the first position where a digit group
      matches, which is what is searched for here. */
  function SearchFrom(p: Pattern, s: string, i: nat): (r: Option<Capture>)
    requires i <= |s|
    ensures r.Some? ==> i <= r.value.start < |s| && MatchAt(p, s, r.value.start) == r
    ensures r.Some? ==> forall q :: i <= q < r.value.start ==> MatchAt(p, s, q).None?
    ensures r.None? ==> forall q :: i <= q < |s| ==> MatchAt(p, s, q).None?
    decreases |s| - i
  {
    if i == |s| then None
    else if MatchAt(p, s, i).Some? then MatchAt(p, s, i)
    else SearchFrom(p, s, i + 1)
  }

  function Search(p: Pattern, s: string): Option<Capture> {
    SearchFrom(p, s, 0)
  }

  // ---------------------------------------------------------------------
  // The anchored patterns of toRelativePostedDate
  // ---------------------------------------------------------------------

  /** `/^\d{4}-\d{2}-\d{2}t\d{2}:\d{2}:\d{2}\.\d{3}z$/` */
  predicate IsIsoShape(s: string) {
    && |s| == 24
    && s[4] == '-' && s[7] == '-' && s[10] == 't' && s[13] == ':' && s[16] == ':'
    && s[19] == '.' && s[23] == 'z'
    && forall k :: 0 <= k < 23 && k != 4 && k != 7 && k != 10 && k != 13 && k != 16 && k != 19
                   ==> IsDigit(s[k])
  }

  /** `/^(\d+)d$/`: the digits. */
  function DayCode(s: string): (r: Option<string>)
    ensures r.Some? ==> r.value != [] && AllDigits(r.value)
    ensures r.Some? ==> s == r.value + "d"
  {
    var j :- Digits1(s, 0);
    if j + 1 == |s| && s[j] == 'd' then Some(s[..j]) else None
  }

  /** `\s+days?\s+ago` at `i`, and the position after it. */
  function DaysAgoTail(s: string, i: nat): Option<nat>
    requires i <= |s|
  {
    var a :- Spaces1(s, i);
    DayAgoFrom(s, a)
  }

  /** `days?\s+ago` at `a`, and the position after it. */
  function DayAgoFrom(s: string, a: nat): Option<nat>
    requires a <= |s|
  {
    var b :- Word(s, a, "day");
    SpacedAgo(s, OptS(s, b))
  }

  /** `\s+ago` at `i`, and the position after it. */
  function SpacedAgo(s: string, i: nat): Option<nat>
    requires i <= |s|
  {
    var c :- Spaces1(s, i);
    Word(s, c, "ago")
  }

  /** `/^(\d+)\s+days?\s+ago$/`: the digits. */
  function DaysAgo(s: string): (r: Option<string>)
    ensures r.Some? ==> r.value != [] && AllDigits(r.value)
  {
    var j :- Digits1(s, 0);
    var e :- DaysAgoTail(s, j);
    if e == |s| then Some(s[..j]) else None
  }

  /** `/^(\d+)\+\s+days?\s+ago$/`: the digits. */
  function DaysPlusAgo(s: string): (r: Option<string>)
    ensures r.Some? ==> r.value != [] && AllDigits(r.value)
  {
    var j :- Digits1(s, 0);
    var p :- Word(s, j, "+");
    var e :- DaysAgoTail(s, p);
    if e == |s| then Some(s[..j]) else None
  }

  /** The optional hedge `(about|over|almost)` at the start: its length. */
  function HedgeEnd(s: string): (n: nat)
    ensures n <= |s|
  {
    if HasAt(s, 0, "about") then 5
    else if HasAt(s, 0, "over") then 4
    else if HasAt(s, 0, "almost") then 6
    else 0
  }

  /** `/^(about|over|almost)?\s*(\d+)\s+<word>s?$/` for `<word>` `month` or
      `year`: the digits. */
  function HedgedAmount(s: string, word: string): (r: Option<string>)
    ensures r.Some? ==> r.value != [] && AllDigits(r.value)
  {
    var k := SkipSpaces(s, HedgeEnd(s));
    var j :- Digits1(s, k);
    var e :- WordsTail(s, j, word);
    if e == |s| then Some(s[k..j]) else None
  }

  /** `\s+<word>s?` at `j`, and the position after it. */
  function WordsTail(s: string, j: nat, word: string): Option<nat>
    requires j <= |s|
  {
    var a :- Spaces1(s, j);
    var b :- Word(s, a, word);
    Some(OptS(s, b))
  }

  const PostedUnits: set<string> :=
    {"hour", "hours", "day", "days", "week", "weeks", "month", "months", "year", "years"}

  /** The unit word of `(hours?|days?|weeks?|months?|years?)` that starts
      with `c`, without its `s`; empty when none does. */
  function PostedStem(c: char): string
  {
    if c == 'h' then "hour" else if c == 'd' then "day" else if c == 'w' then "week"
    else if c == 'm' then "month" else if c == 'y' then "year" else ""
  }

  /** `(hours?|days?|weeks?|months?|years?)` at `i`: the position after it.
      The five words start with different letters, so the first letter picks
      the word, and `s?` takes an `s` if one follows. */
  function PostedUnitEnd(s: string, i: nat): (r: Option<nat>)
    ensures r.Some? ==> i < r.value <= |s|
  {
    if i >= |s| then None
    else
      var w := PostedStem(s[i]);
      if w != [] && HasAt(s, i, w) then Some(OptS(s, i + |w|)) else None
  }

  /** `/^posted\s+(\d+)\s+(hours?|days?|weeks?|months?|years?)\s+ago$/`:
      the digits and the unit word as written. */
  function PostedAgo(s: string): (r: Option<(string, string)>)
    ensures r.Some? ==> r.value.0 != [] && AllDigits(r.value.0)
  {
    var a :- Word(s, 0, "posted");
    var b :- Spaces1(s, a);
    var j :- Digits1(s, b);
    var w :- PostedUnitAgo(s, j);
    Some((s[b..j], w))
  }

  /** `\s+(hours?|days?|weeks?|months?|years?)\s+ago$` from `j`: the unit
      word as written. */
  function PostedUnitAgo(s: string, j: nat): Option<string>
    requires j <= |s|
  {
    var c :- Spaces1(s, j);
    PostedUnitFrom(s, c)
  }

  /** `(hours?|days?|weeks?|months?|years?)\s+ago$` from `c`. */
  function PostedUnitFrom(s: string, c: nat): Option<string>
    requires c <= |s|
  {
    var u :- PostedUnitEnd(s, c);
    var e :- AgoEnd(s, u);
    if e == |s| then Some(s[c..u]) else None
  }

  /** `\s+ago` from `u`: the position after it. */
  function AgoEnd(s: string, u: nat): Option<nat>
    requires u <= |s|
  {
    var v :- Spaces1(s, u);
    Word(s, v, "ago")
  }

  // ---------------------------------------------------------------------
  // Reading the matchers on text built from pieces
  // ---------------------------------------------------------------------

  /** `SkipDigits` stops exactly at the end of a digit run. */
  lemma {:induction false} SkipDigitsOver(s: string, i: nat, j: nat)
    requires i <= j <= |s| && AllDigits(s[i..j])
    requires j < |s| ==> !IsDigit(s[j])
    ensures SkipDigits(s, i) == j
    decreases j - i
  {
    if i < j {
      assert s[i] == s[i..j][0];
      assert s[i + 1..j] == s[i..j][1..];
      SkipDigitsOver(s, i + 1, j);
    }
  }

  /** Skipping white space inside the second half of `a + r` is skipping it in `r`. */
  lemma {:induction false} SkipSpacesShift(a: string, r: string, i: nat)
    requires i <= |r|
    ensures SkipSpaces(a + r, |a| + i) == |a| + SkipSpaces(r, i)
    decreases |r| - i
  {
    if i < |r| {
      assert (a + r)[|a| + i] == r[i];
      if IsSpace(r[i]) { SkipSpacesShift(a, r, i + 1); }
    }
  }

  lemma HasAtShift(a: string, r: string, i: nat, w: string)
    ensures HasAt(a + r, |a| + i, w) == HasAt(r, i, w)
  {
    if i + |w| <= |r| {
      assert (a + r)[|a| + i..|a| + i + |w|] == r[i..i + |w|];
    }
  }

  lemma UnitWordAtShift(a: string, r: string, i: nat)
    ensures UnitWordAt(a + r, |a| + i) ==
      if UnitWordAt(r, i).Some? then Some((UnitWordAt(r, i).value.0, |a| + UnitWordAt(r, i).value.1)) else None
  {
    if i < |r| {
      assert (a + r)[|a| + i] == r[i];
      var c := r[i];
      if c == 'd' { HasAtShift(a, r, i, "day"); }
      else if c == 'm' { HasAtShift(a, r, i, "month"); HasAtShift(a, r, i, "minute"); }
      else if c == 'y' { HasAtShift(a, r, i, "year"); }
      else if c == 'w' { HasAtShift(a, r, i, "week"); }
      else if c == 'h' { HasAtShift(a, r, i, "hour"); }
      else if c == 's' { HasAtShift(a, r, i, "second"); }
    }
  }

  /** What a pattern demands after its digits can be read off the text that
      follows them. */
  lemma AgoTailShift(a: string, r: string, k: nat)
    requires k <= |r|
    ensures AgoTail(a + r, |a| + k) == AgoTail(r, k)
  {
    UnitWordAtShift(a, r, k);
    var w := UnitWordAt(r, k);
    if w.Some? {
      AgoAfterShift(a, r, w.value.1);
    }
  }

  lemma AgoAfterShift(a: string, r: string, e: nat)
    requires e <= |r|
    ensures AgoAfter(a + r, |a| + e) == AgoAfter(r, e)
  {
    OptSShift(a, r, e);
    SkipSpacesShift(a, r, OptS(r, e));
    HasAtShift(a, r, SkipSpaces(r, OptS(r, e)), "ago");
  }

  lemma ShorthandLetterShift(a: string, r: string, k: nat)
    requires k <= |r|
    ensures ShorthandLetter(a + r, |a| + k) == ShorthandLetter(r, k)
  {
    if k < |r| { assert (a + r)[|a| + k] == r[k]; }
  }

  lemma HedgedTailShift(a: string, r: string, k: nat)
    requires k <= |r|
    ensures HedgedTail(a + r, |a| + k) == HedgedTail(r, k)
  {
    UnitWordAtShift(a, r, k);
  }

  lemma TailShift(p: Pattern, a: string, r: string, j: nat)
    requires j <= |r|
    ensures Tail(p, a + r, |a| + j) == Tail(p, r, j)
  {
    var k := SkipSpaces(r, j);
    SkipSpacesShift(a, r, j);
    match p
    case Shorthand => ShorthandLetterShift(a, r, k);
    case Hedged => HedgedTailShift(a, r, k);
    case Ago => AgoTailShift(a, r, k);
  }

  /** In text holding one run of digits, `s[i..j]`, every pattern's leftmost
      match is the one whose digit group is that run, if the run's tail fits. */
  lemma SearchSingleNumber(p: Pattern, s: string, i: nat, j: nat)
    requires i < j <= |s| && AllDigits(s[i..j])
    requires forall k :: 0 <= k < i ==> !IsDigit(s[k])
    requires forall k :: j <= k < |s| ==> !IsDigit(s[k])
    ensures Tail(p, s, j).None? ==> Search(p, s).None?
    ensures Tail(p, s, j).Some? ==> Search(p, s) == Some(Capture(i, DecimalValue(s[i..j]), Tail(p, s, j).value))
  {
    var r := Search(p, s);
    if Tail(p, s, j).None? {
      if r.Some? {
        var q := r.value.start;
        if i <= q < j { MatchInRun(p, s, i, j, q); }
        assert false;
      }
    } else {
      MatchInRun(p, s, i, j, i);
      assert r.Some?;
      assert r.value.start <= i;
      assert MatchAt(p, s, r.value.start).Some?;
    }
  }

  /** Inside a run of digits every start position reaches the run's end. */
  lemma MatchInRun(p: Pattern, s: string, i: nat, j: nat, q: nat)
    requires i <= q < j <= |s| && AllDigits(s[i..j])
    requires j < |s| ==> !IsDigit(s[j])
    ensures IsDigit(s[q]) && SkipDigits(s, q) == j
    ensures MatchAt(p, s, q).Some? <==> Tail(p, s, j).Some?
    ensures MatchAt(p, s, q).Some? ==> MatchAt(p, s, q).value == Capture(q, DecimalValue(s[q..j]), Tail(p, s, j).value)
  {
    assert s[q] == s[i..j][q - i];
    assert s[q..j] == s[i..j][q - i..];
    SkipDigitsOver(s, q, j);
  }

  /** Only text containing `ago` matches the "N unit ago" pattern. */
  lemma AgoNeedsAgo(s: string, q: nat)
    requires MatchAt(Ago, s, q).Some?
    ensures exists x :: HasAt(s, x, "ago")
  {
    var k := SkipSpaces(s, SkipDigits(s, q));
    var e := UnitWordAt(s, k).value.1;
    assert HasAt(s, SkipSpaces(s, OptS(s, e)), "ago");
  }

  lemma Spaces1Shift(a: string, r: string, i: nat)
    requires i <= |r|
    ensures Spaces1(a + r, |a| + i) ==
      Offset(Spaces1(r, i), |a|)
  {
    SkipSpacesShift(a, r, i);
  }

  lemma WordShift(a: string, r: string, i: nat, w: string)
    ensures Word(a + r, |a| + i, w) ==
      Offset(Word(r, i, w), |a|)
  {
    HasAtShift(a, r, i, w);
  }

  lemma OptSShift(a: string, r: string, i: nat)
    requires i <= |r|
    ensures OptS(a + r, |a| + i) == |a| + OptS(r, i)
  {
    if i < |r| { assert (a + r)[|a| + i] == r[i]; }
  }

  lemma DaysAgoTailShift(a: string, r: string, i: nat)
    requires i <= |r|
    ensures DaysAgoTail(a + r, |a| + i) ==
      Offset(DaysAgoTail(r, i), |a|)
  {
    Spaces1Shift(a, r, i);
    var x := Spaces1(r, i);
    if x.Some? {
      DayAgoFromShift(a, r, x.value);
    }
  }

  lemma DayAgoFromShift(a: string, r: string, x: nat)
    requires x <= |r|
    ensures DayAgoFrom(a + r, |a| + x) ==
      Offset(DayAgoFrom(r, x), |a|)
  {
    WordShift(a, r, x, "day");
    var y := Word(r, x, "day");
    if y.Some? {
      OptSShift(a, r, y.value);
      SpacedAgoShift(a, r, OptS(r, y.value));
    }
  }

  lemma SpacedAgoShift(a: string, r: string, i: nat)
    requires i <= |r|
    ensures SpacedAgo(a + r, |a| + i) ==
      Offset(SpacedAgo(r, i), |a|)
  {
    Spaces1Shift(a, r, i);
    var z := Spaces1(r, i);
    if z.Some? {
      WordShift(a, r, z.value, "ago");
    }
  }

  // -- the anchored matchers, one step at a time ---------------------------

  lemma DaysAgoOf(s: string, j: nat, e: Option<nat>, x: string)
    requires Digits1(s, 0) == Some(j) && DaysAgoTail(s, j) == e && s[..j] == x
    ensures DaysAgo(s) == (if e == Some(|s|) then Some(x) else None)
  {
  }

  lemma DaysPlusAgoOf(s: string, j: nat, p: Option<nat>, e: Option<nat>, x: string)
    requires Digits1(s, 0) == Some(j) && Word(s, j, "+") == p && s[..j] == x
    requires p.Some? ==> DaysAgoTail(s, p.value) == e
    ensures DaysPlusAgo(s) == (if p.Some? && e == Some(|s|) then Some(x) else None)
  {
  }

  lemma HedgedAmountOf(s: string, word: string, k: nat, j: nat, e: Option<nat>, x: string)
    requires SkipSpaces(s, HedgeEnd(s)) == k && Digits1(s, k) == Some(j) && WordsTail(s, j, word) == e
    requires s[k..j] == x
    ensures HedgedAmount(s, word) == (if e == Some(|s|) then Some(x) else None)
  {
  }

  lemma PostedAgoOf(s: string, b: nat, j: nat, x: string, w: string)
    requires Word(s, 0, "posted") == Some(6) && Spaces1(s, 6) == Some(b) && Digits1(s, b) == Some(j)
    requires s[b..j] == x && PostedUnitAgo(s, j) == Some(w)
    ensures PostedAgo(s) == Some((x, w))
  {
  }

  lemma PostedUnitFromOf(s: string, u: nat, x: string)
    requires PostedUnitEnd(s, 0) == Some(u) && AgoEnd(s, u) == Some(|s|) && s[0..u] == x
    ensures PostedUnitFrom(s, 0) == Some(x)
  {
  }

  /** A literal is not at `i` when one of its characters differs there. */
  lemma Mismatch(s: string, i: nat, w: string, k: nat)
    requires k < |w| && i + k < |s| && s[i + k] != w[k]
    ensures !HasAt(s, i, w) && Word(s, i, w).None?
  {
    if i + |w| <= |s| {
      assert s[i..i + |w|][k] == s[i + k];
    }
  }

  /** A single white-space character is all `\s+` takes when no other follows. */
  lemma OneSpace(s: string, i: nat)
    requires i < |s| && IsSpace(s[i]) && (i + 1 < |s| ==> !IsSpace(s[i + 1]))
    ensures SkipSpaces(s, i) == i + 1 && Spaces1(s, i) == Some(i + 1)
  {
    assert SkipSpaces(s, i + 1) == i + 1;
  }

  lemma WordsTailShift(a: string, r: string, j: nat, word: string)
    requires j <= |r|
    ensures WordsTail(a + r, |a| + j, word) == Offset(WordsTail(r, j, word), |a|)
  {
    Spaces1Shift(a, r, j);
    var x := Spaces1(r, j);
    if x.Some? {
      WordShift(a, r, x.value, word);
      var y := Word(r, x.value, word);
      if y.Some? { OptSShift(a, r, y.value); }
    }
  }

  /** A run of digits after `a`, followed by something else, is what `(\d+)`
      takes there. */
  lemma DigitsAt(a: string, d: string, r: string)
    requires d != [] && AllDigits(d) && (r != [] ==> !IsDigit(r[0]))
    ensures Digits1(a + d + r, |a|) == Some(|a| + |d|)
    ensures (a + d + r)[|a|..|a| + |d|] == d
  {
    var s := a + d + r;
    assert s[|a|..|a| + |d|] == d;
    if r != [] { assert s[|a| + |d|] == r[0]; }
    SkipDigitsOver(s, |a|, |a| + |d|);
  }

  /** The unit word `posted … ago` reads is one of the ten the pattern lists. */
  lemma PostedAgoUnit(s: string)
    ensures PostedAgo(s).Some? ==> PostedAgo(s).value.1 in PostedUnits
  {
    var a := Word(s, 0, "posted");
    if a.Some? {
      var b := Spaces1(s, a.value);
      if b.Some? {
        var j := Digits1(s, b.value);
        if j.Some? {
          var c := Spaces1(s, j.value);
          if c.Some? { PostedUnitIn(s, c.value); }
        }
      }
    }
  }

  lemma PostedUnitIn(s: string, i: nat)
    ensures PostedUnitEnd(s, i).Some? ==> s[i..PostedUnitEnd(s, i).value] in PostedUnits
  {
    if i < |s| {
      var w := PostedStem(s[i]);
      if w != [] && HasAt(s, i, w) {
        StemIn(s[i]);
        var e := OptS(s, i + |w|);
        assert s[i..i + |w|] == w;
        if e > i + |w| { assert s[i..e] == w + "s"; } else { assert s[i..e] == w; }
      }
    }
  }

  lemma StemIn(c: char)
    ensures PostedStem(c) == [] || (PostedStem(c) in PostedUnits && PostedStem(c) + "s" in PostedUnits)
  {
    if c == 'h' { assert "hour" + "s" == "hours"; }
    else if c == 'd' { assert "day" + "s" == "days"; }
    else if c == 'w' { assert "week" + "s" == "weeks"; }
    else if c == 'm' { assert "month" + "s" == "months"; }
    else if c == 'y' { assert "year" + "s" == "years"; }
  }

  lemma PostedUnitEndShift(a: string, r: string, i: nat)
    ensures PostedUnitEnd(a + r, |a| + i) ==
      Offset(PostedUnitEnd(r, i), |a|)
  {
    if i < |r| {
      assert (a + r)[|a| + i] == r[i];
      var w := PostedStem(r[i]);
      HasAtShift(a, r, i, w);
      if i + |w| <= |r| { OptSShift(a, r, i + |w|); }
    }
  }

  lemma PostedUnitAgoShift(a: string, r: string, j: nat)
    requires j <= |r|
    ensures PostedUnitAgo(a + r, |a| + j) == PostedUnitAgo(r, j)
  {
    Spaces1Shift(a, r, j);
    var c := Spaces1(r, j);
    if c.Some? {
      PostedUnitFromShift(a, r, c.value);
    }
  }

  lemma PostedUnitFromShift(a: string, r: string, c: nat)
    requires c <= |r|
    ensures PostedUnitFrom(a + r, |a| + c) == PostedUnitFrom(r, c)
  {
    PostedUnitEndShift(a, r, c);
    var u := PostedUnitEnd(r, c);
    if u.Some? {
      AgoEndShift(a, r, u.value);
      if AgoEnd(r, u.value).Some? {
        assert (a + r)[|a| + c..|a| + u.value] == r[c..u.value];
      }
    }
  }

  lemma AgoEndShift(a: string, r: string, u: nat)
    requires u <= |r|
    ensures AgoEnd(a + r, |a| + u) == Offset(AgoEnd(r, u), |a|)
  {
    Spaces1Shift(a, r, u);
    var v := Spaces1(r, u);
    if v.Some? {
      WordShift(a, r, v.value, "ago");
    }
  }

  /** The alternation reads a unit's own word as that unit. */
  lemma UnitWordAtWord(a: string, u: Unit, b: string)
    ensures UnitWordAt(a + UnitWord(u) + b, |a|) == Some((u, |a| + |UnitWord(u)|))
  {
    var w := UnitWord(u);
    var s := a + w + b;
    var i := |a|;
    assert s[i..i + |w|] == w;
    assert s[i] == w[0];
    if u == Minute {
      assert s[i..i + 5][1] == s[i + 1] == 'i';
    }
  }

  /** The single space before a unit word is all `\s*` takes. */
  lemma SpaceThenWord(u: Unit, rest: string)
    ensures SkipSpaces(" " + UnitWord(u) + rest, 0) == 1
  {
    var s := " " + UnitWord(u) + rest;
    assert s[0] == ' ' && s[1] == UnitWord(u)[0];
    assert SkipSpaces(s, 1) == 1;
  }

  /** A number followed by a spaced unit word, with or without its `s`: the
      hedged pattern reads the unit, the shorthand pattern the first letter. */
  lemma WordTails(u: Unit, pl: string, rest: string)
    requires pl == "" || pl == "s"
    ensures var r := " " + UnitWord(u) + pl + rest;
      && Tail(Hedged, r, 0) == Some(u)
      && Tail(Shorthand, r, 0) == (if u in {Week, Hour, Second} then None else Some(ShorthandReading(u)))
  {
    var w := UnitWord(u);
    var r := " " + w + pl + rest;
    assert r == " " + w + (pl + rest);
    SpaceThenWord(u, pl + rest);
    UnitWordAtWord(" ", u, pl + rest);
  }

  /** The same, for the "ago" pattern: it needs the trailing ` ago`. */
  lemma AgoTails(u: Unit, pl: string)
    requires pl == "" || pl == "s"
    ensures Tail(Ago, " " + UnitWord(u) + pl + " ago", 0) == Some(u)
    ensures Tail(Ago, " " + UnitWord(u) + pl, 0) == None
  {
    AgoTailFound(u, pl);
    AgoTailMissing(u, pl);
  }

  lemma AgoTailFound(u: Unit, pl: string)
    requires pl == "" || pl == "s"
    ensures Tail(Ago, " " + UnitWord(u) + pl + " ago", 0) == Some(u)
  {
    var rest := pl + " ago";
    assert rest == " ago" || rest == "s ago";
    assert " " + UnitWord(u) + pl + " ago" == " " + UnitWord(u) + rest;
    SpaceThenWord(u, rest);
    AgoTailAfterWord(u, rest);
  }

  lemma AgoTailMissing(u: Unit, pl: string)
    requires pl == "" || pl == "s"
    ensures Tail(Ago, " " + UnitWord(u) + pl, 0) == None
  {
    SpaceThenWord(u, pl);
    AgoTailAfterWord(u, pl);
  }

  /** The "ago" tail after a unit word: found exactly when the rest is
      (an `s` and) ` ago`. */
  lemma AgoTailAfterWord(u: Unit, rest: string)
    requires rest in {"", "s", " ago", "s ago"}
    ensures AgoTail(" " + UnitWord(u) + rest, 1) == if rest in {" ago", "s ago"} then Some(u) else None
  {
    UnitWordAtWord(" ", u, rest);
    AgoAfterShift(" " + UnitWord(u), rest, 0);
    AgoAfterWords();
  }

  lemma AgoAfterWords()
    ensures AgoAfter(" ago", 0) && AgoAfter("s ago", 0)
    ensures !AgoAfter("", 0) && !AgoAfter("s", 0)
  {
  }

  /** Where the hedged pattern reads a day, month, minute or year, the
      shorthand pattern matches too, at the same digits. */
  lemma HedgedUnits(s: string, q: nat)
    requires Search(Shorthand, s).None? && MatchAt(Hedged, s, q).Some?
    ensures MatchAt(Hedged, s, q).value.unit in {Week, Hour, Second}
  {
    assert MatchAt(Shorthand, s, q).None?;
  }
}
