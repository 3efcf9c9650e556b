/** Which texts are schedules, and what they say: the two spellings, and nothing else. */
module ScheduleTexts {
  import opened Wrappers
  import opened Text
  import opened Schedule

  predicate Blank(s: string) { forall i | 0 <= i < |s| :: IsSpace(s[i]) }

  /** The word in small or capital letters. */
  predicate Word(s: string, word: string) {
    |s| == |word| && forall i | 0 <= i < |s| :: LowerChar(s[i]) == word[i]
  }

  // ---------------------------------------------------------------- spellings

  /** A number of minutes, hours or days, in milliseconds. */
  predicate Amount(digits: string, unit: char, period: nat) {
    && Numeral(digits)
    && (((unit == 'm' || unit == 'M') && period == Value(digits) * 60000)
        || ((unit == 'h' || unit == 'H') && period == Value(digits) * 3600000)
        || ((unit == 'd' || unit == 'D') && period == Value(digits) * 86400000))
  }

  /** `every`, spaces, a number, and its unit, with spaces allowed before the unit. */
  predicate EveryParts(s: string, word: string, gap: string, digits: string, gap2: string, unit: char, period: nat) {
    && s == word + (gap + (digits + (gap2 + [unit])))
    && Word(word, "every") && gap != [] && Blank(gap) && Blank(gap2) && Amount(digits, unit, period)
  }

  ghost predicate SpellsEvery(s: string, period: nat) {
    exists word, gap, digits, gap2, unit :: EveryParts(s, word, gap, digits, gap2, unit, period)
  }

  /** One or two digits for the hour, a colon, and two digits for the minute. */
  predicate Clock(s: string, hour: string, minute: string, minutes: nat) {
    && s == hour + (":" + minute) && 1 <= |hour| <= 2 && |minute| == 2 && AllDigits(hour) && AllDigits(minute)
    && Value(hour) <= 23 && Value(minute) <= 59 && minutes == Value(hour) * 60 + Value(minute)
  }

  /** `daily`, `at` if one likes, and the clock, with spaces between. */
  predicate DailyParts(s: string, word: string, at: string, gap: string, clock: string, hour: string, minute: string,
                       minutes: nat) {
    && s == word + (at + (gap + clock))
    && Word(word, "daily") && gap != [] && Blank(gap) && Clock(clock, hour, minute, minutes)
    && (at == [] || exists n | 0 < n < |at| :: Blank(at[..n]) && Word(at[n..], "at"))
  }

  ghost predicate SpellsDaily(s: string, minutes: nat) {
    exists word, at, gap, clock, hour, minute :: DailyParts(s, word, at, gap, clock, hour, minute, minutes)
  }

  ghost predicate Spells(s: string, plan: Plan) {
    match plan
    case Every(period) => period > 0 && SpellsEvery(s, period)
    case Daily(minutes) => SpellsDaily(s, minutes)
  }

  predicate Padded(text: string, before: string, s: string, after: string) {
    text == before + (s + after) && Blank(before) && Blank(after)
  }

  /** The text says the plan: a spelling of it, perhaps between spaces. */
  ghost predicate Says(text: string, plan: Plan) {
    exists before, s, after :: Padded(text, before, s, after) && Spells(s, plan)
  }

  // ---------------------------------------------------------------- the scanner

  lemma SkipTakesBlank(s: string) returns (gap: string)
    ensures Blank(gap) && s == gap + SkipSpaces(s)
  {
    SkippedIsBlank(s);
    gap := s[..|s| - |SkipSpaces(s)|];
  }

  lemma {:induction false} SkippedIsBlank(s: string)
    ensures Blank(s[..|s| - |SkipSpaces(s)|])
  {
    hide *;
    SkipStep(s);
    if s != [] && IsSpace(s[0]) {
      SkippedIsBlank(s[1..]);
      var n := |s| - |SkipSpaces(s)|;
      BlankOn(s[0], s[1..][..n - 1]);
      assert s[..n] == [s[0]] + s[1..][..n - 1];
    } else {
      assert s[..0] == [];
      BlankIs([]);
    }
  }

  lemma SkipStep(s: string)
    ensures SkipSpaces(s) == if s != [] && IsSpace(s[0]) then SkipSpaces(s[1..]) else s
  {
  }

  lemma BlankIs(s: string)
    ensures s == [] ==> Blank(s)
  {
  }

  lemma BlankOn(c: char, rest: string)
    requires IsSpace(c) && Blank(rest)
    ensures Blank([c] + rest)
  {
  }

  lemma {:induction false} SkipOf(gap: string, rest: string)
    requires Blank(gap) && (rest != [] ==> !IsSpace(rest[0]))
    ensures SkipSpaces(gap + rest) == rest
  {
    if gap == [] {
      assert gap + rest == rest;
    } else {
      assert (gap + rest)[1..] == gap[1..] + rest;
      SkipOf(gap[1..], rest);
    }
  }

  lemma {:induction false} DropTakesBlank(s: string) returns (gap: string)
    ensures Blank(gap) && s == DropTrailing(s) + gap
  {
    gap := [];
    if s != [] && IsSpace(s[|s| - 1]) {
      var rest := DropTakesBlank(s[..|s| - 1]);
      gap := rest + [s[|s| - 1]];
    }
  }

  lemma {:induction false} DropOf(s: string, gap: string)
    requires Blank(gap) && (s != [] ==> !IsSpace(s[|s| - 1]))
    ensures DropTrailing(s + gap) == s
  {
    if gap == [] {
      assert s + gap == s;
    } else {
      assert (s + gap)[..|s + gap| - 1] == s + gap[..|gap| - 1];
      DropOf(s, gap[..|gap| - 1]);
    }
  }

  lemma StripPads(text: string) returns (before: string, after: string)
    ensures Padded(text, before, Strip(text), after)
  {
    before := SkipTakesBlank(text);
    after := DropTakesBlank(SkipSpaces(text));
    hide Blank;
  }

  lemma StripOf(before: string, s: string, after: string)
    requires Blank(before) && Blank(after) && s != [] && !IsSpace(s[0]) && !IsSpace(s[|s| - 1])
    ensures Strip(before + (s + after)) == s
  {
    SkipOf(before, s + after);
    DropOf(s, after);
  }

  lemma {:induction false} AfterIsWord(s: string, word: string) returns (w: string)
    requires After(s, word).Some?
    ensures Word(w, word) && s == w + After(s, word).value
  {
    w := [];
    if word != [] {
      var rest := AfterIsWord(s[1..], word[1..]);
      w := [s[0]] + rest;
    }
  }

  lemma {:induction false} AfterOf(w: string, rest: string, word: string)
    requires Word(w, word)
    ensures After(w + rest, word) == Some(rest)
  {
    if word == [] {
      assert w + rest == rest;
    } else {
      assert (w + rest)[1..] == w[1..] + rest;
      AfterOf(w[1..], rest, word[1..]);
    }
  }

  lemma NotAfter(s: string, word: string)
    requires word != [] && (s == [] || LowerChar(s[0]) != word[0])
    ensures After(s, word) == None
  {
  }

  // ---------------------------------------------------------------- intervals

  lemma UnitIs(c: char)
    ensures UnitLength(LowerChar(c)) == (if c == 'm' || c == 'M' then 60000 else if c == 'h' || c == 'H' then 3600000
                                         else if c == 'd' || c == 'D' then 86400000 else 0)
  {
  }

  lemma AmountIs(digits: string, unit: char, period: nat)
    requires Numeral(digits)
    ensures Amount(digits, unit, period) <==>
              UnitLength(LowerChar(unit)) > 0 && period == Times(Value(digits), UnitLength(LowerChar(unit)))
  {
    UnitIs(unit);
    hide UnitLength, LowerChar, Value;
  }

  lemma IntervalIsSpelled(s: string)
    requires ParseInterval(s).Some?
    ensures ParseInterval(s).value.Every? && SpellsEvery(s, ParseInterval(s).value.period)
  {
    hide *;
    var a, b, digits, rest, unit, period := IntervalParts(s);
    var word := AfterIsWord(s, "every");
    var gap := SkipTakesBlank(a);
    SkippedSome(a, gap);
    var gap2 := SkipTakesBlank(rest);
    EveryIsSpelled(s, word, gap, digits, gap2, unit, period);
  }

  lemma EveryIsSpelled(s: string, word: string, gap: string, digits: string, gap2: string, unit: char, period: nat)
    requires s == word + (gap + (digits + (gap2 + [unit])))
    requires Word(word, "every") && gap != [] && Blank(gap) && Blank(gap2) && Amount(digits, unit, period)
    ensures SpellsEvery(s, period)
  {
    hide Word, Blank, Amount;
    assert EveryParts(s, word, gap, digits, gap2, unit, period);
  }

  lemma IntervalParts(s: string)
    returns (a: string, b: string, digits: string, rest: string, unit: char, period: nat)
    requires ParseInterval(s).Some?
    ensures After(s, "every") == Some(a) && SomeSpaces(a) == Some(b) && b == digits + rest && Numeral(digits)
    ensures SkipSpaces(rest) == [unit] && Amount(digits, unit, period) && ParseInterval(s) == Some(Every(period))
  {
    hide After, SomeSpaces, SkipSpaces, DigitRun, Value, Times, UnitLength, LowerChar, Amount;
    a := After(s, "every").value;
    b := SomeSpaces(a).value;
    var n := DigitRun(b);
    digits, rest := b[..n], b[n..];
    unit := SkipSpaces(rest)[0];
    period := ParseInterval(s).value.period;
    AmountIs(digits, unit, period);
  }

  lemma IntervalOf(s: string, a: string, digits: string, rest: string, unit: char)
    requires After(s, "every") == Some(a) && SomeSpaces(a) == Some(digits + rest) && Numeral(digits)
    requires DigitRun(digits + rest) == |digits| && SkipSpaces(rest) == [unit] && UnitLength(LowerChar(unit)) > 0
    ensures ParseInterval(s) == Some(Every(Times(Value(digits), UnitLength(LowerChar(unit)))))
  {
    hide After, SomeSpaces, SkipSpaces, DigitRun, Value, Times, UnitLength, LowerChar;
    var b := digits + rest;
    assert b[..|digits|] == digits && b[|digits|..] == rest;
  }

  lemma SkippedSome(s: string, gap: string)
    requires SomeSpaces(s).Some? && s == gap + SkipSpaces(s)
    ensures gap != [] && SomeSpaces(s).value == SkipSpaces(s)
  {
  }

  lemma SpelledIsInterval(s: string, word: string, gap: string, digits: string, gap2: string, unit: char, period: nat)
    requires EveryParts(s, word, gap, digits, gap2, unit, period)
    ensures ParseInterval(s) == Some(Every(period))
    ensures s != [] && !IsSpace(s[0]) && !IsSpace(s[|s| - 1])
  {
    var rest := gap2 + [unit];
    EveryEnds(s, word, gap, digits, gap2, unit, period);
    assert Numeral(digits) && Word(word, "every") && Blank(gap) && Blank(gap2) && gap != [];
    hide *;
    AfterOf(word, gap + (digits + rest), "every");
    SomeOf(gap, digits + rest);
    DigitRunOf(digits, rest);
    SkipOf(gap2, [unit]);
    AmountIs(digits, unit, period);
    IntervalOf(s, gap + (digits + rest), digits, rest, unit);
  }

  lemma EveryEnds(s: string, word: string, gap: string, digits: string, gap2: string, unit: char, period: nat)
    requires EveryParts(s, word, gap, digits, gap2, unit, period)
    ensures s != [] && !IsSpace(s[0]) && s[|s| - 1] == unit && !IsSpace(unit)
    ensures (digits + (gap2 + [unit]))[0] == digits[0] && !IsSpace(digits[0])
    ensures !IsDigit((gap2 + [unit])[0]) && s == word + (gap + (digits + (gap2 + [unit])))
    ensures Amount(digits, unit, period)
  {
    hide Value;
    assert s[0] == word[0];
    if gap2 != [] {
      assert (gap2 + [unit])[0] == gap2[0];
    }
  }

  lemma SomeOf(gap: string, rest: string)
    requires gap != [] && Blank(gap) && (rest != [] ==> !IsSpace(rest[0]))
    ensures SomeSpaces(gap + rest) == Some(rest)
  {
    SkipOf(gap, rest);
    hide SkipSpaces;
    assert (gap + rest)[0] == gap[0];
  }

  // ---------------------------------------------------------------- daily

  lemma ClockIsParsed(gap: string, clock: string, hour: string, minute: string, minutes: nat)
    requires gap != [] && Blank(gap) && Clock(clock, hour, minute, minutes)
    ensures ParseClock(gap + clock) == Some(Daily(minutes))
  {
    ClockEnds(clock, hour, minute, minutes);
    SomeOf(gap, clock);
    DigitRunOf(hour, ":" + minute);
    hide SomeSpaces, DigitRun, Value, Blank;
    assert clock[..|hour|] == hour && clock[|hour|] == ':' && clock[|hour| + 1..] == minute;
  }

  lemma ParsedIsClock(s: string) returns (gap: string, clock: string, hour: string, minute: string)
    requires ParseClock(s).Some?
    ensures ParseClock(s).value.Daily? && s == gap + clock && gap != [] && Blank(gap)
    ensures Clock(clock, hour, minute, ParseClock(s).value.minutes)
  {
    hide *;
    clock, hour, minute := ClockParts(s);
    gap := SkipTakesBlank(s);
    SkippedSome(s, gap);
  }

  lemma ClockParts(s: string) returns (clock: string, hour: string, minute: string)
    requires ParseClock(s).Some?
    ensures SomeSpaces(s) == Some(clock) && ParseClock(s).value.Daily?
    ensures Clock(clock, hour, minute, ParseClock(s).value.minutes)
  {
    hide SomeSpaces, DigitRun, Value;
    clock := SomeSpaces(s).value;
    var n := DigitRun(clock);
    hour, minute := clock[..n], clock[n + 1..];
    assert clock == hour + (":" + minute);
  }

  lemma DailyIsSpelled(s: string)
    requires ParseDaily(s).Some?
    ensures ParseDaily(s).value.Daily? && SpellsDaily(s, ParseDaily(s).value.minutes)
  {
    hide *;
    var a, b := DailyHas(s);
    var word := AfterIsWord(s, "daily");
    var gap0 := SkipTakesBlank(a);
    SkippedSome(a, gap0);
    if After(b, "at").Some? {
      var w := AfterIsWord(b, "at");
      var gap, clock, hour, minute := ParsedIsClock(After(b, "at").value);
      assert s == word + ((gap0 + w) + (gap + clock));
      DailySpelled(s, word, gap0, w, gap, clock, hour, minute, ParseDaily(s).value.minutes);
    } else {
      var gap, clock, hour, minute := ParsedIsClock(a);
      DailyPlain(s, word, gap, clock, hour, minute, ParseDaily(s).value.minutes);
    }
  }

  lemma DailyHas(s: string) returns (a: string, b: string)
    requires ParseDaily(s).Some?
    ensures After(s, "daily") == Some(a) && SomeSpaces(a) == Some(b)
    ensures ParseDaily(s) == match After(b, "at") case Some(c) => ParseClock(c) case None => ParseClock(a)
  {
    hide After, SomeSpaces, ParseClock;
    a := After(s, "daily").value;
    b := SomeSpaces(a).value;
  }

  lemma DailySpelled(s: string, word: string, gap0: string, w: string, gap: string, clock: string, hour: string,
                     minute: string, minutes: nat)
    requires s == word + ((gap0 + w) + (gap + clock)) && Word(word, "daily") && gap != [] && Blank(gap)
    requires Clock(clock, hour, minute, minutes) && gap0 != [] && Blank(gap0) && Word(w, "at")
    ensures SpellsDaily(s, minutes)
  {
    var at := gap0 + w;
    AtHasWord(w);
    hide Blank, Word, Clock;
    assert at[..|gap0|] == gap0 && at[|gap0|..] == w;
    assert DailyParts(s, word, at, gap, clock, hour, minute, minutes);
  }

  lemma DailyPlain(s: string, word: string, gap: string, clock: string, hour: string, minute: string, minutes: nat)
    requires s == word + (gap + clock) && Word(word, "daily") && gap != [] && Blank(gap)
    requires Clock(clock, hour, minute, minutes)
    ensures SpellsDaily(s, minutes)
  {
    hide Blank, Word, Clock;
    assert [] + (gap + clock) == gap + clock;
    assert DailyParts(s, word, [], gap, clock, hour, minute, minutes);
  }

  lemma AtHasWord(at: string)
    ensures Word(at, "at") ==> at != []
  {
  }

  lemma SpelledIsDaily(s: string, word: string, at: string, gap: string, clock: string, hour: string, minute: string,
                       minutes: nat)
    requires DailyParts(s, word, at, gap, clock, hour, minute, minutes)
    ensures ParseInterval(s) == None && ParseDaily(s) == Some(Daily(minutes))
    ensures s != [] && !IsSpace(s[0]) && !IsSpace(s[|s| - 1])
  {
    DailyEnds(s, word, at, gap, clock, hour, minute, minutes);
    hide *;
    NotInterval(s);
    ClockIsParsed(gap, clock, hour, minute, minutes);
    if at == [] {
      PlainIsDaily(s, word, gap, clock);
    } else {
      var n := AtParts(s, word, at, gap, clock, hour, minute, minutes);
      LongIsDaily(s, word, at[..n], at[n..], gap, clock);
    }
  }

  lemma AtParts(s: string, word: string, at: string, gap: string, clock: string, hour: string, minute: string,
                minutes: nat) returns (n: nat)
    requires DailyParts(s, word, at, gap, clock, hour, minute, minutes) && at != []
    ensures 0 < n < |at| && Blank(at[..n]) && Word(at[n..], "at")
    ensures s == word + (at[..n] + (at[n..] + (gap + clock)))
  {
    hide Blank, Word, Clock;
    n :| 0 < n < |at| && Blank(at[..n]) && Word(at[n..], "at");
    assert at == at[..n] + at[n..];
  }

  lemma PlainIsDaily(s: string, word: string, gap: string, clock: string)
    requires s == word + ([] + (gap + clock)) && Word(word, "daily") && gap != [] && Blank(gap)
    requires clock != [] && IsDigit(clock[0])
    ensures ParseDaily(s) == ParseClock(gap + clock)
  {
    hide *;
    assert [] + (gap + clock) == gap + clock;
    AfterOf(word, gap + clock, "daily");
    NotAt(clock);
    SomeOf(gap, clock);
    DailyOf(s, gap + clock, clock, gap + clock);
  }

  lemma LongIsDaily(s: string, word: string, gap0: string, w: string, gap: string, clock: string)
    requires s == word + (gap0 + (w + (gap + clock))) && Word(word, "daily") && gap0 != [] && Blank(gap0)
             && Word(w, "at")
    ensures ParseDaily(s) == ParseClock(gap + clock)
  {
    hide *;
    var rest := gap + clock;
    AfterOf(word, gap0 + (w + rest), "daily");
    WordStarts(w, rest);
    SomeOf(gap0, w + rest);
    AfterOf(w, rest, "at");
    DailyOf(s, gap0 + (w + rest), w + rest, rest);
  }

  lemma WordStarts(w: string, rest: string)
    requires Word(w, "at")
    ensures w + rest != [] && !IsSpace((w + rest)[0])
  {
    assert (w + rest)[0] == w[0];
  }

  lemma NotAt(clock: string)
    requires clock != [] && IsDigit(clock[0])
    ensures After(clock, "at") == None && !IsSpace(clock[0])
  {
    NotAfter(clock, "at");
    hide After;
  }

  lemma NotInterval(s: string)
    requires s != [] && LowerChar(s[0]) == 'd'
    ensures ParseInterval(s) == None
  {
    NotAfter(s, "every");
    hide After;
  }

  lemma DailyOf(s: string, a: string, b: string, c: string)
    requires After(s, "daily") == Some(a) && SomeSpaces(a) == Some(b)
    requires c == (match After(b, "at") case Some(d) => d case None => a)
    ensures ParseDaily(s) == ParseClock(c)
  {
    hide After, SomeSpaces, ParseClock;
  }

  lemma DailyEnds(s: string, word: string, at: string, gap: string, clock: string, hour: string, minute: string,
                  minutes: nat)
    requires DailyParts(s, word, at, gap, clock, hour, minute, minutes)
    ensures s != [] && !IsSpace(s[0]) && LowerChar(s[0]) == 'd' && !IsSpace(s[|s| - 1])
    ensures s == word + (at + (gap + clock)) && clock != [] && IsDigit(clock[0])
    ensures Word(word, "daily") && gap != [] && Blank(gap) && Clock(clock, hour, minute, minutes)
  {
    ClockEnds(clock, hour, minute, minutes);
    hide Clock, Blank;
    assert s[0] == word[0] && s[|s| - 1] == clock[|clock| - 1];
  }

  lemma ClockEnds(clock: string, hour: string, minute: string, minutes: nat)
    requires Clock(clock, hour, minute, minutes)
    ensures clock != [] && IsDigit(clock[0]) && IsDigit(clock[|clock| - 1])
  {
    assert clock[0] == hour[0] && clock[|clock| - 1] == minute[1];
  }

  /** What counts as a space: the blank, the five control characters from tab on, and the four separators. */
  lemma SpaceIs(c: char)
    ensures IsSpace(c) <==> c as int in {9, 10, 11, 12, 13, 28, 29, 30, 31, 32}
  {
  }

  // ---------------------------------------------------------------- the theorem

  /** The schedules are exactly the texts that spell a plan, and each is read as the plan it spells. */
  lemma ParsedIffSaid(text: string, plan: Plan)
    ensures Parse(text) == Some(plan) <==> Says(text, plan)
  {
    hide Strip, ParseInterval, ParseDaily, Padded, SpellsEvery, SpellsDaily;
    if Parse(text) == Some(plan) {
      var before, after := StripPads(text);
      if ParseInterval(Strip(text)).Some? {
        IntervalIsSpelled(Strip(text));
      } else {
        DailyIsSpelled(Strip(text));
      }
      assert Spells(Strip(text), plan);
    }
    if before, s, after :| Padded(text, before, s, after) && Spells(s, plan) {
      SpelledIsStripped(text, before, s, after, plan);
    }
  }

  lemma SpelledIsStripped(text: string, before: string, s: string, after: string, plan: Plan)
    requires Padded(text, before, s, after) && Spells(s, plan)
    ensures Strip(text) == s
    ensures plan.Every? ==> ParseInterval(s) == Some(plan)
    ensures plan.Daily? ==> ParseInterval(s) == None && ParseDaily(s) == Some(plan)
  {
    hide Strip, ParseInterval, ParseDaily, EveryParts, DailyParts, IsSpace;
    match plan {
      case Every(period) =>
        var word, gap, digits, gap2, unit :| EveryParts(s, word, gap, digits, gap2, unit, period);
        SpelledIsInterval(s, word, gap, digits, gap2, unit, period);
      case Daily(minutes) =>
        var word, at, gap, clock, hour, minute :| DailyParts(s, word, at, gap, clock, hour, minute, minutes);
        SpelledIsDaily(s, word, at, gap, clock, hour, minute, minutes);
    }
    StripOf(before, s, after);
  }
}
