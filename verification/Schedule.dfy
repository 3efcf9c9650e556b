/** When a maintenance job is due (scripts/ubb_supervisor/scheduler.py).
    Times are local wall-clock readings in milliseconds at a fixed UTC offset. */
module Schedule {
  import opened Wrappers
  import opened Text

  const MINUTE: nat := 60 * 1000
  const HOUR: nat := 60 * MINUTE
  const DAY: nat := 24 * HOUR

  /** The last millisecond of year 9999, beyond which `datetime` arithmetic raises OverflowError. */
  const MAX_TIME: nat := 253402300799999

  datatype Plan = Every(period: nat) | Daily(minutes: nat)

  predicate IsSpace(c: char) { c == ' ' || '\t' <= c <= '\r' || 0x1c <= c as int <= 0x1f }

  function SkipSpaces(s: string): (r: string)
    ensures |r| <= |s| && r == s[|s| - |r|..]
    ensures r != [] ==> !IsSpace(r[0])
  {
    if s != [] && IsSpace(s[0]) then SkipSpaces(s[1..]) else s
  }

  function DropTrailing(s: string): (r: string)
    ensures r <= s
  {
    if s != [] && IsSpace(s[|s| - 1]) then DropTrailing(s[..|s| - 1]) else s
  }

  function Strip(s: string): string { DropTrailing(SkipSpaces(s)) }

  /** Case-insensitive keyword: what follows it, if it is there. */
  function After(s: string, word: string): (r: Option<string>)
    ensures r.Some? ==> |r.value| + |word| == |s|
  {
    if word == [] then Some(s)
    else if s != [] && LowerChar(s[0]) == word[0] then After(s[1..], word[1..])
    else None
  }

  /** `\s+` */
  function SomeSpaces(s: string): Option<string> {
    if s != [] && IsSpace(s[0]) then Some(SkipSpaces(s)) else None
  }

  function UnitLength(c: char): nat {
    if c == 'm' then MINUTE else if c == 'h' then HOUR else if c == 'd' then DAY else 0
  }

  /** `^every\s+(\d+)\s*([mhd])$`; a match with a zero count is a refusal. */
  function ParseInterval(s: string): Option<Plan> {
    match After(s, "every")
    case None => None
    case Some(a) =>
      match SomeSpaces(a)
      case None => None
      case Some(b) =>
        var n := DigitRun(b);
        var unit := SkipSpaces(b[n..]);
        if n > 0 && |unit| == 1 && UnitLength(LowerChar(unit[0])) > 0
        then Some(Every(Times(Value(b[..n]), UnitLength(LowerChar(unit[0])))))
        else None
  }

  function Times(count: nat, length: nat): nat { count * length }

  /** The clock part `\s+(\d{1,2}):(\d{2})`. */
  function ParseClock(s: string): Option<Plan> {
    match SomeSpaces(s)
    case None => None
    case Some(b) =>
      var n := DigitRun(b);
      if 1 <= n <= 2 && |b| == n + 3 && b[n] == ':' && AllDigits(b[n + 1..]) then
        var hour, minute := Value(b[..n]), Value(b[n + 1..]);
        if hour > 23 || minute > 59 then None else Some(Daily(hour * 60 + minute))
      else None
  }

  /** `^daily(?:\s+at)?\s+(\d{1,2}):(\d{2})$`, the optional word first. */
  function ParseDaily(s: string): Option<Plan> {
    match After(s, "daily")
    case None => None
    case Some(a) =>
      match SomeSpaces(a)
      case None => None
      case Some(b) =>
        match After(b, "at")
        case Some(c) => ParseClock(c)
        case None => ParseClock(a)
  }

  /** The plan a text denotes; `None` for every text `is_due` refuses. */
  function Parse(text: string): Option<Plan> {
    var s := Strip(text);
    match ParseInterval(s)
    case Some(Every(period)) => if period < 1 then None else Some(Every(period))
    case _ => ParseDaily(s)
  }

  datatype Verdict = Due(now: bool) | Refused

  function Scheduled(minutes: nat, now: nat): nat { now / DAY * DAY + minutes * MINUTE }

  /** `is_due`. The interval branch adds to the previous run, which can leave the range of `datetime`. */
  function IsDue(text: string, now: nat, last: Option<nat>): Verdict {
    match Parse(text)
    case None => Refused
    case Some(Every(period)) =>
      if last.None? then Due(true)
      else if last.value + period > MAX_TIME then Refused
      else Due(now >= last.value + period)
    case Some(Daily(minutes)) =>
      var at := Scheduled(minutes, now);
      Due(now >= at && (last.None? || last.value < at))
  }

  /** Two launches of one plan respect it: an interval apart, or on different calendar days. */
  predicate Apart(plan: Plan, first: nat, second: nat) {
    match plan
    case Every(period) => second >= first + period
    case Daily(_) => second / DAY > first / DAY
  }

  /** A daily launch never happens before its hour. */
  predicate NotEarly(plan: Plan, at: nat) {
    plan.Daily? ==> at >= Scheduled(plan.minutes, at)
  }

  /** A launch found due after an earlier launch, with a last run at least as late as that launch,
      keeps the plan's distance from it. */
  lemma DueKeepsDistance(text: string, first: nat, last: nat, now: nat)
    requires Parse(text).Some? && NotEarly(Parse(text).value, first)
    requires first <= last
    requires IsDue(text, now, Some(last)) == Due(true)
    ensures Apart(Parse(text).value, first, now) && NotEarly(Parse(text).value, now) && last <= now
  {
    hide Parse;
    var plan := Parse(text).value;
    if plan.Daily? {
      DaysApart(plan.minutes, first, last, now);
    }
  }

  lemma DaysApart(minutes: nat, first: nat, last: nat, now: nat)
    requires Scheduled(minutes, first) <= first <= last < Scheduled(minutes, now) <= now
    ensures now / DAY > first / DAY
  {
    ScheduledGrows(minutes, now / DAY, first / DAY);
  }

  lemma ScheduledGrows(minutes: nat, day: nat, later: nat)
    ensures day <= later ==> day * DAY + minutes * MINUTE <= later * DAY + minutes * MINUTE
  {
  }

  /** It is time for a launch: none was made yet, or the last one lies far enough back; a daily one also needs
      the hour of its day to have come. */
  ghost predicate Ripe(plan: Plan, now: nat, last: Option<nat>) {
    match plan
    case Every(period) => last.Some? ==> last.value + period <= now
    case Daily(minutes) =>
      exists midnight: nat :: midnight % 86400000 == 0 && midnight <= now < midnight + 86400000
        && midnight + minutes * 60000 <= now && (last.Some? ==> last.value < midnight + minutes * 60000)
  }

  /** A schedule is due exactly when it is time, unless it is refused: as no schedule at all, or because its
      interval counted from the last run leaves the calendar. */
  lemma DueIffRipe(text: string, now: nat, last: Option<nat>)
    ensures var plan := Parse(text);
            && (IsDue(text, now, last) == Refused <==>
                  plan.None? || (plan.value.Every? && last.Some? && last.value + plan.value.period > 253402300799999))
            && (IsDue(text, now, last) != Refused ==>
                  (IsDue(text, now, last) == Due(true) <==> Ripe(plan.value, now, last)))
  {
    hide Parse;
    if Parse(text).Some? && Parse(text).value.Daily? {
      DayOf(now, Parse(text).value.minutes, last);
    }
  }

  lemma DayOf(now: nat, minutes: nat, last: Option<nat>)
    ensures now >= Scheduled(minutes, now) && (last.None? || last.value < Scheduled(minutes, now))
       <==> Ripe(Daily(minutes), now, last)
  {
    var today := now / DAY * DAY;
    assert today % 86400000 == 0 && today <= now < today + 86400000
           && Scheduled(minutes, now) == today + minutes * 60000;
    forall midnight: nat | midnight % 86400000 == 0 && midnight <= now < midnight + 86400000 ensures midnight == today {
    }
  }

  lemma DueIsNotEarly(text: string, last: Option<nat>, now: nat)
    requires IsDue(text, now, last) == Due(true)
    ensures Parse(text).Some? && NotEarly(Parse(text).value, now)
  {
    hide Parse;
  }

  /** Any schedule accepted when the supervisor is built raises in a later tick exactly when the
      interval it names, counted from the last run, leaves the calendar. */
  lemma AcceptedRaisesOnlyOnOverflow(text: string, built: nat, now: nat, last: Option<nat>)
    requires IsDue(text, built, Some(built)) != Refused
    ensures IsDue(text, now, last) == Refused <==>
            Parse(text).value.Every? && last.Some? && last.value + Parse(text).value.period > MAX_TIME
  {
  }

  /** Such a schedule exists: accepted one day, refused by a tick one day later. */
  lemma AcceptedCanRaiseLater()
    ensures var text := "every 1h"; var built := MAX_TIME - HOUR;
            && IsDue(text, built, Some(built)) != Refused
            && IsDue(text, built + 1, Some(built + 1)) == Refused
  {
    ParseHourly();
  }

  lemma ParseHourly()
    ensures Parse("every 1h") == Some(Every(HOUR))
  {
    var s := "every 1h";
    assert Times(1, HOUR) == HOUR && UnitLength('h') == HOUR && LowerChar('h') == 'h';
    hide Strip, After, SkipSpaces, DigitRun, Value, UnitLength, LowerChar, ParseDaily, Times;
    EveryIsKeyword();
    OneHour();
    assert ParseInterval(s) == Some(Every(HOUR));
    hide ParseInterval;
  }

  lemma EveryIsKeyword()
    ensures Strip("every 1h") == "every 1h" && After("every 1h", "every") == Some(" 1h")
  {
    var s := "every 1h";
    assert SkipSpaces(s) == s && DropTrailing(s) == s;
    assert s[1..] == "very 1h" && "every"[1..] == "very";
    assert "very 1h"[1..] == "ery 1h" && "very"[1..] == "ery";
    assert "ery 1h"[1..] == "ry 1h" && "ery"[1..] == "ry";
    assert "ry 1h"[1..] == "y 1h" && "ry"[1..] == "y";
    assert "y 1h"[1..] == " 1h" && "y"[1..] == "";
    assert After(" 1h", "") == Some(" 1h");
    assert After("y 1h", "y") == Some(" 1h");
    assert After("ry 1h", "ry") == Some(" 1h");
    assert After("ery 1h", "ery") == Some(" 1h");
    assert After("very 1h", "very") == Some(" 1h");
  }

  lemma OneHour()
    ensures SkipSpaces(" 1h") == "1h" && DigitRun("1h") == 1 && Value("1h"[..1]) == 1 && SkipSpaces("1h"[1..]) == "h"
  {
    assert " 1h"[1..] == "1h" && "1h"[1..] == "h" && "1h"[..1] == "1" && "1"[..0] == [];
    assert "1h" == "1" + "h";
    DigitRunOf("1", "h");
  }
}
