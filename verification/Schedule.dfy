/** internal/domain/schedule.go: parsing a schedule and finding its next run. */
module Schedule {
  import opened Basics
  import opened Text
  import opened Calendar
  import opened Slots
  import opened Domain

  const DEFAULT_ZONE: string := "Asia/Hong_Kong"

  /** The zone database: the names it knows, each a fixed offset from UTC. */
  type Zones = map<string, Time>

  // ---------- parsing ----------

  function ParseTimeOfDay(value: string): (r: Result<(int, int)>)
    ensures r.Ok? ==> 0 <= r.value.0 <= 23 && 0 <= r.value.1 <= 59
  {
    var parts := Split(value, ':');
    if |parts| != 2 || Atoi(parts[0]).None? || Atoi(parts[1]).None? then Err("invalid_time_of_day")
    else
      var hour, minute := Atoi(parts[0]).value, Atoi(parts[1]).value;
      if hour < 0 || hour > 23 || minute < 0 || minute > 59 then Err("invalid_time_of_day")
      else Ok((hour, minute))
  }

  /** Every clock time written HH:MM is understood as that time. */
  lemma ParseClockTime(hour: nat, minute: nat)
    requires hour < 24 && minute < 60
    ensures ParseTimeOfDay(TwoDigits(hour) + ":" + TwoDigits(minute)) == Ok((hour, minute))
  {
    var h, m := TwoDigits(hour), TwoDigits(minute);
    assert !IsDigit(':');
    SplitAtSeparator(h, m, ':');
    SplitPlain(m, ':');
    AtoiTwoDigits(hour);
    AtoiTwoDigits(minute);
    assert h + [':'] + m == h + ":" + m;
  }

  function Location(timezone: string, zones: Zones): Result<Time> {
    var name := if TrimSpace(timezone) == "" then DEFAULT_ZONE else timezone;
    if name in zones then Ok(zones[name]) else Err("invalid_timezone")
  }

  // ---------- weekdays as text ----------

  function Itoas(days: Weekdays): (parts: seq<string>)
    ensures |parts| == |days|
  {
    seq(|days|, i requires 0 <= i < |days| => Itoa(days[i]))
  }

  function EncodedWeekdays(days: Weekdays): string {
    if days == [] then "" else Join(Itoas(days), ',')
  }

  method EncodeWeekdays(days: Weekdays) returns (text: string)
    ensures text == EncodedWeekdays(days)
  {
    if |days| == 0 {
      return "";
    }
    var parts: seq<string> := [];
    for i := 0 to |days|
      invariant parts == Itoas(days[..i])
    {
      parts := parts + [Itoa(days[i])];
    }
    assert days[..|days|] == days;
    text := Join(parts, ',');
  }

  /** The numbers among `parts`; anything else is dropped. */
  function Numbers(parts: seq<string>): Weekdays {
    if parts == [] then []
    else
      var day := Atoi(TrimSpace(parts[0]));
      (if day.Some? then [day.value] else []) + Numbers(parts[1..])
  }

  function DecodedWeekdays(text: string): Weekdays {
    if TrimSpace(text) == "" then [] else Numbers(Split(text, ','))
  }

  lemma {:induction false} NumbersAppend(parts: seq<string>, part: string)
    ensures Numbers(parts + [part]) ==
      Numbers(parts) + (if Atoi(TrimSpace(part)).Some? then [Atoi(TrimSpace(part)).value] else [])
  {
    if parts != [] {
      assert (parts + [part])[1..] == parts[1..] + [part];
      NumbersAppend(parts[1..], part);
    }
  }

  method DecodeWeekdays(text: string) returns (days: Weekdays)
    ensures days == DecodedWeekdays(text)
  {
    if TrimSpace(text) == "" {
      return [];
    }
    var parts := Split(text, ',');
    days := [];
    for i := 0 to |parts|
      invariant days == Numbers(parts[..i])
    {
      var day := Atoi(TrimSpace(parts[i]));
      if day.Some? {
        days := days + [day.value];
      }
      NumbersAppend(parts[..i], parts[i]);
      assert parts[..i + 1] == parts[..i] + [parts[i]];
    }
    assert parts[..|parts|] == parts;
  }

  lemma {:induction false} NumbersOfItoas(days: Weekdays)
    ensures Numbers(Itoas(days)) == days
  {
    if days != [] {
      assert Itoas(days)[1..] == Itoas(days[1..]);
      TrimItoa(days[0]);
      AtoiItoa(days[0]);
      NumbersOfItoas(days[1..]);
    }
  }

  lemma ItoaHasNoComma(n: int)
    ensures ',' !in Itoa(n)
  {
    assert !IsDigit(',');
  }

  lemma JoinNotBlank(days: Weekdays)
    requires days != []
    ensures TrimSpace(Join(Itoas(days), ',')) != ""
  {
    var text := Join(Itoas(days), ',');
    var first := Itoa(days[0]);
    assert first[0] == text[0];
    assert !IsSpace(first[0]) by {
      assert IsDigit(Digits(Abs(days[0]))[0]);
    }
    KeepsFirst(text);
  }

  lemma {:induction false} KeepsFirst(s: string)
    requires s != "" && !IsSpace(s[0])
    ensures TrimSpace(s) != ""
    decreases |s|
  {
    if IsSpace(s[|s| - 1]) {
      KeepsFirst(s[..|s| - 1]);
    }
  }

  /** Storing weekdays and reading them back changes nothing, whatever the numbers. */
  lemma WeekdaysRoundTrip(days: Weekdays)
    ensures DecodedWeekdays(EncodedWeekdays(days)) == days
  {
    if days != [] {
      forall i | 0 <= i < |days|
        ensures ',' !in Itoas(days)[i]
      {
        ItoaHasNoComma(days[i]);
      }
      SplitJoin(Itoas(days), ',');
      JoinNotBlank(days);
      NumbersOfItoas(days);
    }
  }

  /** Hand-edited text settles after one round: what was read is what is read again. */
  lemma DecodeSettles(text: string)
    ensures DecodedWeekdays(EncodedWeekdays(DecodedWeekdays(text))) == DecodedWeekdays(text)
  {
    WeekdaysRoundTrip(DecodedWeekdays(text));
  }

  // ---------- the next run, declaratively ----------

  predicate ValidWeekdays(days: Weekdays) {
    days != [] && forall d | d in days :: 1 <= d <= 7
  }

  /** The recurrence a daily or weekly command describes, or why it describes none. */
  function RuleOf(cmd: Command<Weekdays>, zones: Zones): (r: Result<Rule>)
    requires cmd.kind.Daily? || cmd.kind.Weekly?
    ensures r.Ok? ==> r.value.Valid()
  {
    var time := ParseTimeOfDay(cmd.timeOfDay);
    if time.Err? then Err(time.code)
    else if cmd.kind.Weekly? && !ValidWeekdays(cmd.weekdays) then Err("invalid_weekdays")
    else
      var loc := Location(cmd.timezone, zones);
      if loc.Err? then Err(loc.code)
      else
        var days := if cmd.kind.Daily? then EVERY_DAY else set d: int | d in cmd.weekdays;
        assert cmd.kind.Weekly? ==> cmd.weekdays[0] in days;
        assert 1 in EVERY_DAY;
        Ok(Rule(time.value.0 * HOUR + time.value.1 * MINUTE, days, loc.value))
  }

  /** The first run strictly after `now`. */
  function NextRun(cmd: Command<Weekdays>, now: Time, zones: Zones): Result<Time> {
    match cmd.kind
    case Once =>
      if cmd.runAt.None? || cmd.runAt.value <= now then Err("invalid_run_at") else Ok(cmd.runAt.value)
    case Other(_) => Err("invalid_schedule_type")
    case _ =>
      var rule := RuleOf(cmd, zones);
      if rule.Err? then Err(rule.code) else Ok(NextSlot(rule.value, now))
  }

  /** What a task may run at: the instant asked for, or a slot of its recurrence. */
  predicate IsRunTime(cmd: Command<Weekdays>, zones: Zones, t: Time) {
    match cmd.kind
    case Once => cmd.runAt == Some(t)
    case Other(_) => false
    case _ => RuleOf(cmd, zones).Ok? && IsSlot(RuleOf(cmd, zones).value, t)
  }

  /** A successful answer is the earliest run time strictly after `now`, and whether
      there is one does not depend on `now` for a recurring command. */
  lemma NextRunIsFirst(cmd: Command<Weekdays>, now: Time, zones: Zones)
    ensures NextRun(cmd, now, zones).Ok? ==>
      var t := NextRun(cmd, now, zones).value;
      now < t && IsRunTime(cmd, zones, t) && forall u :: now < u < t ==> !IsRunTime(cmd, zones, u)
    ensures NextRun(cmd, now, zones).Err? && (cmd.kind.Daily? || cmd.kind.Weekly?) ==> RuleOf(cmd, zones).Err?
    ensures NextRun(cmd, now, zones).Err? ==> forall u :: now < u ==> !IsRunTime(cmd, zones, u)
  {
  }

  /** A weekly schedule on all seven days is the daily schedule. */
  lemma WeeklyOnEveryDay(cmd: Command<Weekdays>, now: Time, zones: Zones)
    requires ValidWeekdays(cmd.weekdays) && forall d: int | 1 <= d <= 7 :: d in cmd.weekdays
    ensures NextRun(cmd.(kind := Weekly), now, zones) == NextRun(cmd.(kind := Daily), now, zones)
  {
    hide NextSlot, ParseTimeOfDay, TrimSpace;
    var days := set d: int | d in cmd.weekdays;
    assert days == EVERY_DAY;
  }

  // ---------- time.Date and AddDate in a fixed zone ----------

  function DateInstant(year: int, month: int, day: int, timeOfDay: Time, offset: Time): Time {
    DayNumber(year, month, day) * DAY + timeOfDay - offset
  }

  function LocalDate(t: Time, offset: Time): Civil { CivilOf(LocalDay(t, offset)) }

  /** `t.AddDate(0, 0, days)`: same local clock time, later date. */
  function AddDays(t: Time, days: int, offset: Time): Time {
    var c := LocalDate(t, offset);
    DateInstant(c.year, c.month, c.day + days, LocalTimeOfDay(t, offset), offset)
  }

  lemma DateInstantOfDay(t: Time, k: int, timeOfDay: Time, offset: Time)
    ensures var c := LocalDate(t, offset);
      DateInstant(c.year, c.month, c.day + k, timeOfDay, offset)
        == (LocalDay(t, offset) + k) * DAY + timeOfDay - offset
  {
    hide CivilOf, DayNumber, LocalDay;
    DaysLater(LocalDay(t, offset), k);
  }

  /** A date of the calendar at the rule's time of day is the slot of that day. */
  lemma DateIsSlot(rule: Rule, t: Time, k: int)
    ensures var c := LocalDate(t, rule.offset);
      DateInstant(c.year, c.month, c.day + k, rule.timeOfDay, rule.offset) == SlotOn(rule, LocalDay(t, rule.offset) + k)
  {
    hide LocalDate, DateInstant, LocalDay;
    DateInstantOfDay(t, k, rule.timeOfDay, rule.offset);
  }

  lemma AddDaysIsShift(t: Time, days: int, offset: Time)
    ensures AddDays(t, days, offset) == t + days * DAY
    ensures LocalDay(AddDays(t, days, offset), offset) == LocalDay(t, offset) + days
  {
    hide LocalDate, DateInstant;
    DateInstantOfDay(t, days, LocalTimeOfDay(t, offset), offset);
    DaysAndRest(t + offset, days);
  }

  lemma DaysAndRest(local: Time, days: int)
    ensures (local / DAY + days) * DAY + local % DAY == local + days * DAY
    ensures (local + days * DAY) / DAY == local / DAY + days
  {
    Regroup(local / DAY, days);
    DayOfShifted(local, days);
  }

  lemma Regroup(a: int, b: int)
    ensures (a + b) * DAY == a * DAY + b * DAY
  {
  }

  lemma DayOfShifted(local: Time, days: int)
    ensures (local + days * DAY) / DAY == local / DAY + days
  {
  }

  lemma SlotADayLater(rule: Rule, day: int)
    ensures SlotOn(rule, day + 1) == SlotOn(rule, day) + DAY
  {
    Regroup(day, 1);
  }

  // ---------- the next run, as computed ----------

  /** Today at the rule's time of day, or tomorrow if that has passed. */
  method DailyCandidate(rule: Rule, now: Time) returns (candidate: Time)
    requires rule.Valid() && rule.days == EVERY_DAY
    ensures candidate == NextSlot(rule, now)
  {
    hide LocalDate, DateInstant, LocalDay, SlotOn, AddDays, NextSlot;
    var local := LocalDate(now, rule.offset);
    candidate := DateInstant(local.year, local.month, local.day, rule.timeOfDay, rule.offset);
    DateIsSlot(rule, now, 0);
    if !(candidate > now) {
      AddDaysIsShift(candidate, 1, rule.offset);
      SlotADayLater(rule, LocalDay(now, rule.offset));
      candidate := AddDays(candidate, 1, rule.offset);
    }
    DailyIsEveryDay(rule, now);
  }

  method NextDailyRun(cmd: Command<Weekdays>, now: Time, zones: Zones) returns (r: Result<Time>)
    requires cmd.kind.Daily?
    ensures r == NextRun(cmd, now, zones)
  {
    var time := ParseTimeOfDay(cmd.timeOfDay);
    if time.Err? {
      return Err(time.code);
    }
    var loc := Location(cmd.timezone, zones);
    if loc.Err? {
      return Err(loc.code);
    }
    var candidate := DailyCandidate(RuleOf(cmd, zones).value, now);
    r := Ok(candidate);
  }

  /** The day `offset` days after `now`: its weekday and the rule's time on it. */
  method DayAhead(rule: Rule, now: Time, offset: nat) returns (weekday: int, candidate: Time)
    ensures weekday == Weekday(LocalDay(now, rule.offset) + offset)
    ensures candidate == SlotOn(rule, LocalDay(now, rule.offset) + offset)
  {
    hide LocalDate, DateInstant, LocalDay, SlotOn, AddDays, Weekday;
    var day := AddDays(now, offset, rule.offset);
    AddDaysIsShift(now, offset, rule.offset);
    weekday := Weekday(LocalDay(day, rule.offset));
    var date := LocalDate(day, rule.offset);
    candidate := DateInstant(date.year, date.month, date.day, rule.timeOfDay, rule.offset);
    DateIsSlot(rule, day, 0);
  }

  /** The eight-day search. The final error of the source has no counterpart here:
      the loop always returns. */
  method WeeklyCandidate(rule: Rule, allowed: map<int, bool>, now: Time) returns (r: Time)
    requires rule.Valid()
    requires allowed.Keys == rule.days && forall d | d in allowed :: allowed[d]
    ensures r == NextSlot(rule, now)
  {
    SearchTotal(rule, now);
    var offset := 0;
    while offset < 8
      invariant 0 <= offset <= 8
      invariant Search(rule, now, offset) == Search(rule, now, 0)
    {
      var weekday, candidate := DayAhead(rule, now, offset);
      if weekday in allowed && allowed[weekday] {
        if candidate > now {
          return candidate;
        }
      }
      offset := offset + 1;
    }
    assert false;
  }

  /** Fills the set of allowed weekdays, or finds one out of range. */
  method AllowedWeekdays(days: Weekdays) returns (allowed: Option<map<int, bool>>)
    ensures allowed.None? <==> exists d | d in days :: d < 1 || d > 7
    ensures allowed.Some? ==> allowed.value == map d: int | d in days :: true
  {
    var m: map<int, bool> := map[];
    for i := 0 to |days|
      invariant forall d | d in days[..i] :: 1 <= d <= 7
      invariant m == map d: int | d in days[..i] :: true
    {
      var day := days[i];
      if day < 1 || day > 7 {
        assert day in days;
        return None;
      }
      m := m[day := true];
      assert days[..i + 1] == days[..i] + [day];
    }
    assert days[..|days|] == days;
    allowed := Some(m);
  }

  method NextWeeklyRun(cmd: Command<Weekdays>, now: Time, zones: Zones) returns (r: Result<Time>)
    requires cmd.kind.Weekly?
    ensures r == NextRun(cmd, now, zones)
  {
    var time := ParseTimeOfDay(cmd.timeOfDay);
    if time.Err? {
      return Err(time.code);
    }
    if |cmd.weekdays| == 0 {
      return Err("invalid_weekdays");
    }
    var allowed := AllowedWeekdays(cmd.weekdays);
    if allowed.None? {
      return Err("invalid_weekdays");
    }
    var loc := Location(cmd.timezone, zones);
    if loc.Err? {
      return Err(loc.code);
    }
    var candidate := WeeklyCandidate(RuleOf(cmd, zones).value, allowed.value, now);
    r := Ok(candidate);
  }

  method NextRunForCommand(cmd: Command<Weekdays>, now: Time, zones: Zones) returns (r: Result<Time>)
    ensures r == NextRun(cmd, now, zones)
  {
    match cmd.kind {
      case Once =>
        if cmd.runAt.None? {
          return Err("invalid_run_at");
        }
        if !(cmd.runAt.value > now) {
          return Err("invalid_run_at");
        }
        r := Ok(cmd.runAt.value);
      case Daily => r := NextDailyRun(cmd, now, zones);
      case Weekly => r := NextWeeklyRun(cmd, now, zones);
      case Other(_) => r := Err("invalid_schedule_type");
    }
  }

  /** The run after one that finished at `after`; a one-time task has none. */
  function RunAfter(cmd: Command<Weekdays>, after: Time, zones: Zones): Result<Option<Time>> {
    if cmd.kind.Once? then Ok(None)
    else
      var next := NextRun(cmd, after, zones);
      if next.Err? then Err(next.code) else Ok(Some(next.value))
  }

  method NextRunAfterTask(task: Task<Weekdays>, after: Time, zones: Zones) returns (r: Result<Option<Time>>)
    ensures r == RunAfter(task.command, after, zones)
  {
    if task.command.kind.Once? {
      return Ok(None);
    }
    var c := task.command;
    var cmd := Command("", "", PublishCommand("", "", "", 0, false), c.kind, None, c.timeOfDay, c.weekdays, c.timezone);
    var next := NextRunForCommand(cmd, after, zones);
    r := match next case Err(code) => Err(code) case Ok(t) => Ok(Some(t));
  }

  /** `ValidateScheduleCommand`: the first run of a new task, or the first complaint. */
  function FirstRun(cmd: Command<Weekdays>, now: Time, zones: Zones): Result<Time> {
    if TrimSpace(cmd.deviceId) == "" then Err("invalid_device_id")
    else if ValidatePublishTopic(cmd.publish.topic).Some? then Err(ValidatePublishTopic(cmd.publish.topic).value)
    else if ValidateQoS(cmd.publish.qos).Some? then Err(ValidateQoS(cmd.publish.qos).value)
    else NextRun(cmd, now, zones)
  }

  method ValidateScheduleCommand(cmd: Command<Weekdays>, now: Time, zones: Zones) returns (r: Result<Time>)
    ensures r == FirstRun(cmd, now, zones)
  {
    if TrimSpace(cmd.deviceId) == "" {
      return Err("invalid_device_id");
    }
    var topic := ValidatePublishTopic(cmd.publish.topic);
    if topic.Some? {
      return Err(topic.value);
    }
    var qos := ValidateQoS(cmd.publish.qos);
    if qos.Some? {
      return Err(qos.value);
    }
    if cmd.kind.Other? {
      return Err("invalid_schedule_type");
    }
    r := NextRunForCommand(cmd, now, zones);
  }

  // ---------- the next run on the clock ----------

  /** In a zone that is `offset` ahead of UTC it is `hour`:`minute`:00 at this instant, for a
      weekly command on one of its weekdays. */
  predicate StrikesAt(cmd: Command<Weekdays>, hour: int, minute: int, offset: Time, t: Time) {
    && (t + offset) % DAY == hour * HOUR + minute * MINUTE
    && (cmd.kind.Weekly? ==> Weekday((t + offset) / DAY) in cmd.weekdays)
  }

  /** A recurring command with a time of day, weekdays and a zone that can be understood. */
  predicate Understood(cmd: Command<Weekdays>, hour: int, minute: int, offset: Time, zones: Zones) {
    && ParseTimeOfDay(cmd.timeOfDay) == Ok((hour, minute))
    && (cmd.kind.Daily? || (cmd.kind.Weekly? && cmd.weekdays != [] && forall d | d in cmd.weekdays :: 1 <= d <= 7))
    && var name := if TrimSpace(cmd.timezone) == "" then "Asia/Hong_Kong" else cmd.timezone;
    name in zones && zones[name] == offset
  }

  lemma StrikesAreSlots(cmd: Command<Weekdays>, hour: int, minute: int, offset: Time, zones: Zones, t: Time)
    requires Understood(cmd, hour, minute, offset, zones)
    ensures RuleOf(cmd, zones).Ok?
    ensures IsSlot(RuleOf(cmd, zones).value, t) <==> StrikesAt(cmd, hour, minute, offset, t)
  {
  }

  /** What the next run of a recurring command is on the clock of its zone: the first
      instant after `now` that shows its time of day, on one of its weekdays. */
  lemma NextRunOnTheClock(cmd: Command<Weekdays>, hour: int, minute: int, offset: Time, zones: Zones,
                          now: Time, t: Time)
    requires Understood(cmd, hour, minute, offset, zones)
    ensures NextRun(cmd, now, zones).Ok?
    ensures NextRun(cmd, now, zones) == Ok(t) <==>
      && now < t && StrikesAt(cmd, hour, minute, offset, t)
      && forall u :: now < u < t ==> !StrikesAt(cmd, hour, minute, offset, u)
  {
    hide StrikesAt, IsSlot, Understood, RuleOf, NextSlot;
    RecursSomehow(cmd, hour, minute, offset, zones);
    StrikesAreSlots(cmd, hour, minute, offset, zones, t);
    forall u
      ensures RuleOf(cmd, zones).Ok?
      ensures IsSlot(RuleOf(cmd, zones).value, u) <==> StrikesAt(cmd, hour, minute, offset, u)
    {
      StrikesAreSlots(cmd, hour, minute, offset, zones, u);
    }
    NextSlotUnique(RuleOf(cmd, zones).value, now, t);
  }

  lemma RecursSomehow(cmd: Command<Weekdays>, hour: int, minute: int, offset: Time, zones: Zones)
    requires Understood(cmd, hour, minute, offset, zones)
    ensures cmd.kind.Daily? || cmd.kind.Weekly?
  {
  }

  /** For a time of day written HH:MM. */
  lemma ClockTimeUnderstood(cmd: Command<Weekdays>, hour: nat, minute: nat, zones: Zones, offset: Time)
    requires hour < 24 && minute < 60 && cmd.timeOfDay == TwoDigits(hour) + ":" + TwoDigits(minute)
    requires cmd.kind.Daily? || (cmd.kind.Weekly? && cmd.weekdays != [] && forall d | d in cmd.weekdays :: 1 <= d <= 7)
    requires if TrimSpace(cmd.timezone) == "" then "Asia/Hong_Kong" in zones && zones["Asia/Hong_Kong"] == offset
             else cmd.timezone in zones && zones[cmd.timezone] == offset
    ensures Understood(cmd, hour, minute, offset, zones)
  {
    ParseClockTime(hour, minute);
  }

  /** The complaints, in the order in which they are found. */
  lemma NextRunComplaints(cmd: Command<Weekdays>, now: Time, zones: Zones)
    ensures cmd.kind.Once? ==>
      NextRun(cmd, now, zones) ==
        if cmd.runAt.Some? && now < cmd.runAt.value then Ok(cmd.runAt.value) else Err("invalid_run_at")
    ensures cmd.kind.Other? ==> NextRun(cmd, now, zones) == Err("invalid_schedule_type")
    ensures (cmd.kind.Daily? || cmd.kind.Weekly?) && NextRun(cmd, now, zones).Err? ==>
      var code := NextRun(cmd, now, zones).code;
      if ParseTimeOfDay(cmd.timeOfDay).Err? then code == "invalid_time_of_day"
      else if cmd.kind.Weekly? && (cmd.weekdays == [] || exists d | d in cmd.weekdays :: d < 1 || d > 7) then
        code == "invalid_weekdays"
      else
        && code == "invalid_timezone"
        && (if TrimSpace(cmd.timezone) == "" then "Asia/Hong_Kong" else cmd.timezone) !in zones
  {
  }

  /** Two numbers with a colon are a time of day exactly if they are an hour and a minute. */
  lemma TimeOfDayRange(hour: Int64, minute: Int64)
    ensures ParseTimeOfDay(Itoa(hour) + ":" + Itoa(minute)) ==
      if 0 <= hour <= 23 && 0 <= minute <= 59 then Ok((hour, minute)) else Err("invalid_time_of_day")
  {
    assert !IsDigit(':');
    SplitAtSeparator(Itoa(hour), Itoa(minute), ':');
    SplitPlain(Itoa(minute), ':');
    AtoiItoa(hour);
    AtoiItoa(minute);
    assert Itoa(hour) + [':'] + Itoa(minute) == Itoa(hour) + ":" + Itoa(minute);
  }

  /** Text without exactly one colon is none. */
  lemma TimeOfDayNeedsColon(value: string)
    ensures ':' !in value ==> ParseTimeOfDay(value) == Err("invalid_time_of_day")
    ensures forall i, j | 0 <= i < j < |value| && value[i] == value[j] == ':' ::
      ParseTimeOfDay(value) == Err("invalid_time_of_day")
  {
    if ':' !in value {
      SplitPlain(value, ':');
    }
    forall i, j | 0 <= i < j < |value| && value[i] == value[j] == ':'
      ensures |Split(value, ':')| > 2
    {
      TwoSeparators(value, ':', i, j);
    }
  }

  lemma {:induction false} OneSeparator(s: string, sep: char, j: nat)
    requires j < |s| && s[j] == sep
    ensures |Split(s, sep)| >= 2
  {
    if j > 0 {
      OneSeparator(s[1..], sep, j - 1);
    }
  }

  lemma {:induction false} TwoSeparators(s: string, sep: char, i: nat, j: nat)
    requires i < j < |s| && s[i] == s[j] == sep
    ensures |Split(s, sep)| >= 3
  {
    if i > 0 {
      TwoSeparators(s[1..], sep, i - 1, j - 1);
    } else {
      OneSeparator(s[1..], sep, j - 1);
    }
  }

  /** Weekdays are stored as numbers with commas between them. */
  lemma WeekdaysText(days: Weekdays, day: Int64)
    ensures EncodedWeekdays([]) == "" && EncodedWeekdays([day]) == Itoa(day)
    ensures days != [] ==> EncodedWeekdays([day] + days) == Itoa(day) + "," + EncodedWeekdays(days)
  {
    if days != [] {
      var all := [day] + days;
      assert Itoas(all)[1..] == Itoas(days);
    }
  }

  /** What follows one run is the next run after it, unless the task is a one-time task. */
  lemma RunAfterIsNext(cmd: Command<Weekdays>, after: Time, zones: Zones, t: Time)
    ensures cmd.kind.Once? ==> RunAfter(cmd, after, zones) == Ok(None)
    ensures !cmd.kind.Once? ==> (RunAfter(cmd, after, zones) == Ok(Some(t)) <==> NextRun(cmd, after, zones) == Ok(t))
    ensures !cmd.kind.Once? && NextRun(cmd, after, zones).Err? ==>
      RunAfter(cmd, after, zones) == Err(NextRun(cmd, after, zones).code)
  {
  }

  // ---------- the cases of the scheduler's own tests ----------

  const HONG_KONG: Zones := map["Asia/Hong_Kong" := 8 * 3_600_000_000_000]

  /** A weekly command for Monday 09:30 in Hong Kong. */
  function Mondays(): Command<Weekdays> {
    Command("", "", PublishCommand("", "", "", 0, false), Weekly, None, "09:30", [1], "Asia/Hong_Kong")
  }

  lemma HalfPastNine(cmd: Command<Weekdays>)
    requires cmd.timeOfDay == "09:30" && cmd.timezone == "Asia/Hong_Kong"
    requires cmd.kind.Daily? || (cmd.kind.Weekly? && cmd.weekdays == [1])
    ensures Understood(cmd, 9, 30, 28_800_000_000_000, HONG_KONG)
  {
    assert TwoDigits(9) == "09" && TwoDigits(30) == "30";
    assert "09" + ":" + "30" == "09:30";
    assert !IsSpace('A') && !IsSpace('g');
    ClockTimeUnderstood(cmd, 9, 30, HONG_KONG, 28_800_000_000_000);
  }

  /** `x` nanoseconds into a local day. */
  lemma IntoDay(day: int, x: Time)
    requires 0 <= x < DAY
    ensures (day * DAY + x) / DAY == day && (day * DAY + x) % DAY == x
  {
  }

  /** A local instant between two others that shows `x` lies on one of the days between. */
  lemma DaysBetween(local: Time, first: int, last: int, a: Time, b: Time, x: Time)
    requires local % DAY == x && first * DAY + a < local < last * DAY + b && 0 <= a < DAY && 0 <= b < DAY
    ensures first <= local / DAY <= last
    ensures local / DAY == first ==> a < x
    ensures local / DAY == last ==> x < b
  {
    assert local == local / DAY * DAY + x;
  }

  predicate OnItsDays(cmd: Command<Weekdays>, day: int) { cmd.kind.Weekly? ==> Weekday(day) in cmd.weekdays }

  lemma StrikesOnDay(cmd: Command<Weekdays>, hour: nat, minute: nat, offset: Time, day: int)
    requires hour < 24 && minute < 60
    ensures StrikesAt(cmd, hour, minute, offset, day * DAY + (hour * HOUR + minute * MINUTE) - offset) <==>
      OnItsDays(cmd, day)
  {
    IntoDay(day, hour * HOUR + minute * MINUTE);
  }

  /** Asked on local day `today`, `a` nanoseconds after midnight, a command runs on local day
      `day` if that is one of its days and none of those before it is still ahead. */
  lemma NextRunOnDay(cmd: Command<Weekdays>, hour: nat, minute: nat, offset: Time, zones: Zones,
                     today: int, a: Time, day: int)
    requires Understood(cmd, hour, minute, offset, zones) && hour < 24 && minute < 60
    requires 0 <= a < DAY && today < day && OnItsDays(cmd, day)
    requires forall k | today <= k < day :: !OnItsDays(cmd, k) || (k == today && hour * HOUR + minute * MINUTE <= a)
    ensures NextRun(cmd, today * DAY + a - offset, zones) == Ok(day * DAY + (hour * HOUR + minute * MINUTE) - offset)
  {
    hide Understood, NextRun, Weekday;
    var clock := hour * HOUR + minute * MINUTE;
    var now, t := today * DAY + a - offset, day * DAY + clock - offset;
    StrikesOnDay(cmd, hour, minute, offset, day);
    DayIsLater(today, day);
    forall u | now < u < t
      ensures !StrikesAt(cmd, hour, minute, offset, u)
    {
      if StrikesAt(cmd, hour, minute, offset, u) {
        assert OnItsDays(cmd, (u + offset) / DAY);
        DaysBetween(u + offset, today, day, a, clock, clock);
      }
    }
    NextRunOnTheClock(cmd, hour, minute, offset, zones, now, t);
  }

  lemma DayIsLater(a: int, b: int)
    requires a < b
    ensures a * DAY + DAY <= b * DAY
  {
  }

  /** Midnight of a day in Hong Kong, eight hours ahead. */
  function HongKongDay(day: int): Time { day * 86_400_000_000_000 - 28_800_000_000_000 }

  /** Asked on a Saturday at 10:00 in Hong Kong, a day before `sunday`. */
  lemma AskedOnSaturday(saturday: int, sunday: int, monday: int)
    requires Weekday(saturday) == 6 && sunday == saturday + 1 && monday == saturday + 2
    ensures NextRun(Mondays(), HongKongDay(saturday) + 36_000_000_000_000, HONG_KONG) ==
      Ok(HongKongDay(monday) + 34_200_000_000_000)
    ensures NextRun(Mondays().(kind := Daily), HongKongDay(saturday) + 36_000_000_000_000, HONG_KONG) ==
      Ok(HongKongDay(sunday) + 34_200_000_000_000)
  {
    WeekdayFollows(saturday);
    WeekdayFollows(saturday + 1);
    hide Weekday, NextRun, Understood;
    HalfPastNine(Mondays());
    NextRunOnDay(Mondays(), 9, 30, 28_800_000_000_000, HONG_KONG, saturday, 36_000_000_000_000, monday);
    HalfPastNine(Mondays().(kind := Daily));
    NextRunOnDay(Mondays().(kind := Daily), 9, 30, 28_800_000_000_000, HONG_KONG,
      saturday, 36_000_000_000_000, sunday);
  }

  /** Asked on a Saturday at 10:00 in Hong Kong, such as 16 May 2026, the weekly command runs
      on the Monday after at 09:30, and a daily one on the Sunday. */
  lemma UsesWeekdaysAndTimezone(saturday: Civil, sunday: Civil, monday: Civil)
    requires saturday.Valid() && Weekday(Ordinal(saturday)) == 6 && saturday.day + 2 <= 28
    requires sunday == saturday.(day := saturday.day + 1) && monday == saturday.(day := saturday.day + 2)
    ensures NextRun(Mondays(), HongKongDay(Ordinal(saturday)) + 36_000_000_000_000, HONG_KONG) ==
      Ok(HongKongDay(Ordinal(monday)) + 34_200_000_000_000)
    ensures NextRun(Mondays().(kind := Daily), HongKongDay(Ordinal(saturday)) + 36_000_000_000_000, HONG_KONG) ==
      Ok(HongKongDay(Ordinal(sunday)) + 34_200_000_000_000)
  {
    hide Weekday, NextRun, Mondays, HongKongDay;
    NextDays(saturday, sunday, monday);
    hide *;
    AskedOnSaturday(Ordinal(saturday), Ordinal(sunday), Ordinal(monday));
  }

  /** The two cases of the tests: Saturday 16 May 2026, 10:00 in Hong Kong. */
  lemma AskedIn2026()
    ensures NextRun(Mondays(), HongKongDay(Ordinal(Civil(2026, 5, 16))) + 36_000_000_000_000, HONG_KONG) ==
      Ok(HongKongDay(Ordinal(Civil(2026, 5, 18))) + 34_200_000_000_000)
    ensures NextRun(Mondays().(kind := Daily), HongKongDay(Ordinal(Civil(2026, 5, 16))) + 36_000_000_000_000,
      HONG_KONG) == Ok(HongKongDay(Ordinal(Civil(2026, 5, 17))) + 34_200_000_000_000)
  {
    hide Weekday, NextRun, Mondays, HongKongDay, Ordinal;
    KnownWeekdays();
    UsesWeekdaysAndTimezone(Civil(2026, 5, 16), Civil(2026, 5, 17), Civil(2026, 5, 18));
  }

  lemma NextDays(c: Civil, next: Civil, afterNext: Civil)
    requires c.Valid() && c.day + 2 <= 28
    requires next == c.(day := c.day + 1) && afterNext == c.(day := c.day + 2)
    ensures next.Valid() && Ordinal(next) == Ordinal(c) + 1
    ensures afterNext.Valid() && Ordinal(afterNext) == Ordinal(c) + 2
  {
  }
}
