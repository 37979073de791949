/** The recurring instants of a daily or weekly schedule, and the search for the
    next one. A zone is a fixed offset from UTC. */
module Slots {
  import opened Basics
  import opened Calendar

  /** "At this time of day, on these weekdays, in this zone." */
  datatype Rule = Rule(timeOfDay: Time, days: set<int>, offset: Time) {
    ghost predicate Valid() {
      && 0 <= timeOfDay < DAY
      && (exists d :: d in days)
      && forall d | d in days :: 1 <= d <= 7
    }
  }

  const EVERY_DAY: set<int> := {1, 2, 3, 4, 5, 6, 7}

  function LocalDay(t: Time, offset: Time): int { (t + offset) / DAY }

  function LocalTimeOfDay(t: Time, offset: Time): Time { (t + offset) % DAY }

  /** The slots of a rule: allowed local weekday, exact local time of day. */
  predicate IsSlot(rule: Rule, t: Time) {
    && LocalTimeOfDay(t, rule.offset) == rule.timeOfDay
    && Weekday(LocalDay(t, rule.offset)) in rule.days
  }

  /** `t` is the first slot strictly after `now`. */
  ghost predicate IsNextSlot(rule: Rule, now: Time, t: Time) {
    && now < t
    && IsSlot(rule, t)
    && forall u :: now < u < t ==> !IsSlot(rule, u)
  }

  function SlotOn(rule: Rule, day: int): Time {
    day * DAY + rule.timeOfDay - rule.offset
  }

  /** The scheduler's search: the local day of `now` and the days after it, from
      the `k`-th on, at most eight in all. */
  function Search(rule: Rule, now: Time, k: nat): (r: Option<Time>)
    requires k <= 8
    decreases 8 - k
  {
    if k == 8 then None
    else
      var day := LocalDay(now, rule.offset) + k;
      if Weekday(day) in rule.days && now < SlotOn(rule, day) then Some(SlotOn(rule, day))
      else Search(rule, now, k + 1)
  }

  /** A slot is the slot of its own local day. */
  lemma SlotOfDay(rule: Rule, t: Time)
    requires rule.Valid()
    ensures IsSlot(rule, t) <==>
      t == SlotOn(rule, LocalDay(t, rule.offset)) && Weekday(LocalDay(t, rule.offset)) in rule.days
  {
  }

  lemma DayOfSlot(rule: Rule, day: int)
    requires rule.Valid()
    ensures LocalDay(SlotOn(rule, day), rule.offset) == day
    ensures IsSlot(rule, SlotOn(rule, day)) <==> Weekday(day) in rule.days
  {
    var local := day * DAY + rule.timeOfDay;
    assert local / DAY == day && local % DAY == rule.timeOfDay;
  }

  lemma {:induction false} SearchFindsFirst(rule: Rule, now: Time, k: nat, r: Time)
    requires rule.Valid() && k <= 8
    requires Search(rule, now, k) == Some(r)
    requires forall u :: now < u && LocalDay(u, rule.offset) < LocalDay(now, rule.offset) + k ==> !IsSlot(rule, u)
    ensures IsNextSlot(rule, now, r)
    ensures LocalDay(r, rule.offset) <= LocalDay(now, rule.offset) + 7
    decreases 8 - k
  {
    var day := LocalDay(now, rule.offset) + k;
    DayOfSlot(rule, day);
    forall u | IsSlot(rule, u) && LocalDay(u, rule.offset) == day
      ensures u == SlotOn(rule, day)
    {
      SlotOfDay(rule, u);
    }
    if Weekday(day) in rule.days && now < SlotOn(rule, day) {
      forall u | now < u < r
        ensures !IsSlot(rule, u)
      {
        assert LocalDay(u, rule.offset) <= day;
      }
    } else {
      SearchFindsFirst(rule, now, k + 1, r);
    }
  }

  /** Weekdays repeat after seven days, so the search never runs off the end. */
  lemma {:induction false} SearchSucceeds(rule: Rule, now: Time, k: nat, hit: nat)
    requires rule.Valid() && k <= hit <= 7
    requires Weekday(LocalDay(now, rule.offset) + hit) in rule.days
    requires now < SlotOn(rule, LocalDay(now, rule.offset) + hit)
    ensures Search(rule, now, k).Some?
    decreases 8 - k
  {
    if k < hit {
      SearchSucceeds(rule, now, k + 1, hit);
    }
  }

  /** Some allowed day within the week ahead has its slot after `now`. */
  lemma AllowedDayAhead(rule: Rule, now: Time) returns (hit: nat)
    requires rule.Valid()
    ensures hit <= 7
    ensures Weekday(LocalDay(now, rule.offset) + hit) in rule.days
    ensures now < SlotOn(rule, LocalDay(now, rule.offset) + hit)
  {
    var today := LocalDay(now, rule.offset);
    var d :| d in rule.days;
    hit := if Weekday(today) <= d then d - Weekday(today) else d + 7 - Weekday(today);
    assert Weekday(today + hit) == d;
    if now >= SlotOn(rule, today + hit) {
      assert hit == 0;
      hit := 7;
    }
  }

  /** The search from today on always finds the first slot, within a week. */
  lemma SearchTotal(rule: Rule, now: Time)
    requires rule.Valid()
    ensures Search(rule, now, 0).Some?
    ensures IsNextSlot(rule, now, Search(rule, now, 0).value)
    ensures Search(rule, now, 0).value - now <= 7 * DAY
  {
    hide Search;
    var hit := AllowedDayAhead(rule, now);
    SearchSucceeds(rule, now, 0, hit);
    var r := Search(rule, now, 0).value;
    SearchFindsFirst(rule, now, 0, r);
    WithinAWeek(rule, now, r);
  }

  lemma WithinAWeek(rule: Rule, now: Time, r: Time)
    requires rule.Valid() && IsNextSlot(rule, now, r)
    requires LocalDay(r, rule.offset) <= LocalDay(now, rule.offset) + 7
    ensures r - now <= 7 * DAY
  {
    var today := LocalDay(now, rule.offset);
    SlotOfDay(rule, r);
    DayOfSlot(rule, LocalDay(r, rule.offset) - 7);
    assert Weekday(LocalDay(r, rule.offset) - 7) in rule.days;
  }

  /** The next slot after `now`. */
  function NextSlot(rule: Rule, now: Time): (t: Time)
    requires rule.Valid()
    ensures IsNextSlot(rule, now, t)
    ensures t - now <= 7 * DAY
  {
    SearchTotal(rule, now);
    Search(rule, now, 0).value
  }

  /** The declarative description has exactly one solution, so it is `NextSlot`. */
  lemma NextSlotUnique(rule: Rule, now: Time, t: Time)
    requires rule.Valid()
    ensures t == NextSlot(rule, now) <==> IsNextSlot(rule, now, t)
  {
  }

  // ---------- the slot iterator ----------

  lemma NextSlotMonotone(rule: Rule, a: Time, b: Time)
    requires rule.Valid() && a <= b
    ensures NextSlot(rule, a) <= NextSlot(rule, b)
    ensures NextSlot(rule, a) == NextSlot(rule, b) <==> b < NextSlot(rule, a)
  {
  }

  /** The slots reached by asking `n` times for the next one. */
  function Iterate(rule: Rule, start: Time, n: nat): (slots: seq<Time>)
    requires rule.Valid()
    ensures |slots| == n
    decreases n
  {
    if n == 0 then []
    else
      var first := NextSlot(rule, start);
      [first] + Iterate(rule, first, n - 1)
  }

  /** Iterating from any start lists exactly the slots after it, in order, with none
      skipped and none repeated. */
  lemma {:induction false} IterateIncreases(rule: Rule, start: Time, n: nat)
    requires rule.Valid()
    ensures forall i :: 0 <= i < n ==> start < Iterate(rule, start, n)[i] && IsSlot(rule, Iterate(rule, start, n)[i])
    ensures forall i, j :: 0 <= i < j < n ==> Iterate(rule, start, n)[i] < Iterate(rule, start, n)[j]
    decreases n
  {
    if n > 0 {
      IterateIncreases(rule, NextSlot(rule, start), n - 1);
    }
  }

  lemma {:induction false} IterateSkipsNone(rule: Rule, start: Time, n: nat, u: Time)
    requires rule.Valid() && n > 0
    requires start < u <= Iterate(rule, start, n)[n - 1] && IsSlot(rule, u)
    ensures u in Iterate(rule, start, n)
    decreases n
  {
    var first := NextSlot(rule, start);
    assert Iterate(rule, start, n)[0] == first;
    if u != first {
      IterateSkipsNone(rule, first, n - 1, u);
    }
  }

  /** With every weekday allowed, consecutive slots are exactly a day apart and the
      next one is at most a day away. */
  lemma EveryDayGap(rule: Rule, now: Time)
    requires rule.Valid() && rule.days == EVERY_DAY
    ensures 0 < NextSlot(rule, now) - now <= DAY
    ensures NextSlot(rule, NextSlot(rule, now)) == NextSlot(rule, now) + DAY
  {
    EveryDayWithin(rule, now);
    var t := NextSlot(rule, now);
    EveryDayWithin(rule, t);
    var u := NextSlot(rule, t);
    SlotOfDay(rule, t);
    SlotOfDay(rule, u);
    assert LocalDay(u, rule.offset) - LocalDay(t, rule.offset) == 1;
  }

  lemma EveryDayWithin(rule: Rule, now: Time)
    requires rule.Valid() && rule.days == EVERY_DAY
    ensures NextSlot(rule, now) <= now + DAY
  {
    var today := LocalDay(now, rule.offset);
    DayOfSlot(rule, today);
    DayOfSlot(rule, today + 1);
    if now < SlotOn(rule, today) {
      assert IsSlot(rule, SlotOn(rule, today));
    } else {
      assert IsSlot(rule, SlotOn(rule, today + 1));
    }
  }

  /** The daily computation: today's slot if it is still ahead, else tomorrow's. */
  lemma DailyIsEveryDay(rule: Rule, now: Time)
    requires rule.Valid() && rule.days == EVERY_DAY
    ensures var today := LocalDay(now, rule.offset);
      NextSlot(rule, now) == if now < SlotOn(rule, today) then SlotOn(rule, today) else SlotOn(rule, today + 1)
  {
    var today := LocalDay(now, rule.offset);
    assert Search(rule, now, 1).Some? && Search(rule, now, 1).value == SlotOn(rule, today + 1);
  }
}
