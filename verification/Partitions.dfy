/** The monthly partitions of the message table: `EnsureMessagePartition` in
    internal/storage/postgres/store.go, and PostgreSQL's rules for range partitions. */
module Partitions {
  import opened Basics
  import opened Text
  import opened Calendar

  // ---------- months ----------

  datatype Range = Range(start: Time, end: Time) {
    predicate Contains(t: Time) { start <= t < end }
  }

  predicate Overlap(a: Range, b: Range) { a.start < b.end && b.start < a.end }

  datatype Month = Month(year: int, month: int) {
    predicate Valid() { 1 <= month <= 12 }

    predicate Before(other: Month) {
      year < other.year || (year == other.year && month < other.month)
    }
  }

  function MonthOfInstant(t: Time): (m: Month)
    ensures m.Valid()
  {
    var c := CivilOf(t / DAY);
    Month(c.year, c.month)
  }

  /** Midnight UTC on the first of the month, and the same a month later:
      `start.AddDate(0, 1, 0)`, where December rolls over into the next year. */
  function MonthRange(m: Month): Range {
    Range(Ordinal(FirstOfMonth(m.year, m.month)) * DAY, Ordinal(FirstOfMonth(m.year, m.month + 1)) * DAY)
  }

  lemma FirstOfValidMonth(m: Month)
    requires m.Valid()
    ensures FirstOfMonth(m.year, m.month) == Civil(m.year, m.month, 1)
    ensures FirstOfMonth(m.year, m.month + 1) ==
      if m.month == 12 then Civil(m.year + 1, 1, 1) else Civil(m.year, m.month + 1, 1)
  {
  }

  lemma FirstDays(m: Month)
    requires m.Valid()
    ensures Ordinal(FirstOfMonth(m.year, m.month + 1)) ==
      Ordinal(FirstOfMonth(m.year, m.month)) + DaysIn(m.year, m.month)
  {
    hide FirstOfMonth;
    FirstOfValidMonth(m);
    YearLength(m.year);
    MonthsFillYear(m.year);
  }

  lemma TimesDay(a: int, b: int)
    ensures a <= b <==> a * DAY <= b * DAY
  {
  }

  /** Every instant lies in the range of its own month, leap days and year ends
      included. */
  lemma MonthCovers(t: Time)
    ensures MonthRange(MonthOfInstant(t)).Contains(t)
  {
    var m := MonthOfInstant(t);
    DayInMonth(t / DAY);
    hide CivilOf, FirstOfMonth, Ordinal;
    DayBounds(t, Ordinal(FirstOfMonth(m.year, m.month)), Ordinal(FirstOfMonth(m.year, m.month + 1)));
  }

  lemma DayInMonth(n: int)
    ensures var c := CivilOf(n);
      Ordinal(FirstOfMonth(c.year, c.month)) <= n < Ordinal(FirstOfMonth(c.year, c.month + 1))
  {
    var c := CivilOf(n);
    var m := Month(c.year, c.month);
    hide CivilOf, FirstOfMonth, DaysBeforeYear, DaysBeforeMonth;
    FirstOfValidMonth(m);
    FirstDays(m);
  }

  lemma DayBounds(t: Time, first: int, next: int)
    requires first <= t / DAY < next
    ensures first * DAY <= t < next * DAY
  {
  }

  /** Earlier months end before later months start. */
  lemma MonthsInOrder(a: Month, b: Month)
    requires a.Valid() && b.Valid() && a.Before(b)
    ensures MonthRange(a).end <= MonthRange(b).start
  {
    hide FirstOfMonth, Ordinal;
    var next, first := FirstOfMonth(a.year, a.month + 1), FirstOfMonth(b.year, b.month);
    FirstDaysInOrder(a, b);
    TimesDay(Ordinal(next), Ordinal(first));
  }

  lemma FirstDaysInOrder(a: Month, b: Month)
    requires a.Valid() && b.Valid() && a.Before(b)
    ensures Ordinal(FirstOfMonth(a.year, a.month + 1)) <= Ordinal(FirstOfMonth(b.year, b.month))
  {
    hide FirstOfMonth, Ordinal;
    FirstOfValidMonth(a);
    FirstOfValidMonth(b);
    var next, first := FirstOfMonth(a.year, a.month + 1), FirstOfMonth(b.year, b.month);
    if next != first {
      OrdinalMonotone(next, first);
    }
  }

  /** Months tile time: an instant lies in the range of exactly one month. */
  lemma MonthsTile(t: Time, m: Month)
    requires m.Valid()
    ensures MonthRange(m).Contains(t) <==> m == MonthOfInstant(t)
  {
    MonthCovers(t);
    var own := MonthOfInstant(t);
    if m.Before(own) {
      MonthsInOrder(m, own);
    } else if own.Before(m) {
      MonthsInOrder(own, m);
    }
  }

  lemma MonthsDisjoint(a: Month, b: Month)
    requires a.Valid() && b.Valid()
    ensures Overlap(MonthRange(a), MonthRange(b)) <==> a == b
  {
    if a.Before(b) {
      MonthsInOrder(a, b);
    } else if b.Before(a) {
      MonthsInOrder(b, a);
    } else {
      hide FirstOfMonth, Ordinal;
      FirstDays(a);
      TimesDay(Ordinal(FirstOfMonth(a.year, a.month + 1)), Ordinal(FirstOfMonth(a.year, a.month)));
    }
  }

  // ---------- table names ----------

  /** Zeros on the left, up to `width` characters. */
  function PadLeft(s: string, width: nat): string
    decreases width - |s|
  {
    if |s| >= width then s else PadLeft("0" + s, width)
  }

  /** `%04d`; the width includes a minus sign. */
  function FourDigits(n: int): string {
    if n < 0 then "-" + PadLeft(Digits(-n), 3) else PadLeft(Digits(n), 4)
  }

  const PREFIX: string := "mqtt_messages_"

  function TableName(m: Month): string
    requires m.Valid()
  {
    PREFIX + FourDigits(m.year) + "_" + TwoDigits(m.month)
  }

  lemma {:induction false} LeadingZero(s: string)
    requires AllDigits(s)
    ensures AllDigits("0" + s) && Value("0" + s) == Value(s)
  {
    var t := "0" + s;
    assert forall c | c in t :: c == '0' || c in s;
    if s == "" {
      assert t[..0] == "";
    } else {
      assert t[..|t| - 1] == "0" + s[..|s| - 1];
      LeadingZero(s[..|s| - 1]);
    }
  }

  lemma {:induction false} PaddedValue(s: string, width: nat)
    requires AllDigits(s) && s != ""
    ensures var p := PadLeft(s, width); p != "" && AllDigits(p) && Value(p) == Value(s)
    decreases width - |s|
  {
    if |s| < width {
      LeadingZero(s);
      PaddedValue("0" + s, width);
    }
  }

  /** What a padded number stands for. */
  function Reading(s: string): int
    requires s != "" && AllDigits(if s[0] == '-' then s[1..] else s)
  {
    if s[0] == '-' then -Value(s[1..]) else Value(s)
  }

  lemma ReadFourDigits(n: int)
    ensures var s := FourDigits(n); s != "" && AllDigits(if s[0] == '-' then s[1..] else s) && Reading(s) == n
  {
    ValueDigits(Abs(n));
    PaddedValue(Digits(Abs(n)), 3);
    PaddedValue(Digits(Abs(n)), 4);
    var s := FourDigits(n);
    if n < 0 {
      assert s[1..] == PadLeft(Digits(-n), 3);
    } else {
      assert IsDigit(s[0]);
    }
  }

  /** A table name determines its month, for every year. */
  lemma TableNamesDiffer(a: Month, b: Month)
    requires a.Valid() && b.Valid() && TableName(a) == TableName(b)
    ensures a == b
  {
    var s, t := TableName(a), TableName(b);
    assert s[|s| - 2..] == TwoDigits(a.month) && t[|t| - 2..] == TwoDigits(b.month);
    assert s[|PREFIX|..|s| - 3] == FourDigits(a.year) && t[|PREFIX|..|t| - 3] == FourDigits(b.year);
    AtoiTwoDigits(a.month);
    AtoiTwoDigits(b.month);
    ReadFourDigits(a.year);
    ReadFourDigits(b.year);
  }

  // ---------- PostgreSQL's partitions ----------

  type Parts = map<string, Range>

  /** `CREATE TABLE IF NOT EXISTS ... PARTITION OF`: an existing name is left alone; a
      range that meets another partition, or rows of the default partition, is refused. */
  predicate Refused(parts: Parts, inDefault: set<Time>, name: string, range: Range) {
    && name !in parts
    && ((exists other | other in parts :: Overlap(parts[other], range))
        || (exists t | t in inDefault :: range.Contains(t)))
  }

  function Created(parts: Parts, name: string, range: Range): Parts {
    if name in parts then parts else parts[name := range]
  }

  /** Where a row goes: the partition whose range has its time, or the default one. */
  ghost predicate IsPlace(parts: Parts, t: Time, place: Option<string>) {
    match place
    case Some(name) => name in parts && parts[name].Contains(t)
    case None => forall name | name in parts :: !parts[name].Contains(t)
  }

  /** Every partition holds exactly the month its name says. */
  ghost predicate Monthly(parts: Parts) {
    forall name | name in parts ::
      exists m: Month :: m.Valid() && name == TableName(m) && parts[name] == MonthRange(m)
  }

  function Ensured(parts: Parts, t: Time): Parts {
    Created(parts, TableName(MonthOfInstant(t)), MonthRange(MonthOfInstant(t)))
  }

  /** With monthly partitions and an empty default one, creating the partition for any
      instant is never refused, and leaves them monthly. */
  lemma EnsureSucceeds(parts: Parts, t: Time)
    requires Monthly(parts)
    ensures !Refused(parts, {}, TableName(MonthOfInstant(t)), MonthRange(MonthOfInstant(t)))
    ensures Monthly(Ensured(parts, t))
  {
    var own := MonthOfInstant(t);
    forall name | name in parts && Overlap(parts[name], MonthRange(own))
      ensures name == TableName(own)
    {
      var m: Month :| m.Valid() && name == TableName(m) && parts[name] == MonthRange(m);
      MonthsDisjoint(m, own);
    }
    assert own.Valid();
  }

  /** Distinct partitions do not meet, and a row can only go to the partition named
      after its month, once that exists. */
  lemma PlaceIsOwnMonth(parts: Parts, t: Time, place: Option<string>)
    requires Monthly(parts) && IsPlace(parts, t, place)
    ensures place.Some? ==> place.value == TableName(MonthOfInstant(t))
    ensures place.None? <==> TableName(MonthOfInstant(t)) !in parts
    ensures forall a, b | a in parts && b in parts && a != b :: !Overlap(parts[a], parts[b])
  {
    var own := MonthOfInstant(t);
    if place.Some? {
      var m: Month :| m.Valid() && place.value == TableName(m) && parts[place.value] == MonthRange(m);
      MonthsTile(t, m);
    }
    if TableName(own) in parts {
      var m: Month :| m.Valid() && TableName(own) == TableName(m) && parts[TableName(own)] == MonthRange(m);
      TableNamesDiffer(m, own);
      MonthCovers(t);
    }
    forall a, b | a in parts && b in parts && a != b
      ensures !Overlap(parts[a], parts[b])
    {
      var m: Month :| m.Valid() && a == TableName(m) && parts[a] == MonthRange(m);
      var n: Month :| n.Valid() && b == TableName(n) && parts[b] == MonthRange(n);
      MonthsDisjoint(m, n);
    }
  }

  // ---------- months and names as they are written ----------

  /** A month runs from midnight UTC on its first day to midnight on the first of the next. */
  lemma MonthBounds(m: Month)
    requires m.Valid()
    ensures MonthRange(m).start == Ordinal(Civil(m.year, m.month, 1)) * 86_400_000_000_000
    ensures MonthRange(m).end ==
      (if m.month == 12 then Ordinal(Civil(m.year + 1, 1, 1)) else Ordinal(Civil(m.year, m.month + 1, 1)))
      * 86_400_000_000_000
  {
    hide Ordinal, FirstOfMonth;
    FirstOfValidMonth(m);
  }

  /** Whatever the time of day, an instant belongs to the month of its date in UTC. */
  lemma DateInMonth(c: Civil, x: Time)
    requires c.Valid() && 0 <= x < 86_400_000_000_000
    ensures MonthOfInstant(Ordinal(c) * 86_400_000_000_000 + x) == Month(c.year, c.month)
  {
    hide Ordinal, CivilOf;
    DayWithRest(Ordinal(c), x);
    DatesAndDayNumbers(c, Ordinal(c));
  }

  lemma DayWithRest(day: int, x: Time)
    requires 0 <= x < DAY
    ensures (day * DAY + x) / DAY == day
  {
  }

  /** Two ranges overlap exactly if some instant lies in both. */
  lemma OverlapMeans(a: Range, b: Range)
    requires a.start < a.end && b.start < b.end
    ensures Overlap(a, b) <==> exists t :: a.Contains(t) && b.Contains(t)
  {
    if Overlap(a, b) {
      var t := if a.start < b.start then b.start else a.start;
      assert a.Contains(t) && b.Contains(t);
    }
  }

  /** The character of a digit. */
  function Digit(d: nat): char
    requires d < 10
  {
    "0123456789"[d]
  }

  lemma DigitsStep(m: nat, d: nat)
    requires d < 10
    ensures Digits(d) == [Digit(d)]
    ensures m > 0 ==> Digits(10 * m + d) == Digits(m) + [Digit(d)]
  {
    DigitsSpec(d);
    DigitsSpec(10 * m + d);
    assert (10 * m + d) / 10 == m && (10 * m + d) % 10 == d;
  }

  lemma Digits2(c: nat, d: nat)
    requires 0 < c < 10 && d < 10
    ensures Digits(10 * c + d) == [Digit(c), Digit(d)]
  {
    DigitsStep(0, c);
    DigitsStep(c, d);
  }

  lemma Digits3(b: nat, c: nat, d: nat)
    requires 0 < b < 10 && c < 10 && d < 10
    ensures Digits(100 * b + 10 * c + d) == [Digit(b), Digit(c), Digit(d)]
  {
    Digits2(b, c);
    DigitsStep(10 * b + c, d);
    hide Digits, Digit;
    assert 10 * (10 * b + c) + d == 100 * b + 10 * c + d;
  }

  lemma Digits4(a: nat, b: nat, c: nat, d: nat)
    requires 0 < a < 10 && b < 10 && c < 10 && d < 10
    ensures Digits(1000 * a + 100 * b + 10 * c + d) == [Digit(a), Digit(b), Digit(c), Digit(d)]
  {
    var m := 100 * a + 10 * b + c;
    Digits3(a, b, c);
    hide Digits, Digit;
    var s := [Digit(a), Digit(b), Digit(c)];
    Appended(m, d, 1000 * a + 100 * b + 10 * c + d, s);
    assert s + [Digit(d)] == [Digit(a), Digit(b), Digit(c), Digit(d)];
  }

  lemma Appended(m: nat, d: nat, n: nat, s: string)
    requires m > 0 && d < 10 && n == 10 * m + d && Digits(m) == s
    ensures Digits(n) == s + [Digit(d)]
  {
    DigitsStep(m, d);
    hide Digits, Digit;
  }

  lemma FourDigitsSpec(a: nat, b: nat, c: nat, d: nat)
    requires a < 10 && b < 10 && c < 10 && d < 10
    ensures FourDigits(1000 * a + 100 * b + 10 * c + d) == [Digit(a), Digit(b), Digit(c), Digit(d)]
  {
    ZeroDigit();
    if a > 0 {
      Digits4(a, b, c, d);
      hide Digits, Digit;
      Padded([Digit(a), Digit(b), Digit(c), Digit(d)]);
    } else if b > 0 {
      Digits3(b, c, d);
      hide Digits, Digit;
      Padded([Digit(b), Digit(c), Digit(d)]);
      assert "0" + [Digit(b), Digit(c), Digit(d)] == [Digit(0), Digit(b), Digit(c), Digit(d)];
    } else if c > 0 {
      Digits2(c, d);
      hide Digits, Digit;
      Padded([Digit(c), Digit(d)]);
      assert "00" + [Digit(c), Digit(d)] == [Digit(0), Digit(0), Digit(c), Digit(d)];
    } else {
      DigitsStep(0, d);
      hide Digits, Digit;
      Padded([Digit(d)]);
      assert "000" + [Digit(d)] == [Digit(0), Digit(0), Digit(0), Digit(d)];
    }
  }

  lemma ZeroDigit()
    ensures Digit(0) == '0'
  {
  }

  lemma Padded(s: string)
    requires 1 <= |s| <= 4
    ensures PadLeft(s, 4) ==
      if |s| == 4 then s else if |s| == 3 then "0" + s else if |s| == 2 then "00" + s else "000" + s
  {
    if |s| == 2 {
      assert "0" + ("0" + s) == "00" + s;
    } else if |s| == 1 {
      assert "0" + ("0" + ("0" + s)) == "000" + s;
    }
  }

  /** The table of a month: the four digits of its year and the two of its month. */
  lemma TableNameSpec(m: Month, a: nat, b: nat, c: nat, d: nat)
    requires m.Valid() && a < 10 && b < 10 && c < 10 && d < 10 && m.year == 1000 * a + 100 * b + 10 * c + d
    ensures TableName(m) == "mqtt_messages_" + [Digit(a), Digit(b), Digit(c), Digit(d)]
      + "_" + [Digit(m.month / 10), Digit(m.month % 10)]
  {
    FourDigitsSpec(a, b, c, d);
    WrittenNumbers(m.month);
    hide FourDigits, TwoDigits;
  }
}
