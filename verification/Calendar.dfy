/** Instants and calendar fields in the years 0000 to 9999, and with them the filename codec the cron
    engine runs on. Instants count from the start of the year 0000, UTC. */
module Calendar {
  import opened Results
  import opened Lexicographic
  import opened Filenames
  import opened CronEngine

  function YearDays(year: nat): (n: nat)
    ensures 365 <= n <= 366
  {
    if Leap(year) then 366 else 365
  }

  function DaysBefore(year: nat): nat {
    if year == 0 then 0 else DaysBefore(year - 1) + YearDays(year - 1)
  }

  /** The Gregorian rule in closed form: one leap day for every fourth year that has begun, but not for
      every hundredth unless it is a four-hundredth. */
  lemma {:induction false} DaysBeforeClosed(year: nat)
    ensures DaysBefore(year) == 365 * year + (year + 3) / 4 - (year + 99) / 100 + (year + 399) / 400
  {
    if year > 0 {
      DaysBeforeClosed(year - 1);
      LeapDays(year - 1);
    }
  }

  lemma LeapDays(n: nat)
    ensures YearDays(n) == 365 + (n + 4) / 4 - (n + 3) / 4 - (n + 100) / 100 + (n + 99) / 100 + (n + 400) / 400 - (n + 399) / 400
  {
    Fourth(n);
    Hundredth(n);
    FourHundredth(n);
    Nested(n);
  }

  lemma Fourth(n: nat)
    ensures (n + 4) / 4 - (n + 3) / 4 == if n % 4 == 0 then 1 else 0
  {
  }

  lemma Hundredth(n: nat)
    ensures (n + 100) / 100 - (n + 99) / 100 == if n % 100 == 0 then 1 else 0
  {
  }

  lemma FourHundredth(n: nat)
    ensures (n + 400) / 400 - (n + 399) / 400 == if n % 400 == 0 then 1 else 0
  {
  }

  lemma Nested(n: nat)
    ensures n % 100 == 0 ==> n % 4 == 0
    ensures n % 400 == 0 ==> n % 100 == 0
  {
    if n % 100 == 0 {
      assert n == 4 * (25 * (n / 100));
    }
    if n % 400 == 0 {
      assert n == 100 * (4 * (n / 400));
    }
  }

  /** Days of the year before a month (1 to 13). */
  function MonthStart(year: nat, month: nat): nat {
    if month <= 1 then 0 else MonthStart(year, month - 1) + DaysIn(year, month - 1)
  }

  function DayNumber(f: Fields): int {
    DaysBefore(f.year) + MonthStart(f.year, f.month) + f.day - 1
  }

  function Seconds(f: Fields): int {
    DayNumber(f) * 86400 + f.hour * 3600 + f.minute * 60 + f.second
  }

  const DAYS: nat := DaysBefore(10000)

  lemma {:induction false} DaysBeforeGrows(a: nat, b: nat)
    requires a <= b
    ensures DaysBefore(a) <= DaysBefore(b)
    decreases b
  {
    if a < b {
      DaysBeforeGrows(a, b - 1);
    }
  }

  lemma {:induction false} MonthStartGrows(year: nat, a: nat, b: nat)
    requires a <= b
    ensures MonthStart(year, a) <= MonthStart(year, b)
    decreases b
  {
    if a < b {
      MonthStartGrows(year, a, b - 1);
    }
  }

  lemma {:induction false} MonthStarts(year: nat, month: nat)
    requires 1 <= month <= 13
    ensures var feb := DaysIn(year, 2);
      MonthStart(year, month) == [0, 0, 31, 31 + feb, 62 + feb, 92 + feb, 123 + feb, 153 + feb, 184 + feb, 215 + feb,
                                  245 + feb, 276 + feb, 306 + feb, 337 + feb][month]
  {
    if month > 1 {
      MonthStarts(year, month - 1);
    }
  }

  lemma YearIsItsMonths(year: nat)
    ensures MonthStart(year, 13) == YearDays(year)
  {
    MonthStarts(year, 13);
    hide MonthStart;
  }

  // ----- from instants to fields

  function FindYear(day: nat, year: nat): (y: nat)
    requires DaysBefore(year) <= day
    ensures year <= y && DaysBefore(y) <= day < DaysBefore(y + 1)
    decreases day - DaysBefore(year)
  {
    if day < DaysBefore(year + 1) then year else FindYear(day, year + 1)
  }

  function FindMonth(year: nat, day: nat, month: nat): (m: nat)
    requires 1 <= month <= 12 && MonthStart(year, month) <= day < MonthStart(year, 13)
    ensures month <= m <= 12 && MonthStart(year, m) <= day < MonthStart(year, m + 1)
    decreases 12 - month
  {
    if day < MonthStart(year, month + 1) then month else FindMonth(year, day, month + 1)
  }

  function DateOf(day: nat): (f: Fields)
    requires day < DAYS
    ensures Valid(f) && DayNumber(f) == day && f.hour == f.minute == f.second == 0
  {
    var y := FindYear(day, 0);
    YearIsItsMonths(y);
    var m := FindMonth(y, day - DaysBefore(y), 1);
    assert y <= 9999 by {
      if y >= 10000 {
        DaysBeforeGrows(10000, y);
      }
    }
    Fields(y, m, day - DaysBefore(y) - MonthStart(y, m) + 1, 0, 0, 0)
  }

  function FieldsOf(t: nat): (f: Fields)
    requires t < DAYS * 86400
    ensures Valid(f) && Seconds(f) == t
  {
    var s := t % 86400;
    assert t / 86400 < DAYS;
    var d := DateOf(t / 86400);
    AtTime(d, s);
    d.(hour := s / 3600, minute := s % 3600 / 60, second := s % 60)
  }

  lemma TimeOfDay(s: nat)
    requires s < 86400
    ensures s / 3600 < 24 && s % 3600 / 60 < 60 && s % 60 < 60
    ensures s / 3600 * 3600 + s % 3600 / 60 * 60 + s % 60 == s
  {
    assert s % 3600 % 60 == s % 60;
  }

  lemma AtTime(d: Fields, s: nat)
    requires Valid(d) && d.hour == d.minute == d.second == 0 && s < 86400
    ensures var f := d.(hour := s / 3600, minute := s % 3600 / 60, second := s % 60);
      Valid(f) && Seconds(f) == DayNumber(d) * 86400 + s
  {
    hide DaysBefore, MonthStart, DaysIn;
    TimeOfDay(s);
  }

  // ----- order

  lemma DayInYear(f: Fields)
    requires Valid(f)
    ensures DaysBefore(f.year) <= DayNumber(f) < DaysBefore(f.year + 1)
    ensures MonthStart(f.year, f.month) <= DayNumber(f) - DaysBefore(f.year) < MonthStart(f.year, f.month + 1)
  {
    YearIsItsMonths(f.year);
    MonthStartGrows(f.year, f.month + 1, 13);
    assert MonthStart(f.year, f.month + 1) == MonthStart(f.year, f.month) + DaysIn(f.year, f.month);
    hide MonthStart, DaysIn;
  }

  lemma EarlierDay(a: Fields, b: Fields)
    requires Valid(a) && Valid(b) && DateBefore(a, b)
    ensures DayNumber(a) < DayNumber(b)
  {
    DayInYear(a);
    DayInYear(b);
    hide DaysBefore, MonthStart;
    if a.year < b.year {
      DaysBeforeGrows(a.year + 1, b.year);
    } else if a.month < b.month {
      MonthStartGrows(a.year, a.month + 1, b.month);
    }
  }

  lemma EarlierSecond(a: Fields, b: Fields)
    requires Valid(a) && Valid(b) && Before(a, b)
    ensures Seconds(a) < Seconds(b)
  {
    hide DaysIn;
    if DateBefore(a, b) {
      EarlierDay(a, b);
    }
    hide DayNumber;
  }

  /** The calendar keeps the order of instants. */
  lemma SecondsOrder(a: Fields, b: Fields)
    requires Valid(a) && Valid(b)
    ensures Before(a, b) <==> Seconds(a) < Seconds(b)
  {
    if Before(a, b) {
      EarlierSecond(a, b);
    } else if a != b {
      EarlierSecond(b, a);
    }
    hide Seconds;
  }

  // ----- the program's codec

  function StemAt(t: int): string {
    if 0 <= t < DAYS * 86400 * SECOND then Stem(FieldsOf(t / SECOND)) else ""
  }

  function InstantOf(stem: string): Option<int> {
    var f :- ParseStem(stem);
    Some(Seconds(f) * SECOND)
  }

  /** `format_thread_filename_ts` and `parse_thread_filename_ts` on instants. */
  const PROGRAM: Codec := Codec(StemAt, InstantOf, 0, DAYS * 86400 * SECOND)

  /** The hypothesis of the cron theorems holds of the program's codec on all of the years 0000 to 9999. */
  lemma ProgramIsSound()
    ensures PROGRAM.Sound()
  {
    hide Stem, ParseStem, FieldsOf, Seconds, Valid;
    forall t | PROGRAM.Writes(t) ensures PROGRAM.parse(PROGRAM.stem(t)) == Some(t) {
      StemReads(t);
    }
  }

  lemma StemReads(t: int)
    requires PROGRAM.Writes(t)
    ensures InstantOf(StemAt(t)) == Some(t)
  {
    hide Stem, ParseStem, Seconds, Valid;
    assert t == t / SECOND * SECOND;
    StemRoundTrip(FieldsOf(t / SECOND));
  }

  /** Sorting the engine's filenames sorts its fires. */
  lemma StemsSortFires(t: int, u: int)
    requires PROGRAM.Writes(t) && PROGRAM.Writes(u)
    ensures Less(StemAt(t), StemAt(u)) <==> t < u
  {
    hide Stem, Seconds, Valid, Less;
    var a, b := FieldsOf(t / SECOND), FieldsOf(u / SECOND);
    StemOrder(a, b);
    SecondsOrder(a, b);
  }
}
