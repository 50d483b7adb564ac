/** The BCD calendar clock of the power manager (src/dev_i2c.c): how a date and time moves
    forward by a number of seconds. */
module Calendar {
  import opened Words

  function BcdToDec(v: Byte): nat {
    v / 16 * 10 + v % 16
  }

  function DecToBcd(v: nat): Byte {
    (v / 10 * 16 + v % 10) % 0x100
  }

  /** The seven clock registers in decimal; the year counts from 2000. */
  datatype Date = Date(sec: nat, min: nat, hour: nat, wday: nat, mday: nat, mon: nat, year: nat)

  function Decode(f: seq<Byte>): Date
    requires |f| == 7
  {
    Date(BcdToDec(f[0]), BcdToDec(f[1]), BcdToDec(f[2]), BcdToDec(f[3]), BcdToDec(f[4]),
         BcdToDec(f[5]), BcdToDec(f[6]))
  }

  function Encode(d: Date): (f: seq<Byte>)
    ensures |f| == 7
  {
    [DecToBcd(d.sec), DecToBcd(d.min), DecToBcd(d.hour), DecToBcd(d.wday), DecToBcd(d.mday),
     DecToBcd(d.mon), DecToBcd(d.year)]
  }

  predicate Leap(year: nat) {
    (2000 + year) % 4 == 0
  }

  function MonthDays(mon: nat): nat
    requires mon >= 1
  {
    var m := (mon - 1) % 12 + 1;
    if m == 2 then 28 else if m == 4 || m == 6 || m == 9 || m == 11 then 30 else 31
  }

  function DaysIn(mon: nat, year: nat): nat
    requires mon >= 1
  {
    if mon == 2 && Leap(year) then 29 else MonthDays(mon)
  }

  predicate Valid(d: Date) {
    d.sec < 60 && d.min < 60 && d.hour < 24 && d.wday < 7 && d.year < 100 &&
    1 <= d.mon <= 12 && 1 <= d.mday <= DaysIn(d.mon, d.year)
  }

  /** One pass of the day loop. */
  function NextDay(d: Date): (r: Date)
    requires d.mon >= 1
    ensures r.mon >= 1
  {
    if d.mday + 1 <= DaysIn(d.mon, d.year) then d.(mday := d.mday + 1)
    else if d.mon + 1 <= 12 then d.(mday := 1, mon := d.mon + 1)
    else d.(mday := 1, mon := 1, year := (d.year + 1) % 100)
  }

  function AddDays(d: Date, n: nat): (r: Date)
    requires d.mon >= 1
    ensures r.mon >= 1
  {
    if n == 0 then d else NextDay(AddDays(d, n - 1))
  }

  const DAY: nat := 86400

  /** Seconds since midnight. */
  function TimeOfDay(d: Date): nat {
    d.sec + 60 * d.min + 3600 * d.hour
  }

  function AtTime(d: Date, t: nat): Date {
    d.(sec := t % 60, min := t / 60 % 60, hour := t / 3600)
  }

  /** The date and time `n` seconds later. */
  function AddSeconds(d: Date, n: nat): Date
    requires d.mon >= 1
  {
    var total := TimeOfDay(d) + n;
    AtTime(AddDays(d, total / DAY), total % DAY).(wday := (d.wday + total / DAY) % 7)
  }

  /** What the registers become: month and day zero are taken as one. */
  function Advance(f: seq<Byte>, n: nat): (r: seq<Byte>)
    requires |f| == 7
    ensures |r| == 7
  {
    Encode(AddSeconds(Repaired(Decode(f)), n))
  }

  function Repaired(d: Date): (r: Date)
    ensures r.mon >= 1
  {
    d.(mon := if d.mon == 0 then 1 else d.mon, mday := if d.mday == 0 then 1 else d.mday)
  }

  lemma BcdRoundTrip(v: nat)
    requires v < 100
    ensures BcdToDec(DecToBcd(v)) == v
  {
    var tens, units := v / 10, v % 10;
    assert tens < 10 && units < 10;
    ModUnique(tens * 16 + units, tens, units, 16);
    ModUnique(tens * 16 + units, 0, tens * 16 + units, 0x100);
  }

  lemma DecodeEncode(d: Date)
    requires Valid(d)
    ensures Decode(Encode(d)) == d && Repaired(d) == d
  {
    hide BcdToDec, DecToBcd;
    BcdRoundTrip(d.sec);
    BcdRoundTrip(d.min);
    BcdRoundTrip(d.hour);
    BcdRoundTrip(d.wday);
    BcdRoundTrip(d.mday);
    BcdRoundTrip(d.mon);
    BcdRoundTrip(d.year);
  }

  // ---------------------------------------------------------------------- the day cycle

  /** Days from 2000 to 2099. */
  const CYCLE: nat := 36525

  function DaysBeforeYear(year: nat): nat {
    365 * year + (year + 3) / 4
  }

  function DaysBeforeMonth(mon: nat, year: nat): nat
    requires 1 <= mon <= 12
    decreases mon
  {
    if mon == 1 then 0 else DaysBeforeMonth(mon - 1, year) + DaysIn(mon - 1, year)
  }

  /** The day's number in the cycle, counted from 1 January 2000. */
  function DayNumber(d: Date): nat
    requires Valid(d)
  {
    DaysBeforeYear(d.year) + DaysBeforeMonth(d.mon, d.year) + d.mday - 1
  }

  lemma YearLength(year: nat)
    ensures DaysBeforeMonth(12, year) + 31 == (if Leap(year) then 366 else 365)
    ensures DaysBeforeYear(year + 1) == DaysBeforeYear(year) + DaysBeforeMonth(12, year) + 31
  {
    MonthStarts(year);
  }

  lemma MonthStarts(year: nat)
    ensures DaysBeforeMonth(4, year) == 90 + (if Leap(year) then 1 else 0)
    ensures DaysBeforeMonth(8, year) == 212 + (if Leap(year) then 1 else 0)
    ensures DaysBeforeMonth(12, year) == 334 + (if Leap(year) then 1 else 0)
  {
    assert DaysBeforeMonth(2, year) == 31;
    assert DaysBeforeMonth(4, year) == DaysBeforeMonth(3, year) + 31;
    assert DaysBeforeMonth(6, year) == DaysBeforeMonth(4, year) + 61;
    assert DaysBeforeMonth(8, year) == DaysBeforeMonth(6, year) + 61;
    assert DaysBeforeMonth(10, year) == DaysBeforeMonth(8, year) + 61;
    assert DaysBeforeMonth(12, year) == DaysBeforeMonth(10, year) + 61;
  }

  /** The day after is the next number of the cycle, and again a valid date. */
  lemma NextDayNumber(d: Date)
    requires Valid(d)
    ensures Valid(NextDay(d)) && DayNumber(NextDay(d)) == (DayNumber(d) + 1) % CYCLE
  {
    YearLength(d.year);
    DayWithinCycle(d);
    hide DaysBeforeMonth, DaysBeforeYear;
    var r := NextDay(d);
    if d.mday < DaysIn(d.mon, d.year) || d.mon < 12 {
      assert Valid(r) && DayNumber(r) == DayNumber(d) + 1;
      DayWithinCycle(r);
    } else {
      assert DayNumber(d) + 1 == DaysBeforeYear(d.year + 1);
      YearEnds(d.year);
      assert DayNumber(r) == DaysBeforeYear(r.year) + DaysBeforeMonth(1, r.year);
    }
  }

  lemma YearEnds(year: nat)
    requires year < 100
    ensures DaysBeforeYear((year + 1) % 100) == DaysBeforeYear(year + 1) % CYCLE
    ensures DaysBeforeMonth(1, (year + 1) % 100) == 0
  {
  }

  lemma DayWithinCycle(d: Date)
    requires Valid(d)
    ensures DayNumber(d) < CYCLE && DayNumber(d) % CYCLE == DayNumber(d)
  {
    hide DaysBeforeMonth, DayNumber;
    DayWithinYear(d);
    YearsInOrder(d.year + 1, 100);
    ModUnique(DayNumber(d), 0, DayNumber(d), CYCLE);
  }

  lemma DayWithinYear(d: Date)
    requires Valid(d)
    ensures DaysBeforeMonth(d.mon, d.year) + DaysIn(d.mon, d.year) <= DaysBeforeMonth(12, d.year) + 31
    ensures DaysBeforeYear(d.year) <= DayNumber(d) < DaysBeforeYear(d.year + 1)
  {
    MonthsInOrder(d.mon, 12, d.year);
    YearLength(d.year);
    hide DaysBeforeMonth, DaysBeforeYear;
  }

  lemma {:induction false} MonthsInOrder(a: nat, b: nat, year: nat)
    requires 1 <= a <= b <= 12
    ensures a == b || DaysBeforeMonth(a, year) + DaysIn(a, year) <= DaysBeforeMonth(b, year)
    decreases b
  {
    if a < b {
      MonthsInOrder(a, b - 1, year);
    }
  }

  lemma YearsInOrder(a: nat, b: nat)
    ensures a <= b ==> DaysBeforeYear(a) <= DaysBeforeYear(b)
  {
  }

  /** The day loop adds exactly its count, modulo the cycle. */
  lemma {:induction false} AddDaysNumber(d: Date, n: nat)
    requires Valid(d)
    ensures Valid(AddDays(d, n)) && DayNumber(AddDays(d, n)) == (DayNumber(d) + n) % CYCLE
  {
    hide DaysIn, DayNumber, NextDay;
    DayWithinCycle(d);
    if n != 0 {
      AddDaysNumber(d, n - 1);
      NextDayNumber(AddDays(d, n - 1));
      DivideSum(0, DayNumber(d) + n - 1, 1, CYCLE);
    }
  }

  /** A valid date is determined by its day number. */
  lemma DayNumberDetermines(a: Date, b: Date)
    requires Valid(a) && Valid(b) && DayNumber(a) == DayNumber(b)
    ensures a.year == b.year && a.mon == b.mon && a.mday == b.mday
  {
    hide DaysBeforeMonth, DaysBeforeYear, DayNumber;
    DayWithinYear(a);
    DayWithinYear(b);
    YearsInOrder(a.year + 1, b.year);
    YearsInOrder(b.year + 1, a.year);
    if a.year == b.year {
      EarlierMonth(a, b);
      EarlierMonth(b, a);
      SameMonth(a, b);
    }
  }

  lemma SameMonth(a: Date, b: Date)
    requires Valid(a) && Valid(b) && a.year == b.year
    ensures a.mon == b.mon ==> DayNumber(a) - a.mday == DayNumber(b) - b.mday
  {
  }

  lemma EarlierMonth(a: Date, b: Date)
    requires Valid(a) && Valid(b) && a.year == b.year
    ensures a.mon < b.mon ==> DayNumber(a) < DayNumber(b)
  {
    if a.mon < b.mon {
      MonthsInOrder(a.mon, b.mon, a.year);
    }
    hide DaysBeforeMonth, DaysBeforeYear;
  }

  /** The day loop touches nothing but day, month and year, and whole cycles change nothing. */
  lemma {:induction false} AddDaysFrame(d: Date, n: nat)
    requires d.mon >= 1
    ensures var r := AddDays(d, n);
            r.sec == d.sec && r.min == d.min && r.hour == d.hour && r.wday == d.wday
  {
    if n != 0 {
      AddDaysFrame(d, n - 1);
    }
  }

  lemma WholeCycles(d: Date, k: nat)
    requires Valid(d)
    ensures AddDays(d, k * CYCLE) == d
  {
    hide DayNumber, AddDays;
    AddDaysNumber(d, k * CYCLE);
    AddDaysFrame(d, k * CYCLE);
    DayWithinCycle(d);
    ModUnique(DayNumber(d) + k * CYCLE, k, DayNumber(d), CYCLE);
    DayNumberDetermines(d, AddDays(d, k * CYCLE));
  }

  // --------------------------------------------------------------- an action of the naturals

  lemma {:induction false} AddDaysAdd(d: Date, m: nat, n: nat)
    requires d.mon >= 1
    ensures AddDays(AddDays(d, m), n) == AddDays(d, m + n)
  {
    if n != 0 {
      AddDaysAdd(d, m, n - 1);
    }
  }

  /** The day loop does not look at the time or the weekday. */
  lemma {:induction false} AddDaysTime(d: Date, n: nat, sec: nat, min: nat, hour: nat, wday: nat)
    requires d.mon >= 1
    ensures AddDays(d.(sec := sec, min := min, hour := hour, wday := wday), n) ==
            AddDays(d, n).(sec := sec, min := min, hour := hour, wday := wday)
  {
    if n != 0 {
      AddDaysTime(d, n - 1, sec, min, hour, wday);
    }
  }

  lemma TimeParts(t: nat)
    requires t < DAY
    ensures t % 60 < 60 && t / 60 % 60 < 60 && t / 3600 < 24
    ensures t % 60 + 60 * (t / 60 % 60) + 3600 * (t / 3600) == t
  {
    assert t / 60 / 60 == t / 3600;
  }

  /** Advancing keeps dates valid, and time of day and day number together move by exactly
      the seconds given, modulo the cycle. */
  lemma AddSecondsExact(d: Date, n: nat)
    requires Valid(d)
    ensures var r := AddSeconds(d, n); var total := TimeOfDay(d) + n;
            && Valid(r) && TimeOfDay(r) == total % DAY
            && DayNumber(r) == (DayNumber(d) + total / DAY) % CYCLE
            && r.wday == (d.wday + total / DAY) % 7
            && (DayNumber(r) * DAY + TimeOfDay(r)) ==
               (DayNumber(d) * DAY + TimeOfDay(d) + n) % (CYCLE * DAY)
  {
    hide AddDays, AtTime, TimeOfDay, DayNumber, Valid;
    MonthSet(d);
    var total := TimeOfDay(d) + n;
    var q, t := total / DAY, total % DAY;
    AddSecondsIs(d, n, q, t);
    AddDaysNumber(d, q);
    TimeAt(AddDays(d, q), t, (d.wday + q) % 7);
    SameDay(AddDays(d, q), t, (d.wday + q) % 7);
    CycleSeconds(DayNumber(d), total);
  }

  /** Setting the time and the weekday leaves the day, and a valid date. */
  lemma SameDay(d: Date, time: nat, wday: nat)
    requires Valid(d) && time < DAY && wday < 7
    ensures var r := AtTime(d, time).(wday := wday); Valid(r) && DayNumber(r) == DayNumber(d)
  {
    hide DaysBeforeMonth, DaysBeforeYear;
    TimeParts(time);
  }

  lemma CycleSeconds(day: nat, total: nat)
    ensures (day + total / DAY) % CYCLE * DAY + total % DAY == (day * DAY + total) % (CYCLE * DAY)
  {
    var sum := day + total / DAY;
    ModUnique(day * DAY + total, sum / CYCLE, sum % CYCLE * DAY + total % DAY, CYCLE * DAY);
  }

  /** Advancing by a and then by b is advancing by a + b. */
  lemma AddSecondsAdd(d: Date, a: nat, b: nat)
    requires Valid(d)
    ensures AddSeconds(AddSeconds(d, a), b) == AddSeconds(d, a + b)
  {
    hide AddDays, Valid, TimeOfDay, AtTime, AddSeconds;
    MonthSet(d);
    var t := TimeOfDay(d) + a;
    var q, m := t / DAY, t % DAY;
    var q', m' := (m + b) / DAY, (m + b) % DAY;
    DivideSum(0, t, b, DAY);
    DivideSum(d.wday, q, q', 7);
    AddSecondsIs(d, a, q, m);
    AddSecondsIs(d, a + b, q + q', m');
    var one := AddSeconds(d, a);
    TimeAt(AddDays(d, q), m, (d.wday + q) % 7);
    AddSecondsIs(one, b, q', m');
    AddDaysAdd(d, q, q');
    AddDaysTime(AddDays(d, q), q', one.sec, one.min, one.hour, one.wday);
    OnlyTimeSet(AddDays(d, q + q'), one, m', (d.wday + q + q') % 7);
  }

  lemma MonthSet(d: Date)
    requires Valid(d)
    ensures d.mon >= 1
  {
  }

  lemma AddSecondsIs(d: Date, n: nat, days: nat, time: nat)
    requires d.mon >= 1 && TimeOfDay(d) + n == days * DAY + time && time < DAY
    ensures AddSeconds(d, n) == AtTime(AddDays(d, days), time).(wday := (d.wday + days) % 7)
  {
    hide TimeOfDay, AddDays, AtTime;
  }

  lemma TimeAt(d: Date, time: nat, wday: nat)
    requires time < DAY
    ensures var r := AtTime(d, time).(wday := wday);
            TimeOfDay(r) == time && r == d.(sec := r.sec, min := r.min, hour := r.hour, wday := r.wday)
  {
    TimeParts(time);
  }

  /** Setting the time and the weekday forgets what they were. */
  lemma OnlyTimeSet(d: Date, e: Date, time: nat, wday: nat)
    ensures AtTime(d.(sec := e.sec, min := e.min, hour := e.hour, wday := e.wday), time).(wday := wday)
         == AtTime(d, time).(wday := wday)
  {
  }

  /** The same on the registers themselves. */
  lemma AdvanceAdd(f: seq<Byte>, a: nat, b: nat)
    requires |f| == 7 && Valid(Decode(f))
    ensures Advance(Advance(f, a), b) == Advance(f, a + b)
    ensures Valid(Decode(Advance(f, a))) && Decode(Advance(f, a)) == AddSeconds(Decode(f), a)
  {
    hide AddSeconds, Encode, Decode, Valid;
    var d := Decode(f);
    ValidRepair(d);
    AddSecondsExact(d, a);
    DecodeEncode(AddSeconds(d, a));
    AddSecondsAdd(d, a, b);
  }

  lemma ValidRepair(d: Date)
    requires Valid(d)
    ensures Repaired(d) == d
  {
  }

  // ----------------------------------------------------------------------- the routine

  /** The mixed-radix carries of the routine give the time of day and the day count. */
  lemma Carries(d: Date, n: nat)
    ensures var sec := d.sec + n % 60;
            var min := d.min + sec / 60 + n / 60 % 60;
            var hour := d.hour + min / 60 + n / 3600 % 24;
            var total := TimeOfDay(d) + n;
            && total / DAY == n / DAY + hour / 24
            && AtTime(d, total % DAY) == d.(sec := sec % 60, min := min % 60, hour := hour % 24)
  {
    var sec := d.sec + n % 60;
    var min := d.min + sec / 60 + n / 60 % 60;
    var hour := d.hour + min / 60 + n / 3600 % 24;
    var total := TimeOfDay(d) + n;
    SecondsParts(n);
    var rest := sec % 60 + 60 * (min % 60) + 3600 * (hour % 24);
    assert total == (n / DAY + hour / 24) * DAY + rest;
    ModUnique(total, n / DAY + hour / 24, rest, DAY);
    PartsOf(sec % 60, min % 60, hour % 24);
  }

  lemma SecondsParts(n: nat)
    ensures n == n % 60 + 60 * (n / 60 % 60) + 3600 * (n / 3600 % 24) + DAY * (n / DAY)
  {
    assert n / 60 / 60 == n / 3600;
    assert n / 3600 / 24 == n / DAY;
  }

  lemma PartsOf(sec: nat, min: nat, hour: nat)
    requires sec < 60 && min < 60 && hour < 24
    ensures var t := sec + 60 * min + 3600 * hour;
            t % 60 == sec && t / 60 % 60 == min && t / 3600 == hour && t < DAY
  {
    var t := sec + 60 * min + 3600 * hour;
    assert t / 60 == min + 60 * hour;
  }

  /** The routine's carries and its day loop together are AddSeconds. */
  lemma Assembled(d: Date, n: nat)
    requires d.mon >= 1
    ensures var sec := d.sec + n % 60;
            var min := d.min + sec / 60 + n / 60 % 60;
            var hour := d.hour + min / 60 + n / 3600 % 24;
            var days := n / DAY + hour / 24; var day := AddDays(d, days);
            AddSeconds(d, n) == Date(sec % 60, min % 60, hour % 24, (d.wday + days) % 7,
                                     day.mday, day.mon, day.year)
  {
    Carries(d, n);
    AddDaysFrame(d, (TimeOfDay(d) + n) / DAY);
    AddDaysTime(d, (TimeOfDay(d) + n) / DAY, 0, 0, 0, 0);
    hide AddDays;
  }

  /** Moves the seven BCD registers forward by `elapsed` seconds, in place. */
  method AdvanceFields(fields: array<Byte>, elapsed: nat)
    requires fields.Length == 7
    modifies fields
    ensures fields[..] == Advance(old(fields[..]), elapsed)
  {
    hide BcdToDec, DecToBcd, AddSeconds;
    ghost var start := Repaired(Decode(fields[..]));
    var sec := BcdToDec(fields[0]);
    var min := BcdToDec(fields[1]);
    var hour := BcdToDec(fields[2]);
    var wday := BcdToDec(fields[3]);
    var mday := BcdToDec(fields[4]);
    var mon := BcdToDec(fields[5]);
    var year := BcdToDec(fields[6]);
    if mon == 0 { mon := 1; }
    if mday == 0 { mday := 1; }
    assert start == Date(sec, min, hour, wday, mday, mon, year);

    sec := sec + elapsed % 60;
    min := min + sec / 60;
    sec := sec % 60;
    min := min + elapsed / 60 % 60;
    hour := hour + min / 60;
    min := min % 60;
    hour := hour + elapsed / 3600 % 24;
    var days := elapsed / DAY + hour / 24;
    hour := hour % 24;
    wday := (wday + days) % 7;
    mday, mon, year := CountDays(mday, mon, year, days, start);
    Assembled(start, elapsed);
    StoreFields(fields, Date(sec, min, hour, wday, mday, mon, year));
  }

  method StoreFields(fields: array<Byte>, d: Date)
    requires fields.Length == 7 && d.wday < 7
    modifies fields
    ensures fields[..] == Encode(d)
  {
    hide DecToBcd;
    fields[0] := DecToBcd(d.sec);
    fields[1] := DecToBcd(d.min);
    fields[2] := DecToBcd(d.hour);
    fields[3] := DecToBcd(d.wday % 7);
    fields[4] := DecToBcd(d.mday);
    fields[5] := DecToBcd(d.mon);
    fields[6] := DecToBcd(d.year);
  }

  /** The day loop of the routine. */
  method CountDays(mday0: nat, mon0: nat, year0: nat, days: nat, ghost start: Date)
    returns (mday: nat, mon: nat, year: nat)
    requires mon0 >= 1 && start == start.(mday := mday0, mon := mon0, year := year0)
    ensures var r := AddDays(start, days); mday == r.mday && mon == r.mon && year == r.year
  {
    mday, mon, year := mday0, mon0, year0;
    var i := 0;
    while i < days
      invariant i <= days && mon >= 1
      invariant start.(mday := mday, mon := mon, year := year) == AddDays(start, i)
    {
      var dim := MonthDays(mon);
      if mon == 2 && (2000 + year) % 4 == 0 {
        dim := 29;
      }
      mday := mday + 1;
      if mday > dim {
        mday := 1;
        mon := mon + 1;
        if mon > 12 {
          mon := 1;
          year := (year + 1) % 100;
        }
      }
      i := i + 1;
    }
  }
}
