/** The 18+ check: calendar arithmetic in UTC days, as the runtime's dates do it. */
module Age {
  import opened Common
  import opened JsText
  import opened Decimal

  datatype Date = Date(year: int, month: int, day: int)

  predicate IsLeap(y: int) { y % 4 == 0 && (y % 100 != 0 || y % 400 == 0) }

  function MonthLength(y: int, m: int): (n: int)
    requires 1 <= m <= 12
    ensures 28 <= n <= 31
  {
    if m == 2 then if IsLeap(y) then 29 else 28
    else if m == 4 || m == 6 || m == 9 || m == 11 then 30 else 31
  }

  /** A date of the calendar, extended to all years from 0 on. */
  predicate Valid(d: Date) {
    0 <= d.year && 1 <= d.month <= 12 && 1 <= d.day <= MonthLength(d.year, d.month)
  }

  /** Earlier in the calendar: by year, then month, then day. */
  predicate Before(a: Date, b: Date) {
    a.year < b.year || (a.year == b.year && (a.month < b.month || (a.month == b.month && a.day < b.day)))
  }

  predicate AtMost(a: Date, b: Date) { a == b || Before(a, b) }

  /* ------------------------------------ days as numbers ------------------------------------ */

  /** Days from 0000-01-01 to the first of January of `y`. */
  function YearStart(y: nat): nat { 365 * y + (y + 3) / 4 - (y + 99) / 100 + (y + 399) / 400 }

  function MonthStart(y: nat, m: int): int
    requires 1 <= m <= 13
    decreases m
  {
    if m == 1 then YearStart(y) else MonthStart(y, m - 1) + MonthLength(y, m - 1)
  }

  function DayNumber(y: nat, m: int, d: int): int
    requires 1 <= m <= 12
  {
    MonthStart(y, m) + d - 1
  }

  lemma Fours(y: nat)
    ensures (y + 4) / 4 == (y + 3) / 4 + if y % 4 == 0 then 1 else 0
  {}

  lemma MultiplesAreApart(k: int, d: int)
    requires k > 0
    ensures d >= 1 ==> k * d >= k
    ensures d <= -1 ==> k * d <= -k
  {}

  /** Where a division by `k` steps up. */
  lemma StepsUp(y: nat, k: nat, q: nat, r: nat)
    requires k > 0 && y == k * q + r && r < k
    ensures y / k == q && y % k == r
  {
    var d := y / k - q;
    assert y == k * (y / k) + y % k;
    assert k * (y / k) == k * q + k * d;
    MultiplesAreApart(k, d);
  }

  lemma Centuries(y: nat)
    ensures (y + 100) / 100 == (y + 99) / 100 + if y % 100 == 0 then 1 else 0
    ensures y % 100 == 0 ==> y % 4 == 0
  {
    var q, r := y / 100, y % 100;
    StepsUp(y + 100, 100, q + 1, r);
    if r == 0 {
      StepsUp(y + 99, 100, q, 99);
      StepsUp(y, 4, 25 * q, 0);
    } else {
      StepsUp(y + 99, 100, q + 1, r - 1);
    }
  }

  lemma FourHundreds(y: nat)
    ensures (y + 400) / 400 == (y + 399) / 400 + if y % 400 == 0 then 1 else 0
    ensures y % 400 == 0 ==> y % 100 == 0
  {
    var q, r := y / 400, y % 400;
    StepsUp(y + 400, 400, q + 1, r);
    if r == 0 {
      StepsUp(y + 399, 400, q, 399);
      StepsUp(y, 100, 4 * q, 0);
    } else {
      StepsUp(y + 399, 400, q + 1, r - 1);
    }
  }

  lemma YearLength(y: nat)
    ensures YearStart(y + 1) == YearStart(y) + if IsLeap(y) then 366 else 365
  {
    Fours(y);
    Centuries(y);
    FourHundreds(y);
  }

  /** Twelve months make a year. */
  lemma MonthsFillYears(y: nat)
    ensures MonthStart(y, 13) == YearStart(y + 1)
  {
    YearLength(y);
    assert MonthStart(y, 4) == MonthStart(y, 1) + MonthLength(y, 1) + MonthLength(y, 2) + MonthLength(y, 3);
    assert MonthStart(y, 7) == MonthStart(y, 4) + MonthLength(y, 4) + MonthLength(y, 5) + MonthLength(y, 6);
    assert MonthStart(y, 10) == MonthStart(y, 7) + MonthLength(y, 7) + MonthLength(y, 8) + MonthLength(y, 9);
    assert MonthStart(y, 13) == MonthStart(y, 10) + MonthLength(y, 10) + MonthLength(y, 11) + MonthLength(y, 12);
  }

  lemma {:induction false} MonthsRise(y: nat, m: int, n: int)
    requires 1 <= m <= n <= 13
    ensures MonthStart(y, m) <= MonthStart(y, n)
    ensures m < n ==> MonthStart(y, m) + MonthLength(y, m) <= MonthStart(y, n)
    decreases n
  {
    if m < n { MonthsRise(y, m, n - 1); }
  }

  lemma {:induction false} YearsRise(y: nat, z: nat)
    requires y <= z
    ensures YearStart(y) <= YearStart(z)
    ensures y < z ==> YearStart(y + 1) <= YearStart(z)
    decreases z
  {
    hide YearStart, IsLeap;
    if y < z {
      YearsRise(y, z - 1);
      YearLength(z - 1);
    }
  }

  /** A month lies within its year. */
  lemma MonthWithinYear(y: nat, m: int)
    requires 1 <= m <= 12
    ensures YearStart(y) <= MonthStart(y, m) && MonthStart(y, m) + MonthLength(y, m) <= YearStart(y + 1)
  {
    hide YearStart, MonthLength;
    MonthsFillYears(y);
    MonthsRise(y, 1, m);
    MonthsRise(y, m, 13);
  }

  /** The day count is strictly monotone in the calendar order. */
  lemma DaysRise(a: Date, b: Date)
    requires Valid(a) && Valid(b)
    ensures Before(a, b) <==> DayNumber(a.year, a.month, a.day) < DayNumber(b.year, b.month, b.day)
    ensures a == b <==> DayNumber(a.year, a.month, a.day) == DayNumber(b.year, b.month, b.day)
  {
    if Before(a, b) { EarlierIsLess(a, b); }
    if Before(b, a) { EarlierIsLess(b, a); }
  }

  lemma EarlierIsLess(a: Date, b: Date)
    requires Valid(a) && Valid(b) && Before(a, b)
    ensures DayNumber(a.year, a.month, a.day) < DayNumber(b.year, b.month, b.day)
  {
    hide YearStart, MonthStart, MonthLength;
    if a.year < b.year {
      MonthWithinYear(a.year, a.month);
      MonthWithinYear(b.year, b.month);
      YearsRise(a.year, b.year);
    } else if a.month < b.month {
      MonthsRise(a.year, a.month, b.month);
    }
  }

  /* ------------------------------------ the runtime's dates ------------------------------------ */

  /** `Date.UTC(y, month0, d)` in days: years 0 to 99 mean 1900 to 1999, months and days roll over. */
  function Utc(y: nat, month0: int, d: int): int {
    var shown := if y <= 99 then 1900 + y else y;
    var year := shown + month0 / 12;
    if year < 0 then 0 else DayNumber(year, month0 % 12 + 1, d)
  }

  function YearOf(n: int, y: nat): (r: nat)
    requires YearStart(y) <= n
    ensures YearStart(r) <= n < YearStart(r + 1)
    decreases n - YearStart(y)
  {
    if n < YearStart(y + 1) then y else (YearLength(y); YearOf(n, y + 1))
  }

  function MonthOf(n: int, y: nat, m: int): (r: int)
    requires 1 <= m <= 12 && MonthStart(y, m) <= n < MonthStart(y, 13)
    ensures 1 <= r <= 12 && MonthStart(y, r) <= n < MonthStart(y, r) + MonthLength(y, r)
    decreases 12 - m
  {
    if n < MonthStart(y, m) + MonthLength(y, m) then m else MonthOf(n, y, m + 1)
  }

  /** The date a day number is shown as: `getUTCFullYear`, `getUTCMonth() + 1`, `getUTCDate`. */
  function Shown(n: nat): (d: Date)
    ensures Valid(d) && DayNumber(d.year, d.month, d.day) == n
  {
    var y := YearOf(n, 0);
    MonthsFillYears(y);
    var m := MonthOf(n, y, 1);
    Date(y, m, n - MonthStart(y, m) + 1)
  }

  /* ---------------------------------------- the check ---------------------------------------- */

  const DASH: Unit := 45

  /** `YYYY-MM-DD`, digits only. */
  function ParseIso(s: Text): (r: Option<Date>)
    ensures r.Some? ==> r.value.year >= 0
  {
    if |s| == 10 && AllDigits(s[..4]) && s[4] == DASH && AllDigits(s[5..7]) && s[7] == DASH && AllDigits(s[8..])
    then Some(Date(Value(s[..4]), Value(s[5..7]), Value(s[8..]))) else None
  }

  function IsAtLeast18(birthdate: Text, now: Date): bool
    requires Valid(now)
  {
    var parsed := ParseIso(birthdate);
    if parsed.None? then false else BornEarlyEnough(parsed.value, now)
  }

  /** The check once the three numbers are read. */
  function BornEarlyEnough(d: Date, now: Date): bool
    requires Valid(now) && d.year >= 0
  {
    var birth := Utc(d.year, d.month - 1, d.day);
    if birth < 0 || Shown(birth) != d then false
    else
      var today := Utc(now.year, now.month - 1, now.day);
      if birth > today then false
      else
        var eighteenth := Utc(d.year + 18, d.month - 1, d.day);
        eighteenth <= today
  }

  lemma UtcOfMonth(y: nat, m: int, d: int)
    requires 1 <= m <= 12
    ensures Utc(y, m - 1, d) == DayNumber(if y <= 99 then 1900 + y else y, m, d)
  {
    assert (m - 1) / 12 == 0 && (m - 1) % 12 == m - 1;
  }

  lemma MonthsGiveTheYear(y: nat, z: nat, m: int, d: int)
    requires 1 <= m <= 12 && DayNumber(y, m, d) == DayNumber(z, m, d)
    ensures y == z
  {
    hide YearStart, MonthStart, MonthLength;
    MonthWithinYear(y, m);
    MonthWithinYear(z, m);
    if y < z { YearsRise(y, z); }
    if z < y { YearsRise(z, y); }
    MonthHasDays(y, m);
    MonthHasDays(z, m);
  }

  lemma MonthHasDays(y: int, m: int)
    requires 1 <= m <= 12
    ensures MonthLength(y, m) > 0
  {}

  /** Reading the day back gives the date that was written exactly when it is in the calendar and its year has three digits. */
  lemma ShownBack(d: Date)
    requires d.year >= 0
    ensures (Utc(d.year, d.month - 1, d.day) >= 0 && Shown(Utc(d.year, d.month - 1, d.day)) == d)
            <==> Valid(d) && d.year >= 100
  {
    hide DayNumber, MonthLength, MonthStart, YearStart, Utc;
    var n := Utc(d.year, d.month - 1, d.day);
    if n >= 0 && Shown(n) == d {
      UtcOfMonth(d.year, d.month, d.day);
      MonthsGiveTheYear(if d.year <= 99 then 1900 + d.year else d.year, d.year, d.month, d.day);
    }
    if Valid(d) && d.year >= 100 {
      UtcOfMonth(d.year, d.month, d.day);
      NumbersAreNatural(d);
      DaysRise(Shown(n), d);
    }
  }

  lemma NumbersAreNatural(d: Date)
    requires Valid(d)
    ensures DayNumber(d.year, d.month, d.day) >= 0
  {
    MonthWithinYear(d.year, d.month);
  }

  /** 29 February never has an eighteenth anniversary; the runtime rolls it over to 1 March. */
  lemma LeapDayRollsOver(y: nat)
    requires IsLeap(y)
    ensures !IsLeap(y + 18) && DayNumber(y + 18, 2, 29) == DayNumber(y + 18, 3, 1)
  {
    assert MonthStart(y + 18, 3) == MonthStart(y + 18, 2) + MonthLength(y + 18, 2);
  }

  /** The eighteenth birthday's day number compares with a date as the calendar does. */
  lemma EighteenthCompares(d: Date, now: Date)
    requires Valid(d) && Valid(now)
    ensures DayNumber(d.year + 18, d.month, d.day) <= DayNumber(now.year, now.month, now.day)
            <==> AtMost(Date(d.year + 18, d.month, d.day), now)
  {
    hide DayNumber, YearStart, MonthStart;
    var e := Date(d.year + 18, d.month, d.day);
    if Valid(e) {
      DaysRise(e, now);
      DaysRise(now, e);
    } else {
      assert d.month == 2 && d.day == 29 && IsLeap(d.year);
      LeapDayRollsOver(d.year);
      DaysRise(Date(d.year + 18, 3, 1), now);
      DaysRise(now, Date(d.year + 18, 3, 1));
    }
  }

  lemma BornBefore(d: Date, now: Date)
    requires Valid(d) && Valid(now) && AtMost(Date(d.year + 18, d.month, d.day), now)
    ensures DayNumber(d.year, d.month, d.day) < DayNumber(now.year, now.month, now.day)
  {
    EarlierIsLess(d, now);
  }

  lemma UtcIsNatural(d: Date)
    requires Valid(d)
    ensures Utc(d.year, d.month - 1, d.day) >= 0
  {
    hide DayNumber;
    UtcOfMonth(d.year, d.month, d.day);
    var y := if d.year <= 99 then 1900 + d.year else d.year;
    MonthIsNatural(y, d.month, d.day);
  }

  lemma MonthIsNatural(y: nat, m: int, d: int)
    requires 1 <= m <= 12 && d >= 1
    ensures DayNumber(y, m, d) >= 0
  {
    MonthWithinYear(y, m);
  }

  /** The date the code takes a clock's date for: years 0 to 99 are moved to the twentieth century. */
  function Clock(now: Date): (d: Date)
    requires Valid(now)
    ensures Valid(d) && DayNumber(d.year, d.month, d.day) == Utc(now.year, now.month - 1, now.day)
  {
    UtcIsNatural(now);
    Shown(Utc(now.year, now.month - 1, now.day))
  }

  /** From the year 100 on that is the clock's own date. */
  lemma ClockIsNow(now: Date)
    requires Valid(now)
    ensures Clock(now) == now <==> now.year >= 100
  {
    UtcIsNatural(now);
    ShownBack(now);
  }

  lemma EighteenthByDays(d: Date, now: Date)
    requires Valid(d) && Valid(now) && d.year >= 100
    ensures Utc(d.year, d.month - 1, d.day) <= Utc(now.year, now.month - 1, now.day)
            && Utc(d.year + 18, d.month - 1, d.day) <= Utc(now.year, now.month - 1, now.day)
            <==> AtMost(Date(d.year + 18, d.month, d.day), Clock(now))
  {
    hide DayNumber, Utc, MonthLength, AtMost, Clock;
    var today := Clock(now);
    UtcOfMonth(d.year, d.month, d.day);
    UtcOfMonth(d.year + 18, d.month, d.day);
    EighteenthCompares(d, today);
    if AtMost(Date(d.year + 18, d.month, d.day), today) { BornBefore(d, today); }
  }

  lemma BornExactly(d: Date, now: Date)
    requires Valid(now) && d.year >= 0
    ensures BornEarlyEnough(d, now) <==>
            Valid(d) && d.year >= 100 && AtMost(Date(d.year + 18, d.month, d.day), Clock(now))
  {
    hide Utc, AtMost, Shown, Clock, Valid;
    ShownBack(d);
    if Valid(d) && d.year >= 100 { EighteenthByDays(d, now); }
  }

  /** A date of the calendar, month by month. */
  ghost predicate InCalendar(d: Date) {
    var leap := d.year % 4 == 0 && (d.year % 100 != 0 || d.year % 400 == 0);
    && 1 <= d.month <= 12
    && 1 <= d.day <= [31, if leap then 29 else 28, 31, 30, 31, 30, 31, 31, 30, 31, 30, 31][d.month - 1]
  }

  lemma ValidIs(d: Date)
    requires d.year >= 0
    ensures Valid(d) <==> InCalendar(d)
  {}

  /** The date written as year, month and day, four, two and two digits, with dashes between. */
  ghost predicate Writes(s: Text, d: Date) {
    && 0 <= d.year < 10000 && 0 <= d.month < 100 && 0 <= d.day < 100
    && s == Padded(d.year, 4) + [45] + Padded(d.month, 2) + [45] + Padded(d.day, 2)
  }

  lemma Powers()
    ensures Pow10(4) == 10000 && Pow10(2) == 100
  {
    assert Pow10(2) == 10 * Pow10(1) && Pow10(4) == 10 * Pow10(3);
  }

  /** Reading undoes writing, and only what was so written is read. */
  lemma IsoReads(s: Text, d: Date)
    ensures ParseIso(s) == Some(d) <==> Writes(s, d)
  {
    Powers();
    hide Pow10, Padded, Value, AllDigits;
    if Writes(s, d) {
      WrittenReads(s, d);
    }
    if ParseIso(s) == Some(d) {
      ValueFits(s[..4]);
      ValueFits(s[5..7]);
      ValueFits(s[8..]);
      PaddedBack(s[..4]);
      PaddedBack(s[5..7]);
      PaddedBack(s[8..]);
      assert s == s[..4] + [s[4]] + s[5..7] + [s[7]] + s[8..];
    }
  }

  lemma WrittenReads(s: Text, d: Date)
    requires Writes(s, d)
    ensures ParseIso(s) == Some(d)
  {
    Powers();
    hide Pow10, Padded, Value, AllDigits;
    var (y, m, day) := (Padded(d.year, 4), Padded(d.month, 2), Padded(d.day, 2));
    PaddedReads(d.year, 4);
    PaddedReads(d.month, 2);
    PaddedReads(d.day, 2);
    assert s[..4] == y && s[5..7] == m && s[8..] == day;
  }

  /**
   * Calendar exact: somebody is let in exactly when the birth date is a date of the
   * calendar in year 100 or later, written as `YYYY-MM-DD`, and its year plus 18, month
   * and day are at most those of the clock's date.
   */
  lemma CalendarExact(birthdate: Text, now: Date)
    requires Valid(now)
    ensures IsAtLeast18(birthdate, now) <==>
            exists d: Date ::
              && Writes(birthdate, d) && InCalendar(d) && d.year >= 100
              && AtMost(Date(d.year + 18, d.month, d.day), Clock(now))
    ensures now.year >= 100 ==> Clock(now) == now
  {
    hide BornEarlyEnough, Valid, AtMost, Clock, ParseIso, Writes, InCalendar;
    ClockIsNow(now);
    if IsAtLeast18(birthdate, now) {
      var d := ParseIso(birthdate).value;
      IsoReads(birthdate, d);
      BornExactly(d, now);
      ValidIs(d);
    }
    if d: Date :| Writes(birthdate, d) && InCalendar(d) && d.year >= 100
                  && AtMost(Date(d.year + 18, d.month, d.day), Clock(now)) {
      IsoReads(birthdate, d);
      BornExactly(d, now);
      ValidIs(d);
    }
  }
}
