/** The date stamp of the desktop log files: a closed-form conversion from days
    since 1970-01-01 to a civil date, checked against the Gregorian calendar
    taken one day at a time (section 5.7 and Appendix C of RFC 3339). */
module CivilDate {

  const I64_MIN: int := -0x8000_0000_0000_0000
  const I64_MAX: int := 0x7FFF_FFFF_FFFF_FFFF

  predicate FitsI64(n: int) { I64_MIN <= n <= I64_MAX }

  datatype Date = Date(year: int, month: int, day: int)

  /** Rust's `/` on signed integers drops the fraction. */
  function TruncDiv(a: int, b: int): int
    requires b > 0
  {
    if a >= 0 then a / b else -((-a) / b)
  }

  function EraOf(z: int): int {
    TruncDiv(if z >= 0 then z else z - 146096, 146097)
  }

  function YearOfEra(doe: int): int {
    TruncDiv(doe - TruncDiv(doe, 1460) + TruncDiv(doe, 36524) - TruncDiv(doe, 146096), 365)
  }

  /** First day, within a 400-year era, of the year that begins on 1 March. */
  function YearStart(yoe: int): int {
    365 * yoe + TruncDiv(yoe, 4) - TruncDiv(yoe, 100)
  }

  function MonthOfYear(doy: int): int { TruncDiv(5 * doy + 2, 153) }

  /** First day of the month `mp`, counted from March, within its year. */
  function MonthStart(mp: int): int { TruncDiv(153 * mp + 2, 5) }

  /** `civil_from_days` */
  function CivilFromDays(z0: int): Date {
    var z := z0 + 719468;
    var era := EraOf(z);
    var doe := z - era * 146097;
    var yoe := YearOfEra(doe);
    MonthAndDay(yoe + era * 400, doe - YearStart(yoe))
  }

  /** The tail of `civil_from_days`: day `doy` of the year `y` that begins on 1 March. */
  function MonthAndDay(y: int, doy: int): Date {
    var mp := MonthOfYear(doy);
    var d := doy - MonthStart(mp) + 1;
    var m := if mp < 10 then mp + 3 else mp - 9;
    Date(if m <= 2 then y + 1 else y, m, d)
  }

  // ---- The calendar, one day at a time

  predicate LeapYear(y: int) { y % 4 == 0 && (y % 100 != 0 || y % 400 == 0) }

  function DaysInMonth(y: int, m: int): int {
    if m == 2 then (if LeapYear(y) then 29 else 28)
    else if m == 4 || m == 6 || m == 9 || m == 11 then 30
    else 31
  }

  function YearLength(y: int): int { if LeapYear(y) then 366 else 365 }

  predicate ValidDate(d: Date) {
    1 <= d.month <= 12 && 1 <= d.day <= DaysInMonth(d.year, d.month)
  }

  function NextDay(d: Date): Date {
    if d.day < DaysInMonth(d.year, d.month) then d.(day := d.day + 1)
    else if d.month < 12 then Date(d.year, d.month + 1, 1)
    else Date(d.year + 1, 1, 1)
  }

  function PreviousDay(d: Date): Date {
    if d.day > 1 then d.(day := d.day - 1)
    else if d.month > 1 then Date(d.year, d.month - 1, DaysInMonth(d.year, d.month - 1))
    else Date(d.year - 1, 12, 31)
  }

  /** The date reached from 1970-01-01 after `z` single-day steps, backwards when negative. */
  function Calendar(z: int): Date
    decreases if z < 0 then -z else z
  {
    if z == 0 then Date(1970, 1, 1)
    else if z > 0 then NextDay(Calendar(z - 1))
    else PreviousDay(Calendar(z + 1))
  }

  // ---- The formula cut into its three layers: era, year, month

  lemma EraIsFloor(z: int)
    ensures EraOf(z) == z / 146097
    ensures 0 <= z - EraOf(z) * 146097 < 146097
  {
  }

  /** A day of an era written as centuries, four-year cycles, years and days. */
  lemma YearOfEraSplit(doe: int, c: int, q: int, k: int, t: int)
    requires 0 <= c <= 3 && 0 <= q <= 24 && 0 <= k <= 3
    requires 0 <= t < 365 || (t == 365 && k == 3 && (q < 24 || c == 3))
    requires doe == 36524 * c + 1461 * q + 365 * k + t
    ensures YearOfEra(doe) == 100 * c + 4 * q + k
  {
    var rem := 24 * c + q + 365 * k + t;
    assert doe == 1460 * (25 * c + q) + rem;
    var carry := if rem >= 1460 then 1 else 0;
    assert doe / 1460 == 25 * c + q + carry;
    var last := if doe == 146096 then 1 else 0;
    assert doe / 36524 == c + last;
    assert doe / 146096 == last;
    assert doe - doe / 1460 + doe / 36524 - doe / 146096 == 365 * (100 * c + 4 * q + k) + (t - carry);
    assert 0 <= t - carry < 365;
  }

  lemma YearStartSplit(c: int, q: int, k: int)
    requires 0 <= c && 0 <= q <= 24 && 0 <= k <= 3
    ensures YearStart(100 * c + 4 * q + k) == 36524 * c + 1461 * q + 365 * k
  {
    var y := 100 * c + 4 * q + k;
    assert y / 4 == 25 * c + q;
    assert y / 100 == c;
  }

  lemma LeapSplit(c: int, q: int, k: int)
    requires 0 <= c <= 3 && 0 <= q <= 24 && 0 <= k <= 3
    ensures LeapYear(100 * c + 4 * q + k + 1) <==> k == 3 && (q < 24 || c == 3)
  {
    var y := 100 * c + 4 * q + k + 1;
    assert y == 4 * (25 * c + q) + k + 1;
    assert y % 4 == 0 <==> k == 3;
    if k == 3 {
      assert y == 100 * c + 4 * (q + 1);
      assert y % 100 == 0 <==> q == 24;
      assert q == 24 ==> y == 100 * (c + 1);
    }
  }

  /** `YearOfEra` inverts `YearStart`: it names the year whose days contain `doe`. */
  lemma YearBounds(doe: int)
    requires 0 <= doe < 146097
    ensures 0 <= YearOfEra(doe) < 400
    ensures YearStart(YearOfEra(doe)) <= doe
    ensures doe - YearStart(YearOfEra(doe)) < YearLength(YearOfEra(doe) + 1)
  {
    var c := if doe / 36524 > 3 then 3 else doe / 36524;
    var r := doe - 36524 * c;
    var q := if r / 1461 > 24 then 24 else r / 1461;
    var s := r - 1461 * q;
    var k := if s / 365 > 3 then 3 else s / 365;
    YearOfEraSplit(doe, c, q, k, s - 365 * k);
    YearStartSplit(c, q, k);
    LeapSplit(c, q, k);
  }

  /** `MonthOfYear` inverts `MonthStart`. */
  lemma MonthBounds(doy: int)
    requires 0 <= doy < 366
    ensures 0 <= MonthOfYear(doy) < 12
    ensures MonthStart(MonthOfYear(doy)) <= doy < MonthStart(MonthOfYear(doy) + 1)
  {
  }

  lemma MonthLengths(y: int, mp: int)
    requires 0 <= mp < 11
    ensures MonthStart(0) == 0 && MonthStart(11) == 337
    ensures MonthStart(mp + 1) - MonthStart(mp) == DaysInMonth(y, if mp < 10 then mp + 3 else mp - 9)
  {
  }

  // ---- The inverse

  /** The year a date falls in when years begin on 1 March. */
  function MarchYear(d: Date): int { if d.month <= 2 then d.year - 1 else d.year }

  function MarchMonth(d: Date): int { if d.month > 2 then d.month - 3 else d.month + 9 }

  /** Day number, counted from 0000-03-01, of 1 March of the year `y`. */
  function MarchFirst(y: int): int { 365 * y + y / 4 - y / 100 + y / 400 }

  /** Days from 1970-01-01 to the date `d`. */
  function DaysFromCivil(d: Date): int {
    MarchFirst(MarchYear(d)) + MonthStart(MarchMonth(d)) + d.day - 1 - 719468
  }

  lemma MarchFirstStep(y: int)
    ensures MarchFirst(y + 1) == MarchFirst(y) + YearLength(y + 1)
  {
    QuotientStep(y, 4);
    QuotientStep(y, 100);
    QuotientStep(y, 400);
    Multiples(y + 1);
  }

  lemma QuotientStep(y: int, n: int)
    requires n == 4 || n == 100 || n == 400
    ensures (y + 1) / n == y / n + (if (y + 1) % n == 0 then 1 else 0)
  {
  }

  lemma Multiples(y: int)
    ensures y % 400 == 0 ==> y % 100 == 0
    ensures y % 100 == 0 ==> y % 4 == 0
  {
    if y % 400 == 0 { ProductRemainder(100, 4 * (y / 400)); }
    if y % 100 == 0 { ProductRemainder(4, 25 * (y / 100)); }
  }

  lemma ProductRemainder(n: int, k: int)
    requires n == 4 || n == 100
    ensures n * k % n == 0
  {
  }

  lemma MarchFirstOfEra(era: int, yoe: int)
    requires 0 <= yoe < 400
    ensures MarchFirst(era * 400 + yoe) == era * 146097 + YearStart(yoe)
  {
    var y := era * 400 + yoe;
    assert y / 4 == era * 100 + yoe / 4;
    assert y / 100 == era * 4 + yoe / 100;
    assert y / 400 == era;
  }

  lemma MonthAndDayIsValid(y: int, doy: int)
    requires 0 <= doy < YearLength(y + 1)
    ensures ValidDate(MonthAndDay(y, doy))
    ensures DaysFromCivil(MonthAndDay(y, doy)) == MarchFirst(y) + doy - 719468
  {
    MonthBounds(doy);
    var mp := MonthOfYear(doy);
    if mp < 11 { MonthLengths(y, mp); } else { MonthLengths(0, 0); }
  }

  lemma LeapByEra(era: int, y: int)
    ensures LeapYear(era * 400 + y) == LeapYear(y)
  {
    ModShift(4, era * 100, y);
    ModShift(100, era * 4, y);
    ModShift(400, era, y);
  }

  lemma ModShift(n: int, k: int, y: int)
    requires n == 4 || n == 100 || n == 400
    ensures (n * k + y) % n == y % n
  {
  }

  /** The era and year steps of the formula land on a day of a year that begins on 1 March. */
  lemma MarchForm(z: int) returns (y: int, doy: int)
    ensures CivilFromDays(z) == MonthAndDay(y, doy)
    ensures MarchFirst(y) + doy == z + 719468
    ensures 0 <= doy < YearLength(y + 1)
  {
    var era := EraOf(z + 719468);
    EraIsFloor(z + 719468);
    var doe := z + 719468 - era * 146097;
    var yoe := YearOfEra(doe);
    YearBounds(doe);
    MarchFirstOfEra(era, yoe);
    LeapByEra(era, yoe + 1);
    y, doy := era * 400 + yoe, doe - YearStart(yoe);
    assert y + 1 == era * 400 + (yoe + 1);
  }

  /** Every day number has a valid date, and `DaysFromCivil` takes it back. */
  lemma CivilIsValid(z: int)
    ensures ValidDate(CivilFromDays(z))
    ensures DaysFromCivil(CivilFromDays(z)) == z
  {
    var y, doy := MarchForm(z);
    MonthAndDayIsValid(y, doy);
  }

  lemma {:induction false} MarchFirstMonotone(a: int, b: int)
    requires a < b
    ensures MarchFirst(a) + YearLength(a + 1) <= MarchFirst(b)
    decreases b - a
  {
    MarchFirstStep(a);
    if a + 1 < b { MarchFirstMonotone(a + 1, b); }
  }

  lemma DayOfMarchYear(d: Date)
    requires ValidDate(d)
    ensures 0 <= MarchMonth(d) < 12
    ensures 0 <= MonthStart(MarchMonth(d)) + d.day - 1 < YearLength(MarchYear(d) + 1)
    ensures MonthOfYear(MonthStart(MarchMonth(d)) + d.day - 1) == MarchMonth(d)
  {
    var mp := MarchMonth(d);
    if mp < 11 { MonthLengths(d.year, mp); } else { MonthLengths(d.year, 0); }
  }

  /** Different dates have different day numbers. */
  lemma DaysFromCivilInjective(a: Date, b: Date)
    requires ValidDate(a) && ValidDate(b)
    requires DaysFromCivil(a) == DaysFromCivil(b)
    ensures a == b
  {
    DayOfMarchYear(a);
    DayOfMarchYear(b);
    if MarchYear(a) < MarchYear(b) {
      MarchFirstMonotone(MarchYear(a), MarchYear(b));
    } else if MarchYear(b) < MarchYear(a) {
      MarchFirstMonotone(MarchYear(b), MarchYear(a));
    }
    assert MarchMonth(a) == MarchMonth(b);
  }

  lemma NextDayAddsOne(d: Date)
    requires ValidDate(d)
    ensures ValidDate(NextDay(d))
    ensures DaysFromCivil(NextDay(d)) == DaysFromCivil(d) + 1
  {
    var mp := MarchMonth(d);
    if d.day == DaysInMonth(d.year, d.month) {
      if mp < 11 {
        MonthLengths(d.year, mp);
      } else {
        MonthLengths(d.year, 0);
        MarchFirstStep(MarchYear(d));
      }
    }
  }

  // ---- Main results

  /** The conversion and its inverse are a bijection between day numbers and valid dates. */
  lemma CivilRoundTrip(d: Date)
    requires ValidDate(d)
    ensures CivilFromDays(DaysFromCivil(d)) == d
  {
    CivilIsValid(DaysFromCivil(d));
    DaysFromCivilInjective(CivilFromDays(DaysFromCivil(d)), d);
  }

  /** One more day moves the date to the next calendar day. */
  lemma CivilSuccessor(z: int)
    ensures CivilFromDays(z + 1) == NextDay(CivilFromDays(z))
  {
    CivilIsValid(z);
    CivilIsValid(z + 1);
    NextDayAddsOne(CivilFromDays(z));
    DaysFromCivilInjective(CivilFromDays(z + 1), NextDay(CivilFromDays(z)));
  }

  lemma PreviousUndoesNext(d: Date)
    requires ValidDate(d)
    ensures PreviousDay(NextDay(d)) == d
  {
  }

  lemma CivilPredecessor(z: int)
    ensures CivilFromDays(z - 1) == PreviousDay(CivilFromDays(z))
  {
    CivilIsValid(z - 1);
    CivilSuccessor(z - 1);
    PreviousUndoesNext(CivilFromDays(z - 1));
  }

  lemma CivilEpoch()
    ensures CivilFromDays(0) == Date(1970, 1, 1)
  {
    assert DaysFromCivil(Date(1970, 1, 1)) == 0;
    CivilRoundTrip(Date(1970, 1, 1));
  }

  /** The closed form is the calendar, before and after the epoch. */
  lemma {:induction false} CivilIsCalendar(z: int)
    ensures CivilFromDays(z) == Calendar(z)
    decreases if z < 0 then -z else z
  {
    if z > 0 {
      CivilIsCalendar(z - 1);
      CivilSuccessor(z - 1);
    } else if z < 0 {
      CivilIsCalendar(z + 1);
      CivilPredecessor(z + 1);
    } else {
      CivilEpoch();
    }
  }

  /** Date order is day order: the stamps sort the days. */
  predicate Before(a: Date, b: Date) {
    a.year < b.year
    || (a.year == b.year && (a.month < b.month || (a.month == b.month && a.day < b.day)))
  }

  lemma NextDayIsLater(d: Date)
    requires ValidDate(d)
    ensures Before(d, NextDay(d))
  {
  }

  lemma BeforeTransitive(a: Date, b: Date, c: Date)
    requires Before(a, b) && Before(b, c)
    ensures Before(a, c)
  {
  }

  lemma TomorrowIsLater(z: int)
    ensures Before(CivilFromDays(z), CivilFromDays(z + 1))
  {
    CivilIsValid(z);
    CivilSuccessor(z);
    NextDayIsLater(CivilFromDays(z));
  }

  lemma {:induction false} CivilMonotone(z1: int, z2: int)
    requires z1 < z2
    ensures Before(CivilFromDays(z1), CivilFromDays(z2))
    decreases z2 - z1
  {
    var previous, last := CivilFromDays(z2 - 1), CivilFromDays(z2);
    TomorrowIsLater(z2 - 1);
    assert Before(previous, last);
    if z1 + 1 < z2 {
      CivilMonotone(z1, z2 - 1);
      BeforeTransitive(CivilFromDays(z1), previous, last);
    }
  }

  /** In 64-bit arithmetic only the first addition can leave the range: when it fits, so does
      the era, and every later value is small; the year is the only other large one. */
  lemma WidthSuffices(z: int)
    requires FitsI64(z) && FitsI64(z + 719468)
    ensures z + 719468 < 0 ==> FitsI64(z + 719468 - 146096)
    ensures FitsI64(EraOf(z + 719468) * 146097)
    ensures var doe := z + 719468 - EraOf(z + 719468) * 146097;
      var yoe := YearOfEra(doe);
      var doy := doe - YearStart(yoe);
      && 0 <= doe < 146097 && 0 <= yoe < 400 && 0 <= YearStart(yoe) <= doe
      && 0 <= doe - TruncDiv(doe, 1460) <= doe - TruncDiv(doe, 1460) + TruncDiv(doe, 36524) < 2 * 146097
      && 0 <= doy < 366 && 0 <= MonthOfYear(doy) < 12
      && 0 <= 5 * doy + 2 < 1833 && 0 <= 153 * MonthOfYear(doy) + 2 < 1686
      && 1 <= doy - MonthStart(MonthOfYear(doy)) + 1 <= 31
      && FitsI64(EraOf(z + 719468) * 400) && FitsI64(yoe + EraOf(z + 719468) * 400 + 1)
  {
    EraIsFloor(z + 719468);
    var doe := z + 719468 - EraOf(z + 719468) * 146097;
    YearBounds(doe);
    var doy := doe - YearStart(YearOfEra(doe));
    MonthBounds(doy);
    CivilIsValid(z);
  }
}
