/** The timestamp parser of the basis store: a civil date to epoch seconds by a
    closed formula, over strings whose byte order is meant to be time order. */
module Calendar {
  import opened Options
  import opened Ordering

  // ------------------------------------------------------------ the parser

  /** Rust's integer division: it rounds toward zero. */
  function TruncDiv(a: int, b: int): int
    requires b > 0
  {
    if a >= 0 then a / b else -((-a) / b)
  }

  /** Days since 1970-01-01 of a proleptic Gregorian date, by the closed formula. */
  function DaysFromCivil(year: int, month: int, day: int): int {
    var y := if month <= 2 then year - 1 else year;
    var era := TruncDiv(if y >= 0 then y else y - 399, 400);
    var yoe := y - era * 400;
    var doy := TruncDiv(153 * (if month > 2 then month - 3 else month + 9) + 2, 5) + day - 1;
    var doe := yoe * 365 + TruncDiv(yoe, 4) - TruncDiv(yoe, 100) + doy;
    era * 146097 + doe - 719468
  }

  predicate IsDigit(b: Byte) {
    '0' as int <= b <= '9' as int
  }

  predicate AllDigits(s: Bytes) {
    forall i :: 0 <= i < |s| ==> IsDigit(s[i])
  }

  function DigitsValue(s: Bytes): (v: nat)
    requires AllDigits(s)
  {
    if s == [] then 0 else DigitsValue(s[..|s| - 1]) * 10 + (s[|s| - 1] - '0' as int)
  }

  /** `str::parse::<i64>` on the short slices used here: an optional sign, then
      at least one digit and nothing else. */
  function ParseI64(s: Bytes): Option<int>
  {
    var signed := s != [] && (s[0] == '+' as int || s[0] == '-' as int);
    var digits := if signed then s[1..] else s;
    if digits == [] || !AllDigits(digits) then None else
      var magnitude: int := DigitsValue(digits);
      Some(if signed && s[0] == '-' as int then -magnitude else magnitude)
  }

  predicate SeparatorsInPlace(s: Bytes)
    requires |s| >= 19
  {
    && s[4] == '-' as int && s[7] == '-' as int && s[10] == 'T' as int
    && s[13] == ':' as int && s[16] == ':' as int
  }

  /** Parses "YYYY-MM-DDTHH:MM:SS"; whatever follows the 19th byte is ignored. */
  function ParseIso8601Utc(s: Bytes): Option<int> {
    if |s| < 19 || !SeparatorsInPlace(s) then None else
      var year, month, day := ParseI64(s[0..4]), ParseI64(s[5..7]), ParseI64(s[8..10]);
      var hour, minute, second := ParseI64(s[11..13]), ParseI64(s[14..16]), ParseI64(s[17..19]);
      if year.None? || month.None? || day.None? || hour.None? || minute.None? || second.None? then None
      else if !(1 <= month.value <= 12) || !(1 <= day.value <= 31) then None
      else
        Some(DaysFromCivil(year.value, month.value, day.value) * 86400
             + hour.value * 3600 + minute.value * 60 + second.value)
  }

  // ------------------------------------- the calendar, one day at a time

  datatype Date = Date(year: int, month: int, day: int)

  predicate IsLeap(year: int) {
    year % 4 == 0 && (year % 100 != 0 || year % 400 == 0)
  }

  function DaysInMonth(year: int, month: int): int {
    if month == 2 then (if IsLeap(year) then 29 else 28)
    else if month == 4 || month == 6 || month == 9 || month == 11 then 30
    else 31
  }

  predicate ValidDate(d: Date) {
    1 <= d.month <= 12 && 1 <= d.day <= DaysInMonth(d.year, d.month)
  }

  function NextDay(d: Date): Date {
    if d.day < DaysInMonth(d.year, d.month) then Date(d.year, d.month, d.day + 1)
    else if d.month < 12 then Date(d.year, d.month + 1, 1)
    else Date(d.year + 1, 1, 1)
  }

  function PreviousDay(d: Date): Date {
    if d.day > 1 then Date(d.year, d.month, d.day - 1)
    else if d.month > 1 then Date(d.year, d.month - 1, DaysInMonth(d.year, d.month - 1))
    else Date(d.year - 1, 12, 31)
  }

  /** The date `n` days after the epoch, found by walking the calendar. */
  function Walk(n: int): Date
    decreases if n < 0 then -n else n
  {
    if n == 0 then Date(1970, 1, 1)
    else if n > 0 then NextDay(Walk(n - 1))
    else PreviousDay(Walk(n + 1))
  }

  function Days(d: Date): int {
    DaysFromCivil(d.year, d.month, d.day)
  }

  predicate Before(a: Date, b: Date) {
    a.year < b.year || (a.year == b.year && (a.month < b.month || (a.month == b.month && a.day < b.day)))
  }

  // The formula counts years from March; `MarchYears` is its year part with the
  // eras multiplied out.
  function MarchYears(y: int): int {
    365 * y + y / 4 - y / 100 + y / 400
  }

  function MarchYear(d: Date): int {
    if d.month <= 2 then d.year - 1 else d.year
  }

  function MarchYearLength(y: int): int {
    if IsLeap(y + 1) then 366 else 365
  }

  function DayOfMarchYear(d: Date): int {
    (153 * (if d.month > 2 then d.month - 3 else d.month + 9) + 2) / 5 + d.day - 1
  }

  lemma EraSplit(y: int)
    ensures TruncDiv(if y >= 0 then y else y - 399, 400) == y / 400
  {
  }

  lemma DaysByMarchYear(d: Date)
    requires 1 <= d.month <= 12
    ensures Days(d) == MarchYears(MarchYear(d)) + DayOfMarchYear(d) - 719468
  {
    var y := MarchYear(d);
    EraSplit(y);
    var era, yoe := y / 400, y % 400;
    assert y / 4 == era * 100 + yoe / 4;
    assert y / 100 == era * 4 + yoe / 100;
  }

  lemma MarchYearsStep(y: int)
    ensures MarchYears(y + 1) == MarchYears(y) + MarchYearLength(y)
  {
    assert (y + 1) / 4 == y / 4 + (if (y + 1) % 4 == 0 then 1 else 0);
    assert (y + 1) / 100 == y / 100 + (if (y + 1) % 100 == 0 then 1 else 0);
    assert (y + 1) / 400 == y / 400 + (if (y + 1) % 400 == 0 then 1 else 0);
    assert (y + 1) % 400 == 0 ==> (y + 1) % 100 == 0;
    assert (y + 1) % 100 == 0 ==> (y + 1) % 4 == 0;
  }

  lemma {:induction false} MarchYearsGrow(y: int, z: int)
    requires y <= z
    ensures MarchYears(y) + 365 * (z - y) <= MarchYears(z)
    decreases z - y
  {
    if y < z {
      MarchYearsGrow(y, z - 1);
      MarchYearsStep(z - 1);
    }
  }

  lemma DayOfMarchYearBounds(d: Date)
    requires ValidDate(d)
    ensures 0 <= DayOfMarchYear(d) < MarchYearLength(MarchYear(d))
  {
  }

  lemma NextDayInMarchYear(d: Date)
    requires ValidDate(d)
    ensures ValidDate(NextDay(d))
    ensures (MarchYear(NextDay(d)) == MarchYear(d) && DayOfMarchYear(NextDay(d)) == DayOfMarchYear(d) + 1)
         || (MarchYear(NextDay(d)) == MarchYear(d) + 1 && DayOfMarchYear(NextDay(d)) == 0
             && DayOfMarchYear(d) == MarchYearLength(MarchYear(d)) - 1)
  {
  }

  lemma NextDayCountsOne(d: Date)
    requires ValidDate(d)
    ensures ValidDate(NextDay(d)) && Days(NextDay(d)) == Days(d) + 1
  {
    var y, z := MarchYear(d), MarchYear(NextDay(d));
    NextDayInMarchYear(d);
    DaysByMarchYear(d);
    DaysByMarchYear(NextDay(d));
    MarchYearsStep(y);
  }

  lemma NextUndoesPrevious(d: Date)
    requires ValidDate(d)
    ensures ValidDate(PreviousDay(d)) && NextDay(PreviousDay(d)) == d
  {
  }

  /** Walking any number of days, forwards or back, and applying the formula
      returns that number. */
  lemma {:induction false} FormulaCountsWalk(n: int)
    ensures ValidDate(Walk(n)) && Days(Walk(n)) == n
    decreases if n < 0 then -n else n
  {
    if n > 0 {
      FormulaCountsWalk(n - 1);
      NextDayCountsOne(Walk(n - 1));
    } else if n < 0 {
      FormulaCountsWalk(n + 1);
      NextUndoesPrevious(Walk(n + 1));
      NextDayCountsOne(PreviousDay(Walk(n + 1)));
    }
  }

  lemma BeforeInMarchYears(a: Date, b: Date)
    requires ValidDate(a) && ValidDate(b) && Before(a, b)
    ensures MarchYear(a) < MarchYear(b) || (MarchYear(a) == MarchYear(b) && DayOfMarchYear(a) < DayOfMarchYear(b))
  {
  }

  lemma MarchOrder(y: int, k: int, z: int, l: int)
    requires k < MarchYearLength(y) && 0 <= l
    requires y < z || (y == z && k < l)
    ensures MarchYears(y) + k < MarchYears(z) + l
  {
    if y < z {
      MarchYearsStep(y);
      MarchYearsGrow(y + 1, z);
    }
  }

  lemma FormulaIsMonotone(a: Date, b: Date)
    requires ValidDate(a) && ValidDate(b) && Before(a, b)
    ensures Days(a) < Days(b)
  {
    DaysByMarchYear(a);
    DaysByMarchYear(b);
    DayOfMarchYearBounds(a);
    DayOfMarchYearBounds(b);
    BeforeInMarchYears(a, b);
    MarchOrder(MarchYear(a), DayOfMarchYear(a), MarchYear(b), DayOfMarchYear(b));
  }

  /** The closed formula is the day count of the calendar: for any year and any
      month and day the parser lets through, walking that many days from the
      epoch reaches the date exactly when the date exists. */
  lemma FormulaIsDayCount(d: Date)
    requires 1 <= d.month <= 12 && 1 <= d.day <= 31
    ensures Walk(Days(d)) == d <==> ValidDate(d)
  {
    var w := Walk(Days(d));
    FormulaCountsWalk(Days(d));
    if ValidDate(d) && w != d {
      if Before(w, d) { FormulaIsMonotone(w, d); } else { FormulaIsMonotone(d, w); }
    }
  }

  lemma OverlongDayInMarchYear(d: Date, next: Date)
    requires 1 <= d.month <= 12 && DaysInMonth(d.year, d.month) < d.day <= 31
    requires next == Date(d.year, d.month + 1, d.day - DaysInMonth(d.year, d.month))
    ensures ValidDate(next)
    ensures (MarchYear(next) == MarchYear(d) && DayOfMarchYear(next) == DayOfMarchYear(d))
         || (MarchYear(next) == MarchYear(d) + 1 && DayOfMarchYear(next) == DayOfMarchYear(d) - MarchYearLength(MarchYear(d)))
  {
  }

  /** A day past the end of its month is read as that many days into the next. */
  lemma OverlongDayRollsOver(d: Date)
    requires 1 <= d.month <= 12 && DaysInMonth(d.year, d.month) < d.day <= 31
    ensures Walk(Days(d)) == Date(d.year, d.month + 1, d.day - DaysInMonth(d.year, d.month))
  {
    var next := Date(d.year, d.month + 1, d.day - DaysInMonth(d.year, d.month));
    OverlongDayInMarchYear(d, next);
    DaysByMarchYear(d);
    DaysByMarchYear(next);
    MarchYearsStep(MarchYear(d));
    assert Days(d) == Days(next);
    FormulaIsDayCount(next);
  }
}
