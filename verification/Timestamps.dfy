/** The order of timestamp strings against the order of the seconds they parse
    to. */
module Timestamps {
  import opened Options
  import opened Ordering
  import opened Calendar

  // ---------------------------------------------------------- canonical ones

  datatype Clock = Clock(hour: int, minute: int, second: int)

  predicate OnClock(c: Clock) {
    0 <= c.hour < 24 && 0 <= c.minute < 60 && 0 <= c.second < 60
  }

  function Seconds(c: Clock): int {
    c.hour * 3600 + c.minute * 60 + c.second
  }

  predicate Earlier(a: Clock, b: Clock) {
    a.hour < b.hour || (a.hour == b.hour && (a.minute < b.minute || (a.minute == b.minute && a.second < b.second)))
  }

  /** Nothing but digits and separators; the date need not exist. */
  predicate Shaped(s: Bytes) {
    && |s| == 19 && SeparatorsInPlace(s)
    && AllDigits(s[0..4]) && AllDigits(s[5..7]) && AllDigits(s[8..10])
    && AllDigits(s[11..13]) && AllDigits(s[14..16]) && AllDigits(s[17..19])
  }

  function DateOf(s: Bytes): Date
    requires Shaped(s)
  {
    Date(DigitsValue(s[0..4]), DigitsValue(s[5..7]), DigitsValue(s[8..10]))
  }

  function ClockOf(s: Bytes): Clock
    requires Shaped(s)
  {
    Clock(DigitsValue(s[11..13]), DigitsValue(s[14..16]), DigitsValue(s[17..19]))
  }

  /** The digits the parser lets through. */
  predicate Readable(s: Bytes) {
    Shaped(s) && 1 <= DateOf(s).month <= 12 && 1 <= DateOf(s).day <= 31
  }

  /** A timestamp of the shape of section 5.6 of RFC 3339, without leap second. */
  predicate Canonical(s: Bytes) {
    Shaped(s) && ValidDate(DateOf(s)) && OnClock(ClockOf(s))
  }

  function EpochSeconds(s: Bytes): int
    requires Shaped(s)
  {
    Days(DateOf(s)) * 86400 + Seconds(ClockOf(s))
  }

  lemma DigitsParse(s: Bytes)
    requires s != [] && AllDigits(s)
    ensures ParseI64(s) == Some(DigitsValue(s))
  {
    assert IsDigit(s[0]);
  }

  // ------------------------------------------------------ byte by byte

  function DigitAt(s: Bytes, i: nat): (d: int)
    requires i < |s|
  {
    s[i] as int - 48
  }

  predicate IsDigitAt(s: Bytes, i: nat) {
    i < |s| && 48 <= s[i] <= 57
  }

  /** A field: a digit, a plus or a minus, then digits only. */
  predicate FieldAt(s: Bytes, from: nat, to: nat) {
    && from < to <= |s| && (IsDigitAt(s, from) || s[from] == 43 || s[from] == 45)
    && forall i :: from < i < to ==> IsDigitAt(s, i)
  }

  /** What its bytes are worth. */
  function PairValue(s: Bytes, from: nat): int
    requires FieldAt(s, from, from + 2)
  {
    if IsDigitAt(s, from) then 10 * DigitAt(s, from) + DigitAt(s, from + 1)
    else if s[from] == 43 then DigitAt(s, from + 1)
    else -DigitAt(s, from + 1)
  }

  function YearValue(s: Bytes): int
    requires FieldAt(s, 0, 4)
  {
    var last := 100 * DigitAt(s, 1) + 10 * DigitAt(s, 2) + DigitAt(s, 3);
    if IsDigitAt(s, 0) then 1000 * DigitAt(s, 0) + last else if s[0] == 43 then last else -last
  }

  predicate Fields(s: Bytes)
    requires |s| >= 19
  {
    FieldAt(s, 0, 4) && FieldAt(s, 5, 7) && FieldAt(s, 8, 10) && FieldAt(s, 11, 13) && FieldAt(s, 14, 16) && FieldAt(s, 17, 19)
  }

  /** Six fields with their five separators, and a month and a day in range. */
  predicate Accepted(s: Bytes) {
    && |s| >= 19 && s[4] == 45 && s[7] == 45 && s[10] == 84 && s[13] == 58 && s[16] == 58
    && Fields(s) && 1 <= PairValue(s, 5) <= 12 && 1 <= PairValue(s, 8) <= 31
  }

  lemma DigitsStep(s: Bytes)
    requires s != [] && AllDigits(s)
    ensures DigitsValue(s) == DigitsValue(s[..|s| - 1]) * 10 + DigitAt(s, |s| - 1)
  {
  }

  /** A slice is all digits, its first byte left out, when those places are. */
  lemma TailDigits(s: Bytes, from: nat, to: nat)
    requires from < to <= |s|
    ensures AllDigits(s[from..to][1..]) <==> forall i :: from < i < to ==> IsDigitAt(s, i)
    ensures AllDigits(s[from..to]) <==> IsDigitAt(s, from) && forall i :: from < i < to ==> IsDigitAt(s, i)
  {
    var f := s[from..to];
    assert forall i :: 0 <= i < |f| ==> f[i] == s[from + i];
    assert forall i :: 0 <= i < |f| - 1 ==> f[1..][i] == f[i + 1];
    if forall i :: from < i < to ==> IsDigitAt(s, i) {
      forall i | 0 <= i < |f| - 1 ensures IsDigit(f[1..][i]) { assert IsDigitAt(s, from + 1 + i); }
      if IsDigitAt(s, from) { forall i | 0 <= i < |f| ensures IsDigit(f[i]) { assert IsDigitAt(s, from + i); } }
    } else {
      var i :| from < i < to && !IsDigitAt(s, i);
      assert !IsDigit(f[1..][i - from - 1]) && !IsDigit(f[i - from]);
    }
    assert IsDigit(f[0]) <==> IsDigitAt(s, from);
  }

  lemma PairParses(s: Bytes, from: nat)
    requires from + 2 <= |s|
    ensures ParseI64(s[from..from + 2]) == if FieldAt(s, from, from + 2) then Some(PairValue(s, from)) else None
  {
    var f := s[from..from + 2];
    TailDigits(s, from, from + 2);
    assert f[0] == s[from] && f == [s[from], s[from + 1]];
    if AllDigits(f[1..]) {
      assert IsDigitAt(s, from + 1);
      OneDigit(f[1..]);
      if IsDigitAt(s, from) {
        DigitsStep(f);
        OneDigit(f[..1]);
      }
    }
  }

  lemma OneDigit(f: Bytes)
    requires |f| == 1 && AllDigits(f)
    ensures DigitsValue(f) == DigitAt(f, 0)
  {
    DigitsStep(f);
    assert f[..0] == [];
  }

  lemma PairOfDigits(f: Bytes)
    requires |f| == 2 && AllDigits(f)
    ensures DigitsValue(f) == 10 * DigitAt(f, 0) + DigitAt(f, 1)
  {
    DigitsStep(f);
    OneDigit(f[..1]);
  }

  lemma ThreeDigits(f: Bytes)
    requires |f| == 3 && AllDigits(f)
    ensures DigitsValue(f) == 100 * DigitAt(f, 0) + 10 * DigitAt(f, 1) + DigitAt(f, 2)
  {
    DigitsStep(f);
    PairOfDigits(f[..2]);
  }

  lemma FourDigits(f: Bytes)
    requires |f| == 4 && AllDigits(f)
    ensures DigitsValue(f) == 1000 * DigitAt(f, 0) + 100 * DigitAt(f, 1) + 10 * DigitAt(f, 2) + DigitAt(f, 3)
  {
    DigitsStep(f);
    ThreeDigits(f[..3]);
  }

  lemma YearParses(s: Bytes)
    requires 4 <= |s|
    ensures ParseI64(s[0..4]) == if FieldAt(s, 0, 4) then Some(YearValue(s)) else None
  {
    var f := s[0..4];
    TailDigits(s, 0, 4);
    assert forall i :: 0 <= i < 4 ==> f[i] == s[i];
    if AllDigits(f[1..]) {
      assert forall i :: 0 <= i < 3 ==> f[1..][i] == s[i + 1];
      ThreeDigits(f[1..]);
      if IsDigitAt(s, 0) { FourDigits(f); }
    }
  }

  lemma FieldsParse(s: Bytes)
    requires |s| >= 19
    ensures ParseI64(s[0..4]) == (if FieldAt(s, 0, 4) then Some(YearValue(s)) else None)
    ensures ParseI64(s[5..7]) == (if FieldAt(s, 5, 7) then Some(PairValue(s, 5)) else None)
    ensures ParseI64(s[8..10]) == (if FieldAt(s, 8, 10) then Some(PairValue(s, 8)) else None)
    ensures ParseI64(s[11..13]) == (if FieldAt(s, 11, 13) then Some(PairValue(s, 11)) else None)
    ensures ParseI64(s[14..16]) == (if FieldAt(s, 14, 16) then Some(PairValue(s, 14)) else None)
    ensures ParseI64(s[17..19]) == (if FieldAt(s, 17, 19) then Some(PairValue(s, 17)) else None)
  {
    YearParses(s);
    PairParses(s, 5);
    PairParses(s, 8);
    PairParses(s, 11);
    PairParses(s, 14);
    PairParses(s, 17);
  }

  /** Which strings the parser accepts and what each of their bytes is worth; the
      calendar gives the day count its meaning. */
  lemma ParsesExactly(s: Bytes)
    ensures ParseIso8601Utc(s) ==
      if Accepted(s)
      then Some(DaysFromCivil(YearValue(s), PairValue(s, 5), PairValue(s, 8)) * 86400
                + PairValue(s, 11) * 3600 + PairValue(s, 14) * 60 + PairValue(s, 17))
      else None
  {
    if |s| >= 19 { FieldsParse(s); }
  }

  lemma ReadableParses(s: Bytes, tail: Bytes)
    requires Readable(s)
    ensures ParseIso8601Utc(s + tail) == Some(EpochSeconds(s)) == ParseIso8601Utc(s)
  {
    var u := s + tail;
    assert u[0..4] == s[0..4] && u[5..7] == s[5..7] && u[8..10] == s[8..10];
    assert u[11..13] == s[11..13] && u[14..16] == s[14..16] && u[17..19] == s[17..19];
    DigitsParse(s[0..4]); DigitsParse(s[5..7]); DigitsParse(s[8..10]);
    DigitsParse(s[11..13]); DigitsParse(s[14..16]); DigitsParse(s[17..19]);
  }

  /** Every canonical timestamp parses to its epoch seconds, whatever follows it. */
  lemma CanonicalParses(s: Bytes, tail: Bytes)
    requires Canonical(s)
    ensures ParseIso8601Utc(s + tail) == Some(EpochSeconds(s)) == ParseIso8601Utc(s)
  {
    ReadableParses(s, tail);
  }

  /** Those are the days walked from the epoch, times 86 400, plus the second of
      the day. */
  lemma EpochSecondsAreWalked(s: Bytes)
    requires Canonical(s)
    ensures Walk(Days(DateOf(s))) == DateOf(s) && 0 <= Seconds(ClockOf(s)) < 86400
    ensures EpochSeconds(s) == Days(DateOf(s)) * 86400 + Seconds(ClockOf(s))
  {
    FormulaIsDayCount(DateOf(s));
  }

  // ------------------------------------------------------------- byte order

  lemma {:induction false} DigitsOrder(a: Bytes, b: Bytes)
    requires |a| == |b| && AllDigits(a) && AllDigits(b)
    ensures BytesLess(a, b) <==> DigitsValue(a) < DigitsValue(b)
    ensures a == b <==> DigitsValue(a) == DigitsValue(b)
  {
    if a != [] {
      var n := |a| - 1;
      assert a == a[..n] + [a[n]] && b == b[..n] + [b[n]];
      BytesLessAppend(a[..n], [a[n]], b[..n], [b[n]]);
      DigitsOrder(a[..n], b[..n]);
      assert IsDigit(a[n]) && IsDigit(b[n]);
      assert BytesLess([a[n]], [b[n]]) <==> a[n] < b[n];
    }
  }

  lemma CutField(s: Bytes, from: nat, to: nat)
    requires from <= to < |s|
    ensures s[from..] == s[from..to] + s[to..] && s[to..] == [s[to]] + s[to + 1..]
  {
    var whole, front, back := s[from..], s[from..to], s[to..];
    assert |whole| == |front| + |back|;
    assert forall i :: 0 <= i < |whole| ==> whole[i] == (front + back)[i];
  }

  /** One field and its separator decide the order, unless the fields are equal. */
  lemma FieldOrder(s: Bytes, t: Bytes, from: nat, to: nat)
    requires |s| == |t| && from < to < |s| && s[to] == t[to]
    requires AllDigits(s[from..to]) && AllDigits(t[from..to])
    ensures BytesLess(s[from..], t[from..]) <==>
            || DigitsValue(s[from..to]) < DigitsValue(t[from..to])
            || (DigitsValue(s[from..to]) == DigitsValue(t[from..to]) && BytesLess(s[to + 1..], t[to + 1..]))
  {
    CutField(s, from, to);
    CutField(t, from, to);
    BytesLessAppend(s[from..to], s[to..], t[from..to], t[to..]);
    DigitsOrder(s[from..to], t[from..to]);
    BytesLessAppend([s[to]], s[to + 1..], [t[to]], t[to + 1..]);
    BytesLessIrreflexive([s[to]]);
  }

  lemma ByteOrderIsFieldOrder(s: Bytes, t: Bytes)
    requires Shaped(s) && Shaped(t)
    ensures BytesLess(s, t) <==> Before(DateOf(s), DateOf(t)) || (DateOf(s) == DateOf(t) && Earlier(ClockOf(s), ClockOf(t)))
  {
    FieldOrder(s, t, 0, 4);
    FieldOrder(s, t, 5, 7);
    FieldOrder(s, t, 8, 10);
    FieldOrder(s, t, 11, 13);
    FieldOrder(s, t, 14, 16);
    DigitsOrder(s[17..19], t[17..19]);
    assert s[17..] == s[17..19] && t[17..] == t[17..19] && s[0..] == s && t[0..] == t;
  }

  lemma DateOrder(a: Date, b: Date)
    requires ValidDate(a) && ValidDate(b)
    ensures Before(a, b) <==> Days(a) < Days(b)
    ensures a == b <==> Days(a) == Days(b)
  {
    if Before(a, b) { FormulaIsMonotone(a, b); }
    if Before(b, a) { FormulaIsMonotone(b, a); }
  }

  lemma ClockOrder(x: int, c: Clock, y: int, e: Clock)
    requires OnClock(c) && OnClock(e)
    ensures x * 86400 + Seconds(c) < y * 86400 + Seconds(e) <==> x < y || (x == y && Earlier(c, e))
    ensures x * 86400 + Seconds(c) == y * 86400 + Seconds(e) <==> x == y && c == e
  {
  }

  lemma TimeOrder(s: Bytes, t: Bytes)
    requires Canonical(s) && Canonical(t)
    ensures BytesLess(s, t) <==> EpochSeconds(s) < EpochSeconds(t)
    ensures s == t <==> EpochSeconds(s) == EpochSeconds(t)
  {
    var d, e, c, f := DateOf(s), DateOf(t), ClockOf(s), ClockOf(t);
    DateOrder(d, e);
    ClockOrder(Days(d), c, Days(e), f);
    ByteOrderIsFieldOrder(s, t);
    ByteOrderIsFieldOrder(t, s);
    BytesLessConnected(s, t);
    BytesLessIrreflexive(s);
  }

  /** String sortability: the byte order of canonical timestamps is the order of
      the seconds they parse to. */
  lemma ByteOrderIsTimeOrder(s: Bytes, t: Bytes)
    requires Canonical(s) && Canonical(t)
    ensures ParseIso8601Utc(s) == Some(EpochSeconds(s)) && ParseIso8601Utc(t) == Some(EpochSeconds(t))
    ensures BytesLess(s, t) <==> EpochSeconds(s) < EpochSeconds(t)
    ensures s == t <==> EpochSeconds(s) == EpochSeconds(t)
  {
    TimeOrder(s, t);
    CanonicalParses(s, []);
    CanonicalParses(t, []);
  }

  /** With fraction and zone suffixes: an earlier second still sorts first, and
      sorting first still means no later second. */
  lemma SuffixedByteOrder(s: Bytes, tail: Bytes, t: Bytes, tail': Bytes)
    requires Canonical(s) && Canonical(t)
    ensures ParseIso8601Utc(s + tail) == Some(EpochSeconds(s)) && ParseIso8601Utc(t + tail') == Some(EpochSeconds(t))
    ensures EpochSeconds(s) < EpochSeconds(t) ==> BytesLess(s + tail, t + tail')
    ensures BytesLess(s + tail, t + tail') ==> EpochSeconds(s) <= EpochSeconds(t)
  {
    TimeOrder(s, t);
    BytesLessAppend(s, tail, t, tail');
    CanonicalParses(s, tail);
    CanonicalParses(t, tail');
  }

  // ---------------------------------------------------- writing a timestamp

  function TwoDigits(n: int): (s: Bytes)
    requires 0 <= n < 100
    ensures |s| == 2 && AllDigits(s)
  {
    [48 + n / 10, 48 + n % 10]
  }

  lemma TwoDigitsValue(front: Bytes, n: int)
    requires AllDigits(front) && 0 <= n < 100
    ensures AllDigits(front + TwoDigits(n)) && DigitsValue(front + TwoDigits(n)) == DigitsValue(front) * 100 + n
  {
    var s := front + TwoDigits(n);
    assert s[..|s| - 1] == front + [48 + n / 10] && (front + [48 + n / 10])[..|front|] == front;
  }

  predicate Writable(d: Date, c: Clock) {
    && 0 <= d.year < 10000 && 0 <= d.month < 100 && 0 <= d.day < 100
    && 0 <= c.hour < 100 && 0 <= c.minute < 100 && 0 <= c.second < 100
  }

  function Stamp(d: Date, c: Clock): (s: Bytes)
    requires Writable(d, c)
    ensures |s| == 19
  {
    TwoDigits(d.year / 100) + TwoDigits(d.year % 100) + ['-' as int] + TwoDigits(d.month) + ['-' as int] + TwoDigits(d.day)
    + ['T' as int] + TwoDigits(c.hour) + [':' as int] + TwoDigits(c.minute) + [':' as int] + TwoDigits(c.second)
  }

  lemma StampFields(d: Date, c: Clock)
    requires Writable(d, c)
    ensures Shaped(Stamp(d, c)) && DateOf(Stamp(d, c)) == d && ClockOf(Stamp(d, c)) == c
  {
    var s := Stamp(d, c);
    assert s[0..4] == TwoDigits(d.year / 100) + TwoDigits(d.year % 100);
    assert s[5..7] == [] + TwoDigits(d.month) && s[8..10] == [] + TwoDigits(d.day);
    assert s[11..13] == [] + TwoDigits(c.hour) && s[14..16] == [] + TwoDigits(c.minute) && s[17..19] == [] + TwoDigits(c.second);
    TwoDigitsValue([], d.year / 100);
    assert [] + TwoDigits(d.year / 100) == TwoDigits(d.year / 100);
    TwoDigitsValue(TwoDigits(d.year / 100), d.year % 100);
    TwoDigitsValue([], d.month);
    TwoDigitsValue([], d.day);
    TwoDigitsValue([], c.hour);
    TwoDigitsValue([], c.minute);
    TwoDigitsValue([], c.second);
  }

  const MIDNIGHT: Clock := Clock(0, 0, 0)
  const LAST_SECOND: Clock := Clock(23, 59, 59)
  const FIRST_DATE: Date := Date(0, 1, 1)
  const LAST_DATE: Date := Date(9999, 12, 31)

  function First(): Bytes { Stamp(FIRST_DATE, MIDNIGHT) }

  function Last(): Bytes { Stamp(LAST_DATE, LAST_SECOND) }

  lemma YearRange(s: Bytes)
    requires Shaped(s)
    ensures 0 <= DateOf(s).year < 10000
    ensures 0 <= DateOf(s).month < 100 && 0 <= DateOf(s).day < 100
    ensures 0 <= ClockOf(s).hour < 100 && 0 <= ClockOf(s).minute < 100 && 0 <= ClockOf(s).second < 100
  {
    DigitsBound(s[0..4]); DigitsBound(s[5..7]); DigitsBound(s[8..10]);
    DigitsBound(s[11..13]); DigitsBound(s[14..16]); DigitsBound(s[17..19]);
    assert Pow10(4) == 10000 && Pow10(2) == 100;
  }

  function Pow10(n: nat): nat {
    if n == 0 then 1 else 10 * Pow10(n - 1)
  }

  lemma {:induction false} DigitsBound(s: Bytes)
    requires AllDigits(s)
    ensures DigitsValue(s) < Pow10(|s|)
  {
    if s != [] {
      DigitsBound(s[..|s| - 1]);
      assert IsDigit(s[|s| - 1]);
    }
  }

  /** The first and the last canonical timestamp. */
  lemma Ends(t: Bytes)
    requires Canonical(t)
    ensures Canonical(First()) && Canonical(Last())
    ensures EpochSeconds(First()) <= EpochSeconds(t) <= EpochSeconds(Last())
  {
    StampFields(FIRST_DATE, MIDNIGHT);
    StampFields(LAST_DATE, LAST_SECOND);
    YearRange(t);
    NoLaterDate(DateOf(t));
  }

  function ClockAt(n: int): (c: Clock)
    requires 0 <= n < 86400
    ensures OnClock(c) && Seconds(c) == n
  {
    Clock(n / 3600, n / 60 % 60, n % 60)
  }

  /** One second earlier on the calendar. */
  lemma PreviousSecond(d: Date, c: Clock) returns (e: Date, f: Clock)
    requires ValidDate(d) && OnClock(c) && 0 <= d.year < 10000 && (Before(FIRST_DATE, d) || Earlier(MIDNIGHT, c))
    ensures ValidDate(e) && OnClock(f) && Writable(e, f)
    ensures Days(e) * 86400 + Seconds(f) == Days(d) * 86400 + Seconds(c) - 1
  {
    var n := Seconds(c);
    if n > 0 {
      e, f := d, ClockAt(n - 1);
    } else {
      e, f := PreviousDay(d), ClockAt(86399);
      NextUndoesPrevious(d);
      NextDayCountsOne(e);
    }
  }

  lemma NotTheFirst(t: Bytes)
    requires Canonical(t) && t != First()
    ensures 0 <= DateOf(t).year < 10000 && (Before(FIRST_DATE, DateOf(t)) || Earlier(MIDNIGHT, ClockOf(t)))
  {
    YearRange(t);
    StampFields(FIRST_DATE, MIDNIGHT);
    ByteOrderIsFieldOrder(First(), t);
    ByteOrderIsFieldOrder(t, First());
    BytesLessConnected(t, First());
  }

  /** There is a canonical timestamp one second before every one but the first. */
  lemma SecondBefore(t: Bytes) returns (p: Bytes)
    requires Canonical(t) && t != First()
    ensures Canonical(p) && EpochSeconds(p) == EpochSeconds(t) - 1
  {
    NotTheFirst(t);
    var e, f := PreviousSecond(DateOf(t), ClockOf(t));
    p := Stamp(e, f);
    StampFields(e, f);
  }

  // ----------------------------------------------------- exact sortability

  // The order argument needs no more of the canonical strings than that their
  // time `f` follows their byte order.
  ghost predicate Ordered(c: Bytes -> bool, f: Bytes -> int) {
    forall t, u :: c(t) && c(u) ==> (BytesLess(t, u) <==> f(t) < f(u))
  }

  /** `s`, taken for the second `n`, compares with every string of `c` by bytes as
      it does by time. */
  ghost predicate Sorts(c: Bytes -> bool, f: Bytes -> int, s: Bytes, n: int) {
    forall t :: c(t) ==> (BytesLess(s, t) <==> n < f(t))
  }

  /** The first string of `c` that sorts after `s`. */
  ghost predicate IsFirstAfter(c: Bytes -> bool, f: Bytes -> int, s: Bytes, t: Bytes) {
    c(t) && BytesLess(s, t) && forall u :: c(u) && BytesLess(s, u) ==> f(t) <= f(u)
  }

  ghost predicate IsNoneAfter(c: Bytes -> bool, s: Bytes) {
    forall t :: c(t) ==> !BytesLess(s, t)
  }

  lemma SortsLast(c: Bytes -> bool, f: Bytes -> int, s: Bytes, n: int, last: Bytes)
    requires IsNoneAfter(c, s) && c(last) && forall t :: c(t) ==> f(t) <= f(last)
    ensures Sorts(c, f, s, n) <==> n >= f(last)
  {
  }

  lemma SortsFirst(c: Bytes -> bool, f: Bytes -> int, s: Bytes, n: int, first: Bytes)
    requires Ordered(c, f) && c(first) && BytesLess(s, first) && forall t :: c(t) ==> f(first) <= f(t)
    ensures Sorts(c, f, s, n) <==> n < f(first)
  {
    forall t | c(t) ensures BytesLess(s, t) {
      BytesLessConnected(first, t);
      if BytesLess(first, t) { BytesLessTransitive(s, first, t); }
    }
  }

  lemma SortsBetween(c: Bytes -> bool, f: Bytes -> int, s: Bytes, n: int, next: Bytes, before: Bytes)
    requires Ordered(c, f) && IsFirstAfter(c, f, s, next) && c(before) && f(before) == f(next) - 1
    ensures Sorts(c, f, s, n) <==> n == f(next) - 1
  {
    forall t | c(t) ensures BytesLess(s, t) <==> f(next) <= f(t) {
      BytesLessConnected(next, t);
      if BytesLess(next, t) { BytesLessTransitive(s, next, t); }
    }
    assert !BytesLess(s, before);
  }

  lemma {:induction false} SomeFirstAfter(c: Bytes -> bool, f: Bytes -> int, s: Bytes, t: Bytes, least: int) returns (u: Bytes)
    requires c(t) && BytesLess(s, t) && forall v :: c(v) ==> f(v) >= least
    ensures IsFirstAfter(c, f, s, u)
    decreases f(t) - least
  {
    if v :| c(v) && BytesLess(s, v) && f(v) < f(t) {
      u := SomeFirstAfter(c, f, s, v, least);
    } else {
      u := t;
    }
  }

  function IsCanonical(): Bytes -> bool {
    (t: Bytes) => Canonical(t)
  }

  function Time(): Bytes -> int {
    (t: Bytes) => if Shaped(t) then EpochSeconds(t) else 0
  }

  lemma CanonicalOrdered()
    ensures Ordered(IsCanonical(), Time())
  {
    forall t, u | IsCanonical()(t) && IsCanonical()(u) ensures BytesLess(t, u) <==> Time()(t) < Time()(u) { TimeOrder(t, u); }
  }

  lemma EndsAreCanonical()
    ensures Canonical(First()) && Canonical(Last())
  {
    StampFields(FIRST_DATE, MIDNIGHT);
    StampFields(LAST_DATE, LAST_SECOND);
  }

  lemma InTime(t: Bytes)
    requires Canonical(t)
    ensures IsCanonical()(t) && Time()(t) == EpochSeconds(t)
  {
  }

  lemma EndsInTime(t: Bytes)
    ensures IsCanonical()(First()) && IsCanonical()(Last())
    ensures Time()(First()) == EpochSeconds(First()) && Time()(Last()) == EpochSeconds(Last())
    ensures IsCanonical()(t) ==> Time()(First()) <= Time()(t) <= Time()(Last())
  {
    EndsAreCanonical();
    InTime(First());
    InTime(Last());
    if IsCanonical()(t) {
      Ends(t);
      InTime(t);
    }
  }

  lemma CanonicalEnds()
    ensures IsCanonical()(First()) && forall t :: IsCanonical()(t) ==> Time()(First()) <= Time()(t)
    ensures IsCanonical()(Last()) && forall t :: IsCanonical()(t) ==> Time()(t) <= Time()(Last())
    ensures Time()(First()) == EpochSeconds(First()) && Time()(Last()) == EpochSeconds(Last())
  {
    EndsInTime([]);
    forall t ensures IsCanonical()(t) ==> Time()(First()) <= Time()(t) <= Time()(Last()) { EndsInTime(t); }
  }

  /** The parser accepts `s`, and `s` compares with every canonical timestamp by
      bytes as it does by time. */
  ghost predicate SortsByTime(s: Bytes) {
    exists n :: ParseIso8601Utc(s) == Some(n) && Sorts(IsCanonical(), Time(), s, n)
  }

  /** The first canonical timestamp that sorts after `s`. */
  ghost predicate FirstAfter(s: Bytes, t: Bytes) {
    IsFirstAfter(IsCanonical(), Time(), s, t)
  }

  ghost predicate NoneAfter(s: Bytes) {
    IsNoneAfter(IsCanonical(), s)
  }

  /** When `s`, taken for the second `n`, sorts by time. */
  ghost predicate InItsGap(s: Bytes, n: int) {
    && (NoneAfter(s) ==> n >= Time()(Last()))
    && (forall next :: FirstAfter(s, next) ==> if next == First() then n < Time()(next) else n == Time()(next) - 1)
  }

  /** Of any string the parser accepts, signed fields, missing dates, overflowing
      clocks and suffixes included: it sorts by time exactly when it parses to the
      second right before the first canonical timestamp that sorts after it; to
      any earlier second if that is the very first one; and to no second before
      the last canonical one if none sorts after it. */
  lemma SortsByTimeExactlyWhen(s: Bytes, n: int)
    requires ParseIso8601Utc(s) == Some(n)
    ensures SortsByTime(s) <==> InItsGap(s, n)
    ensures NoneAfter(s) || exists t :: FirstAfter(s, t)
  {
    GapDecides(s, n);
  }

  lemma GapDecides(s: Bytes, n: int)
    ensures Sorts(IsCanonical(), Time(), s, n) <==> InItsGap(s, n)
    ensures NoneAfter(s) || exists t :: FirstAfter(s, t)
  {
    if NoneAfter(s) {
      GapAtTheEnd(s, n);
    } else {
      var next := NextCanonical(s);
      GapBefore(s, n, next);
      GapIsUnique(s, n, next);
    }
  }

  lemma NextCanonical(s: Bytes) returns (next: Bytes)
    requires !NoneAfter(s)
    ensures FirstAfter(s, next)
  {
    var c, f := IsCanonical(), Time();
    CanonicalEnds();
    var t :| c(t) && BytesLess(s, t);
    next := SomeFirstAfter(c, f, s, t, f(First()));
  }

  lemma GapAtTheEnd(s: Bytes, n: int)
    requires NoneAfter(s)
    ensures Sorts(IsCanonical(), Time(), s, n) <==> InItsGap(s, n)
  {
    CanonicalEnds();
    SortsLast(IsCanonical(), Time(), s, n, Last());
    assert forall t :: !FirstAfter(s, t);
  }

  lemma GapIsUnique(s: Bytes, n: int, next: Bytes)
    requires FirstAfter(s, next)
    ensures InItsGap(s, n) <==> if next == First() then n < Time()(next) else n == Time()(next) - 1
  {
    var c, f := IsCanonical(), Time();
    CanonicalOrdered();
    assert !NoneAfter(s);
    forall t | FirstAfter(s, t) ensures t == next { BytesLessConnected(t, next); }
  }

  lemma GapBefore(s: Bytes, n: int, next: Bytes)
    requires FirstAfter(s, next)
    ensures Sorts(IsCanonical(), Time(), s, n) <==> if next == First() then n < Time()(next) else n == Time()(next) - 1
  {
    var c, f := IsCanonical(), Time();
    CanonicalOrdered();
    CanonicalEnds();
    if next == First() {
      SortsFirst(c, f, s, n, next);
    } else {
      var before := SecondBefore(next);
      SortsBetween(c, f, s, n, next, before);
    }
  }

  // --------------------------------------------------------- digits only

  /** The first second of the day or hour or minute that an overflowing clock runs
      into. */
  function Carried(c: Clock): Clock {
    if c.minute >= 59 then Clock(c.hour + 1, 0, 0) else Clock(c.hour, c.minute + 1, 0)
  }

  /** A readable timestamp that is not canonical sorts before a canonical one that
      it parses to no earlier than. */
  lemma NotCanonicalMissorts(s: Bytes) returns (t: Bytes)
    requires Readable(s) && !Canonical(s) && !PastTheLast(s)
    ensures Canonical(t) && BytesLess(s, t) && EpochSeconds(t) <= EpochSeconds(s)
  {
    var d, c := DateOf(s), ClockOf(s);
    YearRange(s);
    if !ValidDate(d) {
      var first := Date(d.year, d.month + 1, 1);
      t := Stamp(first, MIDNIGHT);
      StampFields(first, MIDNIGHT);
      LaterInSameMonth(d, first);
    } else if Seconds(c) >= 86400 {
      var e := NextDay(d);
      NextDayCountsOne(d);
      t := Stamp(e, MIDNIGHT);
      StampFields(e, MIDNIGHT);
    } else {
      t := Stamp(d, Carried(c));
      StampFields(d, Carried(c));
    }
    ByteOrderIsFieldOrder(s, t);
  }

  lemma LaterInSameMonth(d: Date, first: Date)
    requires 1 <= d.month <= 12 && DaysInMonth(d.year, d.month) < d.day <= 31
    requires first == Date(d.year, d.month + 1, 1)
    ensures Days(first) <= Days(d)
  {
    var next := Walk(Days(d));
    OverlongDayRollsOver(d);
    FormulaCountsWalk(Days(d));
    if next != first { FormulaIsMonotone(first, next); }
  }

  /** The parser accepts 31 in every month, hours up to 99, minutes and seconds up
      to 99.  Sortability holds of exactly those digit-only timestamps that are
      canonical, and of those past the last second of the last day, which no
      canonical one follows. */
  lemma DigitsSortExactlyWhenCanonical(s: Bytes)
    requires Readable(s)
    ensures ParseIso8601Utc(s) == Some(EpochSeconds(s))
    ensures SortsByTime(s) <==> Canonical(s) || PastTheLast(s)
  {
    ReadableParses(s, []);
    SortsAtOwnTime(s);
  }

  predicate PastTheLast(s: Bytes)
    requires Shaped(s)
  {
    DateOf(s) == LAST_DATE && Seconds(ClockOf(s)) >= 86400
  }

  lemma SortsAtOwnTime(s: Bytes)
    requires Readable(s)
    ensures Sorts(IsCanonical(), Time(), s, EpochSeconds(s)) <==> Canonical(s) || PastTheLast(s)
  {
    if Canonical(s) {
      CanonicalSorts(s);
    } else if PastTheLast(s) {
      PastTheLastSorts(s);
    } else {
      var t := NotCanonicalMissorts(s);
      assert IsCanonical()(t) && Time()(t) == EpochSeconds(t);
    }
  }

  lemma CanonicalSorts(s: Bytes)
    requires Canonical(s)
    ensures Sorts(IsCanonical(), Time(), s, EpochSeconds(s))
  {
    forall t | IsCanonical()(t) ensures BytesLess(s, t) <==> EpochSeconds(s) < Time()(t) { TimeOrder(s, t); }
  }

  lemma PastTheLastSorts(s: Bytes)
    requires Readable(s) && PastTheLast(s)
    ensures Sorts(IsCanonical(), Time(), s, EpochSeconds(s))
  {
    forall t | IsCanonical()(t) ensures !BytesLess(s, t) && Time()(t) <= EpochSeconds(s) { PastTheEnd(s, t); }
  }

  lemma OverflowIsLast(c: Clock, e: Clock)
    requires 0 <= c.hour < 100 && 0 <= c.minute < 100 && 0 <= c.second < 100 && Seconds(c) >= 86400 && OnClock(e)
    ensures !Earlier(c, e) && Seconds(e) < Seconds(c)
  {
  }

  lemma NoLaterDate(d: Date)
    requires ValidDate(d) && 0 <= d.year < 10000
    ensures !Before(LAST_DATE, d) && Days(FIRST_DATE) <= Days(d) <= Days(LAST_DATE)
  {
    DateOrder(d, LAST_DATE);
    DateOrder(FIRST_DATE, d);
    assert d == FIRST_DATE || Before(FIRST_DATE, d);
    assert d == LAST_DATE || Before(d, LAST_DATE);
  }

  lemma PastTheEnd(s: Bytes, t: Bytes)
    requires Readable(s) && PastTheLast(s) && Canonical(t)
    ensures !BytesLess(s, t) && EpochSeconds(t) <= EpochSeconds(s)
  {
    YearRange(s);
    YearRange(t);
    OverflowIsLast(ClockOf(s), ClockOf(t));
    NoLaterDate(DateOf(t));
    ByteOrderIsFieldOrder(s, t);
  }

  // --------------------------------------------------------- signed fields

  predicate IsSign(b: Byte) {
    b == '+' as int || b == '-' as int
  }

  predicate LaterField(k: int) {
    k == 5 || k == 8 || k == 11 || k == 14 || k == 17
  }

  predicate Separates(i: int) {
    i == 4 || i == 7 || i == 10 || i == 13 || i == 16
  }

  /** The fields before position `k` are digits and `k` is where a sign stands. */
  predicate FirstSignAt(s: Bytes, k: nat) {
    && |s| >= 19 && (k == 0 || LaterField(k)) && IsSign(s[k])
    && (forall i :: 0 <= i < k && !Separates(i) ==> IsDigit(s[i]))
  }

  /** `s` up to the signed field, then the least fields there are. */
  function UnitStart(s: Bytes, k: nat): (t: Bytes)
    requires |s| >= 19 && k <= 19
    ensures |t| == 19
  {
    s[..k] + First()[k..]
  }

  lemma FirstBytes()
    ensures First()[0..4] == [48, 48, 48, 48] && First()[5..7] == [48, 49] && First()[8..10] == [48, 49]
    ensures First()[11..13] == [48, 48] && First()[14..16] == [48, 48] && First()[17..19] == [48, 48]
    ensures SeparatorsInPlace(First())
  {
  }

  lemma SignSortsBefore(s: Bytes, t: Bytes, k: nat)
    requires k < |s| && k < |t| && s[..k] == t[..k] && s[k] < t[k]
    ensures BytesLess(s, t) && !BytesLess(t, s)
  {
    assert s == s[..k] + s[k..] && t == t[..k] + t[k..];
    BytesLessAppend(s[..k], s[k..], t[..k], t[k..]);
    BytesLessAppend(t[..k], t[k..], s[..k], s[k..]);
    BytesLessIrreflexive(s[..k]);
  }

  /** A signed year sorts before everything, so it sorts by time exactly when it
      parses to a second before the first canonical one. */
  lemma SignedYearSortsExactlyWhen(s: Bytes, n: int)
    requires ParseIso8601Utc(s) == Some(n)
    requires FirstSignAt(s, 0)
    ensures SortsByTime(s) <==> n < Time()(First())
  {
    SignedYearSortsFirst(s, n);
    SortsAsParsed(s, n);
  }

  lemma SortsAsParsed(s: Bytes, n: int)
    requires ParseIso8601Utc(s) == Some(n)
    ensures SortsByTime(s) <==> Sorts(IsCanonical(), Time(), s, n)
  {
  }

  lemma SignedYearSortsFirst(s: Bytes, n: int)
    requires FirstSignAt(s, 0)
    ensures Sorts(IsCanonical(), Time(), s, n) <==> n < Time()(First())
  {
    FirstBytes();
    assert First()[0] == First()[0..4][0];
    SignSortsBefore(s, First(), 0);
    CanonicalOrdered();
    CanonicalEnds();
    SortsFirst(IsCanonical(), Time(), s, n, First());
  }

  /** A sign in a later field sorts right before the unit it stands in.  Such a
      timestamp sorts by time exactly when its negative fields take it back to the
      very second before that unit (or, in the first unit of all, anywhere before
      it). */
  lemma SignedFieldSortsExactlyWhen(s: Bytes, k: nat, n: int)
    requires ParseIso8601Utc(s) == Some(n) && FirstSignAt(s, k) && k > 0 && Canonical(UnitStart(s, k))
    ensures SortsByTime(s) <==>
            if UnitStart(s, k) == First() then n < Time()(First()) else n == Time()(UnitStart(s, k)) - 1
  {
    StartsUnit(s, k);
    GapBefore(s, n, UnitStart(s, k));
    SortsAsParsed(s, n);
  }

  /** Nothing canonical sorts between the signed timestamp and its unit's start. */
  lemma StartsUnit(s: Bytes, k: nat)
    requires FirstSignAt(s, k) && k > 0 && Canonical(UnitStart(s, k))
    ensures FirstAfter(s, UnitStart(s, k))
  {
    var u := UnitStart(s, k);
    assert u[..k] == s[..k] && u[k..] == First()[k..];
    SignBeforeLeast(s, u, k);
    forall t | IsCanonical()(t) && BytesLess(s, t) ensures Time()(u) <= Time()(t) {
      TimeOrder(t, u);
      NotBeforeUnit(s, t, u, k);
    }
  }

  lemma SignBeforeLeast(s: Bytes, u: Bytes, k: nat)
    requires |s| >= 19 && |u| == 19 && LaterField(k) && IsSign(s[k]) && u[..k] == s[..k] && u[k..] == First()[k..]
    ensures BytesLess(s, u)
  {
    FirstBytes();
    assert u[k] == First()[k];
    assert First()[5] == First()[5..7][0] && First()[8] == First()[8..10][0] && First()[11] == First()[11..13][0];
    assert First()[14] == First()[14..16][0] && First()[17] == First()[17..19][0];
    SignSortsBefore(s, u, k);
  }

  lemma NotBeforeUnit(s: Bytes, t: Bytes, u: Bytes, k: nat)
    requires |s| >= 19 && LaterField(k) && Canonical(t) && Canonical(u)
    requires u[..k] == s[..k] && u[k..] == First()[k..] && BytesLess(s, t)
    ensures !BytesLess(t, u)
  {
    if s[..k] == t[..k] { LeastInUnit(t, u, k); } else { FrontsDecide(s, t, u, k); }
  }

  lemma FrontsDecide(s: Bytes, t: Bytes, u: Bytes, k: nat)
    requires k <= |s| && k <= |t| && k <= |u| && u[..k] == s[..k] != t[..k] && BytesLess(s, t)
    ensures !BytesLess(t, u)
  {
    assert s == s[..k] + s[k..] && t == t[..k] + t[k..] && u == u[..k] + u[k..];
    BytesLessAppend(s[..k], s[k..], t[..k], t[k..]);
    BytesLessAppend(t[..k], t[k..], u[..k], u[k..]);
    BytesLessConnected(s[..k], t[..k]);
    BytesLessAsymmetric(s[..k], t[..k]);
  }

  lemma BytesLessAsymmetric(a: Bytes, b: Bytes)
    requires BytesLess(a, b)
    ensures !BytesLess(b, a) && a != b
  {
    BytesLessIrreflexive(a);
    if BytesLess(b, a) { BytesLessTransitive(a, b, a); }
  }

  /** The unit's start is not after any canonical timestamp of the unit. */
  lemma LeastInUnit(t: Bytes, u: Bytes, k: nat)
    requires Canonical(t) && Canonical(u) && LaterField(k) && t[..k] == u[..k] && u[k..] == First()[k..]
    ensures !BytesLess(t, u)
  {
    FirstBytes();
    ByteOrderIsFieldOrder(t, u);
    SameField(t, u, k, 0, 4); SameField(t, u, k, 5, 7); SameField(t, u, k, 8, 10);
    SameField(t, u, k, 11, 13); SameField(t, u, k, 14, 16);
    if k <= 5 { LeastField(u, k, 5, 7, 1); }
    if k <= 8 { LeastField(u, k, 8, 10, 1); }
    if k <= 11 { LeastField(u, k, 11, 13, 0); }
    if k <= 14 { LeastField(u, k, 14, 16, 0); }
    LeastField(u, k, 17, 19, 0);
  }

  lemma SameField(t: Bytes, u: Bytes, k: nat, from: nat, to: nat)
    requires from <= to <= |t| && to <= |u| && k <= |t| && k <= |u| && t[..k] == u[..k]
    ensures to <= k ==> t[from..to] == u[from..to]
  {
    if to <= k { assert t[from..to] == t[..k][from..to] && u[from..to] == u[..k][from..to]; }
  }

  lemma LeastField(u: Bytes, k: nat, from: nat, to: nat, least: int)
    requires |u| == 19 && k <= from && to == from + 2 <= 19 && u[k..] == First()[k..]
    requires First()[from..to] == [48, 48 + least] && 0 <= least <= 9
    ensures AllDigits(u[from..to]) && DigitsValue(u[from..to]) == least
  {
    assert u[from] == u[k..][from - k] == First()[from] == First()[from..to][0];
    assert u[from + 1] == u[k..][from + 1 - k] == First()[from + 1] == First()[from..to][1];
    assert u[from..to] == [] + TwoDigits(least);
    TwoDigitsValue([], least);
  }
}
