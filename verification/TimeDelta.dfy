/** Bounded signed durations. */
module TimeDeltas {
  import opened Wrappers
  import opened RustInt

  const NANOS_PER_MICRO := 1000
  const NANOS_PER_MILLI := 1_000_000
  const NANOS_PER_SEC := 1_000_000_000
  const MICROS_PER_SEC := 1_000_000
  const MILLIS_PER_SEC := 1000

  datatype TimeDelta = TimeDelta(secs: int, nanos: int)

  const MIN := TimeDelta(Quot(-I64_MAX, MILLIS_PER_SEC) - 1, NANOS_PER_SEC + Rem(-I64_MAX, MILLIS_PER_SEC) * NANOS_PER_MILLI)
  const MAX := TimeDelta(Quot(I64_MAX, MILLIS_PER_SEC), Rem(I64_MAX, MILLIS_PER_SEC) * NANOS_PER_MILLI)

  /** The number of nanoseconds a delta stands for. */
  function Total(d: TimeDelta): int {
    d.secs * NANOS_PER_SEC + d.nanos
  }

  /** The stored form: the fraction counts upward from the whole seconds, which can be negated. */
  predicate Proper(d: TimeDelta) {
    0 <= d.nanos < NANOS_PER_SEC && I64_MIN < d.secs <= I64_MAX
  }

  const MAX_TOTAL := I64_MAX * NANOS_PER_MILLI

  /** A range that is symmetric around zero: that of `i64` milliseconds without its minimum. */
  predicate InBounds(total: int) {
    -MAX_TOTAL <= total <= MAX_TOTAL
  }

  predicate Valid(d: TimeDelta) {
    0 <= d.nanos < NANOS_PER_SEC && InBounds(Total(d))
  }

  /** The one proper delta with a given total. */
  function OfTotal(total: int): (d: TimeDelta)
    ensures Total(d) == total && 0 <= d.nanos < NANOS_PER_SEC
  {
    TimeDelta(total / NANOS_PER_SEC, total % NANOS_PER_SEC)
  }

  lemma BoundsAreMilliseconds()
    ensures Total(MIN) == -MAX_TOTAL && Total(MAX) == MAX_TOTAL
    ensures Valid(MIN) && Valid(MAX)
    ensures MAX == TimeDelta(9_223_372_036_854_775, 807_000_000)
  {
  }

  // ----- Construction

  function New(secs: int, nanos: nat): Option<TimeDelta> {
    if secs < MIN.secs || secs > MAX.secs || nanos >= 1_000_000_000
      || (secs == MAX.secs && nanos > MAX.nanos) || (secs == MIN.secs && nanos < MIN.nanos)
    then None
    else Some(TimeDelta(secs, nanos))
  }

  lemma NewAcceptsExactly(secs: int, nanos: nat)
    ensures New(secs, nanos) == if nanos < NANOS_PER_SEC && InBounds(secs * NANOS_PER_SEC + nanos)
                                then Some(TimeDelta(secs, nanos)) else None
  {
  }

  function TryMilliseconds(ms: int): Option<TimeDelta> {
    if ms < -I64_MAX then None
    else Some(TimeDelta(ms / MILLIS_PER_SEC, ms % MILLIS_PER_SEC * NANOS_PER_MILLI))
  }

  function Microseconds(us: int): TimeDelta {
    TimeDelta(us / MICROS_PER_SEC, us % MICROS_PER_SEC * NANOS_PER_MICRO)
  }

  function Nanoseconds(ns: int): TimeDelta {
    TimeDelta(ns / NANOS_PER_SEC, ns % NANOS_PER_SEC)
  }

  // ----- Reading

  function NumSeconds(d: TimeDelta): int {
    if d.secs < 0 && d.nanos > 0 then d.secs + 1 else d.secs
  }

  function SubsecNanos(d: TimeDelta): int {
    if d.secs < 0 && d.nanos > 0 then d.nanos - NANOS_PER_SEC else d.nanos
  }

  function NumDays(d: TimeDelta): int {
    Quot(NumSeconds(d), 86_400)
  }

  function NumMilliseconds(d: TimeDelta): int {
    NumSeconds(d) * MILLIS_PER_SEC + Quot(SubsecNanos(d), NANOS_PER_MILLI)
  }

  function CheckedI64(x: int): Option<int> {
    if FitsI64(x) then Some(x) else None
  }

  function NumMicroseconds(d: TimeDelta): Option<int> {
    match CheckedI64(NumSeconds(d) * MICROS_PER_SEC)
    case None => None
    case Some(part) => CheckedI64(part + Quot(SubsecNanos(d), NANOS_PER_MICRO))
  }

  function NumNanoseconds(d: TimeDelta): Option<int> {
    match CheckedI64(NumSeconds(d) * NANOS_PER_SEC)
    case None => None
    case Some(part) => CheckedI64(part + SubsecNanos(d))
  }

  /** Whole seconds and their fraction are the truncated quotient and remainder of the total. */
  lemma SecondsTruncate(d: TimeDelta)
    requires Proper(d)
    ensures NumSeconds(d) == Quot(Total(d), NANOS_PER_SEC) && SubsecNanos(d) == Rem(Total(d), NANOS_PER_SEC)
  {
  }

  lemma NumNanosecondsExactly(d: TimeDelta)
    requires Proper(d)
    ensures NumNanoseconds(d) == if FitsI64(Total(d)) then Some(Total(d)) else None
  {
  }

  lemma NumMicrosecondsExactly(d: TimeDelta)
    requires Proper(d)
    ensures var us := Quot(Total(d), NANOS_PER_MICRO);
      NumMicroseconds(d) == if FitsI64(us) then Some(us) else None
  {
  }

  /** For valid deltas milliseconds never overflow. */
  lemma NumMillisecondsExactly(d: TimeDelta)
    requires Valid(d)
    ensures NumMilliseconds(d) == Quot(Total(d), NANOS_PER_MILLI)
    ensures FitsI64(NumSeconds(d) * MILLIS_PER_SEC) && FitsI64(NumMilliseconds(d))
  {
  }

  lemma NumDaysTruncates(d: TimeDelta)
    requires Proper(d)
    ensures NumDays(d) == Quot(Total(d), 86_400 * NANOS_PER_SEC)
  {
  }

  /** Each unit's constructor is undone by its reader; only `i64::MIN` milliseconds is refused. */
  lemma UnitsRoundTrip(n: int)
    requires FitsI64(n)
    ensures NumNanoseconds(Nanoseconds(n)) == Some(n) && Valid(Nanoseconds(n))
    ensures NumMicroseconds(Microseconds(n)) == Some(n) && Valid(Microseconds(n))
    ensures TryMilliseconds(n).None? <==> n == I64_MIN
    ensures n != I64_MIN ==> Valid(TryMilliseconds(n).value) && NumMilliseconds(TryMilliseconds(n).value) == n
  {
  }

  /** The units in nanoseconds. */
  lemma UnitsInNanoseconds(n: int)
    requires FitsI64(n)
    ensures Total(Nanoseconds(n)) == n && Total(Microseconds(n)) == n * 1000
    ensures n != I64_MIN ==> Total(TryMilliseconds(n).value) == n * 1_000_000
    ensures Total(TimeDelta(n, 0)) == n * 1_000_000_000
  {
  }

  // ----- Sum and difference

  function Bounded(total: int): Option<TimeDelta> {
    if InBounds(total) then Some(OfTotal(total)) else None
  }

  /** Neither the sum of the seconds nor the carry overflows; the code checks neither. */
  predicate SumFits(a: TimeDelta, b: TimeDelta) {
    FitsI64(a.secs + b.secs) && FitsI64(a.secs + b.secs + if a.nanos + b.nanos >= NANOS_PER_SEC then 1 else 0)
  }

  predicate DifferenceFits(a: TimeDelta, b: TimeDelta) {
    FitsI64(a.secs - b.secs) && FitsI64(a.secs - b.secs - if a.nanos < b.nanos then 1 else 0)
  }

  method CheckedAdd(a: TimeDelta, b: TimeDelta) returns (r: Option<TimeDelta>)
    requires Proper(a) && Proper(b) && SumFits(a, b)
    ensures r == Bounded(Total(a) + Total(b))
  {
    var secs := a.secs + b.secs;
    var nanos := a.nanos + b.nanos;
    assert FitsI64(secs) && FitsI32(nanos);
    if nanos >= NANOS_PER_SEC {
      nanos := nanos - NANOS_PER_SEC;
      secs := secs + 1;
    }
    assert FitsI64(secs);
    NewAcceptsExactly(secs, nanos);
    r := New(secs, nanos);
  }

  method CheckedSub(a: TimeDelta, b: TimeDelta) returns (r: Option<TimeDelta>)
    requires Proper(a) && Proper(b) && DifferenceFits(a, b)
    ensures r == Bounded(Total(a) - Total(b))
  {
    var secs := a.secs - b.secs;
    var nanos := a.nanos - b.nanos;
    assert FitsI64(secs) && FitsI32(nanos);
    if nanos < 0 {
      nanos := nanos + NANOS_PER_SEC;
      secs := secs - 1;
    }
    assert FitsI64(secs);
    NewAcceptsExactly(secs, nanos);
    r := New(secs, nanos);
  }

  /** The whole seconds of the exact sum: the sum overflows precisely when they, or the seconds
      before the carry, leave `i64`. */
  lemma SumFitsExactly(a: TimeDelta, b: TimeDelta)
    requires Proper(a) && Proper(b)
    ensures SumFits(a, b) <==> FitsI64(a.secs + b.secs) && FitsI64(OfTotal(Total(a) + Total(b)).secs)
    ensures DifferenceFits(a, b) <==> FitsI64(a.secs - b.secs) && FitsI64(OfTotal(Total(a) - Total(b)).secs)
    ensures Valid(a) && Valid(b) ==> SumFits(a, b) && DifferenceFits(a, b)
  {
  }

  // ----- Sign

  function Neg(d: TimeDelta): TimeDelta {
    var (secsDiff, nanos) := if d.nanos == 0 then (0, 0) else (1, NANOS_PER_SEC - d.nanos);
    TimeDelta(-d.secs - secsDiff, nanos)
  }

  function AbsDelta(d: TimeDelta): TimeDelta {
    if d.secs < 0 && d.nanos != 0 then TimeDelta(Abs(d.secs + 1), NANOS_PER_SEC - d.nanos)
    else TimeDelta(Abs(d.secs), d.nanos)
  }

  /** No check is needed: the range is symmetric. */
  lemma SignsFlip(d: TimeDelta)
    requires Valid(d)
    ensures Valid(Neg(d)) && Total(Neg(d)) == -Total(d) && Neg(Neg(d)) == d
    ensures Valid(AbsDelta(d)) && Total(AbsDelta(d)) == Abs(Total(d))
  {
  }

  // ----- Product

  function CheckedMul(d: TimeDelta, rhs: int): Option<TimeDelta> {
    var totalNanos := d.nanos * rhs;
    var secs := d.secs * rhs + totalNanos / NANOS_PER_SEC;
    if secs <= I64_MIN || secs >= I64_MAX then None
    else Some(TimeDelta(secs, totalNanos % NANOS_PER_SEC))
  }

  /** The product is exact, or absent when its whole seconds leave the open `i64` range; the
      64-bit intermediate product cannot overflow. */
  lemma MulIsExact(d: TimeDelta, rhs: int)
    requires Proper(d) && FitsI32(rhs)
    ensures FitsI64(d.nanos * rhs)
    ensures var exact := OfTotal(Total(d) * rhs);
      CheckedMul(d, rhs) == if I64_MIN < exact.secs < I64_MAX then Some(exact) else None
  {
    var t := d.nanos * rhs;
    ProductMonotone(d.nanos, NANOS_PER_SEC, Abs(rhs));
    SizeOfProduct(d.nanos, rhs);
    SumTimes(d.secs * NANOS_PER_SEC, d.nanos, rhs);
    assert d.secs * NANOS_PER_SEC * rhs == d.secs * rhs * NANOS_PER_SEC;
  }

  /** The result is in the documented range exactly when the exact product is... */
  lemma MulInRangeExactly(d: TimeDelta, rhs: int)
    requires Proper(d) && FitsI32(rhs)
    ensures CheckedMul(d, rhs).Some? && Valid(CheckedMul(d, rhs).value) <==> InBounds(Total(d) * rhs)
  {
  }

  /** ... which the product does not check: a result can be above the maximum, and then even a
      sum of two results, which is computed without a check, can leave the `i64` range. */
  lemma MulLeavesTheRange()
    ensures CheckedMul(MAX, 2).Some? && !Valid(CheckedMul(MAX, 2).value)
    ensures CheckedMul(MAX, 999).Some? && !SumFits(CheckedMul(MAX, 999).value, CheckedMul(MAX, 999).value)
  {
  }

  // ----- Quotient

  function CheckedDiv(d: TimeDelta, rhs: int): Option<TimeDelta> {
    if rhs == 0 then None
    else
      var secs := Quot(d.secs, rhs);
      var carry := Rem(d.secs, rhs);
      var nanos := Quot(d.nanos, rhs) + Quot(carry * NANOS_PER_SEC, rhs);
      Some(if nanos < 0 then TimeDelta(secs - 1, nanos + NANOS_PER_SEC)
           else if nanos >= NANOS_PER_SEC then TimeDelta(secs + 1, nanos - NANOS_PER_SEC)
           else TimeDelta(secs, nanos))
  }

  /** The uncorrected nanoseconds stay strictly between minus and plus one second. */
  lemma DivNanosRange(d: TimeDelta, rhs: int)
    requires Proper(d) && rhs != 0
    ensures var carry := Rem(d.secs, rhs);
      && Abs(Quot(carry * NANOS_PER_SEC, rhs)) < NANOS_PER_SEC
      && -NANOS_PER_SEC < Quot(d.nanos, rhs) + Quot(carry * NANOS_PER_SEC, rhs) < NANOS_PER_SEC
  {
    var carry := Rem(d.secs, rhs);
    QuotRem(d.secs, rhs);
    var e, m := Abs(Quot(carry * NANOS_PER_SEC, rhs)), Abs(Quot(d.nanos, rhs));
    QuotIsShare(carry * NANOS_PER_SEC, rhs);
    QuotIsShare(d.nanos, rhs);
    SumTimes(e, m, Abs(rhs));
    ProductCancels(e + m, NANOS_PER_SEC, Abs(rhs));
  }

  lemma LongDivision(q: int, e: int, m: int, rhs: int)
    ensures (q * NANOS_PER_SEC + (m + e)) * rhs == q * rhs * NANOS_PER_SEC + m * rhs + e * rhs
  {
  }

  /** What is left over is the sum of the two remainders. */
  lemma DivLeftOver(d: TimeDelta, rhs: int)
    requires Proper(d) && rhs != 0
    ensures var carry := Rem(d.secs, rhs);
      Total(d) - Total(CheckedDiv(d, rhs).value) * rhs == Rem(carry * NANOS_PER_SEC, rhs) + Rem(d.nanos, rhs)
  {
    var q, carry := Quot(d.secs, rhs), Rem(d.secs, rhs);
    var e, m := Quot(carry * NANOS_PER_SEC, rhs), Quot(d.nanos, rhs);
    QuotRem(d.secs, rhs);
    QuotRem(carry * NANOS_PER_SEC, rhs);
    QuotRem(d.nanos, rhs);
    assert Total(CheckedDiv(d, rhs).value) == q * NANOS_PER_SEC + (m + e);
    LongDivision(q, e, m, rhs);
  }

  /** Division by any nonzero `i32`: the single correction suffices, upward it is never needed,
      the casts lose nothing, and the result is off by less than two divisors. */
  lemma DivIsClose(d: TimeDelta, rhs: int)
    requires Proper(d) && rhs != 0
    ensures CheckedDiv(d, rhs).Some?
    ensures var r := CheckedDiv(d, rhs).value;
      && 0 <= r.nanos < NANOS_PER_SEC
      && (r.secs == Quot(d.secs, rhs) || r.secs == Quot(d.secs, rhs) - 1) && FitsI64(r.secs)
      && Abs(Total(d) - Total(r) * rhs) <= 2 * (Abs(rhs) - 1)
  {
    DivNanosRange(d, rhs);
    DivLeftOver(d, rhs);
    QuotIsNoLarger(d.secs, rhs);
    QuotRem(Rem(d.secs, rhs) * NANOS_PER_SEC, rhs);
    QuotRem(d.nanos, rhs);
  }

  lemma QuotientInBounds(total: int, r: int, rhs: int)
    requires InBounds(total) && rhs != 0 && Abs(total - r * rhs) <= 2 * (Abs(rhs) - 1)
    ensures InBounds(r)
  {
  }

  lemma DivStaysValid(d: TimeDelta, rhs: int)
    requires Valid(d) && rhs != 0
    ensures Valid(CheckedDiv(d, rhs).value)
  {
    DivIsClose(d, rhs);
    QuotientInBounds(Total(d), Total(CheckedDiv(d, rhs).value), rhs);
  }

  /** Whole seconds and nanoseconds are truncated separately.  The result is the truncated exact
      quotient precisely when their remainders together are a remainder of the total. */
  lemma DivTruncatesExactly(d: TimeDelta, rhs: int)
    requires Proper(d) && rhs != 0
    ensures var left := Rem(Rem(d.secs, rhs) * NANOS_PER_SEC, rhs) + Rem(d.nanos, rhs);
      Total(CheckedDiv(d, rhs).value) == Quot(Total(d), rhs) <==> if d.secs < 0 then left <= 0 else left < Abs(rhs)
  {
    var r, carry := Total(CheckedDiv(d, rhs).value), Rem(d.secs, rhs);
    var left := Rem(carry * NANOS_PER_SEC, rhs) + Rem(d.nanos, rhs);
    DivLeftOver(d, rhs);
    QuotRem(d.secs, rhs);
    QuotRem(carry * NANOS_PER_SEC, rhs);
    QuotRem(d.nanos, rhs);
    QuotRem(Total(d), rhs);
    if if d.secs < 0 then left <= 0 else left < Abs(rhs) {
      if Total(d) == 0 {
        assert d.secs == 0 && d.nanos == 0 && carry == 0;
      }
      QuotIsUnique(Total(d), rhs, r, left);
    }
  }

  /** One second and two nanoseconds, divided by three, are one nanosecond short. */
  lemma DivMayBeOneShort()
    ensures CheckedDiv(TimeDelta(1, 2), 3) == Some(TimeDelta(0, 333_333_333))
    ensures Quot(Total(TimeDelta(1, 2)), 3) == 333_333_334
  {
  }

  /** A product divided by its factor is the original, if the product is negative or its
      nanoseconds are a multiple of the factor, and never otherwise. */
  lemma MulThenDivExactly(d: TimeDelta, k: int)
    requires Proper(d) && FitsI32(k) && k != 0 && CheckedMul(d, k).Some?
    ensures var p := CheckedMul(d, k).value;
      CheckedDiv(p, k) == Some(d) <==> p.secs < 0 || p.nanos % Abs(k) == 0
  {
    var p := CheckedMul(d, k).value;
    MulIsExact(d, k);
    DivLeftOver(p, k);
    DivIsClose(p, k);
    var r := CheckedDiv(p, k).value;
    LeftOverOfProduct(p, k, Total(d), Total(r));
    assert d == r <==> Total(d) == Total(r);
  }

  lemma LeftOverOfProduct(p: TimeDelta, k: int, t: int, r: int)
    requires Proper(p) && k != 0
    requires t * k - r * k == Rem(Rem(p.secs, k) * NANOS_PER_SEC, k) + Rem(p.nanos, k)
    ensures t == r <==> p.secs < 0 || p.nanos % Abs(k) == 0
  {
    QuotRem(p.secs, k);
    QuotRem(Rem(p.secs, k) * NANOS_PER_SEC, k);
    QuotRem(p.nanos, k);
    EqualProducts(t, r, k);
    SumTimes(t - r, r, k);
    SizeOfProduct(t - r, k);
  }

  /** Three times 0.333333334 s is 1.000000002 s, and a third of that is one nanosecond short. */
  lemma MulThenDivMayBeOneShort()
    ensures CheckedMul(TimeDelta(0, 333_333_334), 3) == Some(TimeDelta(1, 2))
    ensures CheckedDiv(TimeDelta(1, 2), 3) == Some(TimeDelta(0, 333_333_333))
  {
  }

  /** Only a divisor of zero has no quotient. */
  lemma DivIsAbsentExactly(d: TimeDelta, rhs: int)
    ensures CheckedDiv(d, rhs) == None <==> rhs == 0
  {
  }
}
