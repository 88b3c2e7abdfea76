/** Rounding instants to multiples of a duration. */
module Rounding {
  import opened Wrappers
  import opened RustInt
  import opened TimeDeltas

  datatype RoundingError = DurationExceedsTimestamp | DurationExceedsLimit | TimestampExceedsLimit

  type Outcome = Result<int, RoundingError>

  // ----- The three operations: `naive` is the local time and `original` the instant that is
  // moved, both in nanoseconds.  They differ by the offset of the time zone.

  /** `timestamp_nanos_opt`: whole seconds and the nanosecond within the second, put together so
      that nothing underflows before 1970. */
  function TimestampNanos(naive: int): Option<int> {
    var (timestamp, subsec) := (naive / NANOS_PER_SEC, naive % NANOS_PER_SEC);
    var (secs, nanos) := if timestamp < 0 then (timestamp + 1, subsec - NANOS_PER_SEC) else (timestamp, subsec);
    match CheckedI64(secs * NANOS_PER_SEC)
    case None => None
    case Some(part) => CheckedI64(part + nanos)
  }

  lemma TimestampNanosExactly(naive: int)
    ensures TimestampNanos(naive) == if FitsI64(naive) then Some(naive) else None
  {
  }

  function DurationRound(naive: int, original: int, duration: TimeDelta): Outcome {
    match NumNanoseconds(duration)
    case None => Err(DurationExceedsLimit)
    case Some(span) =>
      if span <= 0 then Err(DurationExceedsLimit)
      else
        match TimestampNanos(naive)
        case None => Err(TimestampExceedsLimit)
        case Some(stamp) =>
          var deltaDown := Rem(stamp, span);
          if deltaDown == 0 then Ok(original)
          else
            var (up, down) := if deltaDown < 0 then (Abs(deltaDown), span - Abs(deltaDown))
                              else (span - deltaDown, deltaDown);
            if up <= down then Ok(original + up) else Ok(original - down)
  }

  function DurationTrunc(naive: int, original: int, duration: TimeDelta): Outcome {
    match NumNanoseconds(duration)
    case None => Err(DurationExceedsLimit)
    case Some(span) =>
      if span <= 0 then Err(DurationExceedsLimit)
      else
        match TimestampNanos(naive)
        case None => Err(TimestampExceedsLimit)
        case Some(stamp) =>
          var deltaDown := Rem(stamp, span);
          if deltaDown == 0 then Ok(original)
          else if deltaDown > 0 then Ok(original - deltaDown)
          else Ok(original - (span - Abs(deltaDown)))
  }

  function DurationRoundUp(naive: int, original: int, duration: TimeDelta): Outcome {
    match NumNanoseconds(duration)
    case None => Err(DurationExceedsLimit)
    case Some(span) =>
      if span <= 0 then Err(DurationExceedsLimit)
      else
        match TimestampNanos(naive)
        case None => Err(TimestampExceedsLimit)
        case Some(stamp) =>
          var deltaDown := Rem(stamp, span);
          if deltaDown == 0 then Ok(original)
          else if deltaDown > 0 then Ok(original + (span - deltaDown))
          else Ok(original + Abs(deltaDown))
  }

  // ----- What they mean

  ghost predicate IsMultiple(x: int, span: int) {
    span != 0 && exists k: int :: Times(k, span) == x
  }

  function Times(k: int, span: int): int {
    k * span
  }

  /** The greatest multiple of `span` that is not above `x`. */
  ghost predicate IsFloor(f: int, x: int, span: int) {
    IsMultiple(f, span) && f <= x < f + span
  }

  /** The least multiple that is not below `x`. */
  ghost predicate IsCeiling(c: int, x: int, span: int) {
    IsMultiple(c, span) && c - span < x <= c
  }

  /** The nearest multiple; of two equally near ones the upper. */
  ghost predicate IsNearest(m: int, x: int, span: int) {
    IsMultiple(m, span) && 2 * m - span <= 2 * x < 2 * m + span
  }

  /** All three conditions determine the multiple. */
  lemma MultipleIsUnique(a: int, b: int, span: int)
    requires span > 0 && IsMultiple(a, span) && IsMultiple(b, span) && Abs(a - b) < span
    ensures a == b
  {
    var i :| Times(i, span) == a;
    var j :| Times(j, span) == b;
    SumTimes(i - j, j, span);
    SizeOfProduct(i - j, span);
  }

  lemma RemSplits(stamp: int, span: int)
    requires span > 0
    ensures IsMultiple(stamp - Rem(stamp, span), span)
    ensures IsMultiple(stamp - Rem(stamp, span) - span, span) && IsMultiple(stamp - Rem(stamp, span) + span, span)
    ensures -span < Rem(stamp, span) < span
  {
    QuotRem(stamp, span);
    var q := Quot(stamp, span);
    assert Times(q, span) == stamp - Rem(stamp, span);
    SumTimes(q, -1, span);
    SumTimes(q, 1, span);
    assert Times(q - 1, span) == stamp - Rem(stamp, span) - span;
    assert Times(q + 1, span) == stamp - Rem(stamp, span) + span;
  }

  /** When an operation is possible at all. */
  predicate Roundable(naive: int, duration: TimeDelta) {
    0 < Total(duration) <= I64_MAX && FitsI64(naive)
  }

  function Refusal(duration: TimeDelta): RoundingError {
    if 0 < Total(duration) <= I64_MAX then TimestampExceedsLimit else DurationExceedsLimit
  }

  /** The local time of the result. */
  function LocalOf(naive: int, original: int, r: Outcome): int
    requires r.Ok?
  {
    naive + (r.value - original)
  }

  lemma TruncIsFloor(naive: int, original: int, duration: TimeDelta)
    requires Proper(duration)
    ensures var r := DurationTrunc(naive, original, duration);
      if Roundable(naive, duration) then r.Ok? && IsFloor(LocalOf(naive, original, r), naive, Total(duration))
      else r == Err(Refusal(duration))
  {
    NumNanosecondsExactly(duration);
    TimestampNanosExactly(naive);
    if Roundable(naive, duration) {
      RemSplits(naive, Total(duration));
    }
  }

  lemma RoundUpIsCeiling(naive: int, original: int, duration: TimeDelta)
    requires Proper(duration)
    ensures var r := DurationRoundUp(naive, original, duration);
      if Roundable(naive, duration) then r.Ok? && IsCeiling(LocalOf(naive, original, r), naive, Total(duration))
      else r == Err(Refusal(duration))
  {
    NumNanosecondsExactly(duration);
    TimestampNanosExactly(naive);
    if Roundable(naive, duration) {
      RemSplits(naive, Total(duration));
    }
  }

  lemma RoundIsNearest(naive: int, original: int, duration: TimeDelta)
    requires Proper(duration)
    ensures var r := DurationRound(naive, original, duration);
      if Roundable(naive, duration) then r.Ok? && IsNearest(LocalOf(naive, original, r), naive, Total(duration))
      else r == Err(Refusal(duration))
  {
    NumNanosecondsExactly(duration);
    TimestampNanosExactly(naive);
    if Roundable(naive, duration) {
      RemSplits(naive, Total(duration));
    }
  }

  // ----- Consequences

  datatype Operation = Trunc | Round | RoundUp

  function Apply(op: Operation, naive: int, original: int, duration: TimeDelta): Outcome {
    match op
    case Trunc => DurationTrunc(naive, original, duration)
    case Round => DurationRound(naive, original, duration)
    case RoundUp => DurationRoundUp(naive, original, duration)
  }

  ghost predicate Meets(op: Operation, m: int, x: int, span: int) {
    match op
    case Trunc => IsFloor(m, x, span)
    case Round => IsNearest(m, x, span)
    case RoundUp => IsCeiling(m, x, span)
  }

  lemma ApplyMeets(op: Operation, naive: int, original: int, duration: TimeDelta)
    requires Proper(duration)
    ensures var r := Apply(op, naive, original, duration);
      if Roundable(naive, duration) then r.Ok? && Meets(op, LocalOf(naive, original, r), naive, Total(duration))
      else r == Err(Refusal(duration))
  {
    match op
    case Trunc => TruncIsFloor(naive, original, duration);
    case Round => RoundIsNearest(naive, original, duration);
    case RoundUp => RoundUpIsCeiling(naive, original, duration);
  }

  /** The conditions leave no choice. */
  lemma MeetsIsUnique(op: Operation, a: int, b: int, x: int, span: int)
    requires span > 0 && Meets(op, a, x, span) && Meets(op, b, x, span)
    ensures a == b
  {
    MultipleIsUnique(a, b, span);
  }

  /** Later times do not round to earlier ones. */
  lemma RoundingIsMonotone(op: Operation, naive: int, later: int, original: int, original': int, duration: TimeDelta)
    requires Proper(duration) && Roundable(naive, duration) && Roundable(later, duration) && naive <= later
    ensures LocalOf(naive, original, Apply(op, naive, original, duration))
         <= LocalOf(later, original', Apply(op, later, original', duration))
  {
    ApplyMeets(op, naive, original, duration);
    ApplyMeets(op, later, original', duration);
    var a := LocalOf(naive, original, Apply(op, naive, original, duration));
    var b := LocalOf(later, original', Apply(op, later, original', duration));
    if a > b {
      MultipleIsUnique(a, b, Total(duration));
      assert false;
    }
  }

  /** The result is never further away than a span, and the three are ordered. */
  lemma RoundingIsBracketed(naive: int, original: int, duration: TimeDelta)
    requires Proper(duration) && Roundable(naive, duration)
    ensures var (t, r, u) := (DurationTrunc(naive, original, duration), DurationRound(naive, original, duration),
                              DurationRoundUp(naive, original, duration));
      && t.Ok? && r.Ok? && u.Ok? && t.value <= r.value <= u.value
      && (r.value == t.value || r.value == u.value)
      && (t.value == u.value || u.value == t.value + Total(duration))
  {
  }

  /** The first and the last multiple of a span that fit `i64`. */
  function FirstMultiple(span: int): int
    requires span > 0
  {
    I64_MIN - Rem(I64_MIN, span)
  }

  function LastMultiple(span: int): int
    requires span > 0
  {
    I64_MAX - Rem(I64_MAX, span)
  }

  /** Whether the rounded time will fit, told from the time itself. */
  predicate RoundsToFit(op: Operation, naive: int, span: int)
    requires span > 0
  {
    match op
    case Trunc => FirstMultiple(span) <= naive
    case Round => 2 * FirstMultiple(span) - span <= 2 * naive < 2 * LastMultiple(span) + span
    case RoundUp => naive <= LastMultiple(span)
  }

  /** Multiples are at least a span apart. */
  lemma MultiplesAreApart(a: int, b: int, span: int)
    requires span > 0 && IsMultiple(a, span) && IsMultiple(b, span) && a < b
    ensures a + span <= b
  {
    if b - a < span {
      MultipleIsUnique(a, b, span);
    }
  }

  lemma RoundedFitsExactly(op: Operation, m: int, naive: int, span: int)
    requires span > 0 && FitsI64(naive) && Meets(op, m, naive, span)
    ensures FitsI64(m) <==> RoundsToFit(op, naive, span)
  {
    var first, last := FirstMultiple(span), LastMultiple(span);
    RemSplits(I64_MIN, span);
    RemSplits(I64_MAX, span);
    QuotRem(I64_MIN, span);
    QuotRem(I64_MAX, span);
    if m < first {
      MultiplesAreApart(m, first, span);
    } else if m > last {
      MultiplesAreApart(last, m, span);
    }
  }

  /** Rounding again changes nothing, precisely when the time is not so close to an end of the
      `i64` range that it rounds out of it; then the second rounding is refused. */
  lemma RoundingTwice(op: Operation, naive: int, original: int, duration: TimeDelta)
    requires Proper(duration) && Roundable(naive, duration)
    ensures var once := Apply(op, naive, original, duration);
      Apply(op, LocalOf(naive, original, once), once.value, duration) ==
        if RoundsToFit(op, naive, Total(duration)) then once else Err(TimestampExceedsLimit)
  {
    var once := Apply(op, naive, original, duration);
    ApplyMeets(op, naive, original, duration);
    var local := LocalOf(naive, original, once);
    RoundedFitsExactly(op, local, naive, Total(duration));
    ApplyMeets(op, local, once.value, duration);
    if FitsI64(local) {
      var twice := Apply(op, local, once.value, duration);
      assert Meets(op, local, local, Total(duration));
      MeetsIsUnique(op, LocalOf(local, once.value, twice), local, local, Total(duration));
    }
  }

  /** The rounded time can leave that range. */
  lemma RoundedTimeMayNotFit()
    ensures DurationTrunc(I64_MIN, I64_MIN, TimeDelta(1, 0)) == Ok(-9_223_372_037_000_000_000)
    ensures !FitsI64(-9_223_372_037_000_000_000)
  {
  }

  // ----- Fractions of a second

  function SpanForDigits(digits: nat): nat {
    match digits
    case 0 => 1_000_000_000
    case 1 => 100_000_000
    case 2 => 10_000_000
    case 3 => 1_000_000
    case 4 => 100_000
    case 5 => 10_000
    case 6 => 1_000
    case 7 => 100
    case 8 => 10
    case _ => 1
  }

  /** The span of the last digit that stays: ten to the number of digits dropped from nine. */
  function DigitSpan(digits: nat): nat {
    if digits <= 9 then Pow10(9 - digits) else Pow10(0)
  }

  lemma SpanIsPowerOfTen(digits: nat)
    ensures SpanForDigits(digits) == DigitSpan(digits)
  {
    assert Pow10(3) == 1_000 && Pow10(6) == 1_000_000 && Pow10(9) == 1_000_000_000;
  }

  /** The nanosecond within the second, which counts upward before 1970 too. */
  function Nanosecond(stamp: int): nat {
    stamp % NANOS_PER_SEC
  }

  function RoundSubsecs(stamp: int, digits: nat): int {
    var span := SpanForDigits(digits);
    var deltaDown := Nanosecond(stamp) % span;
    if deltaDown > 0 then
      var deltaUp := span - deltaDown;
      if deltaUp <= deltaDown then stamp + deltaUp else stamp - deltaDown
    else stamp
  }

  function TruncSubsecs(stamp: int, digits: nat): int {
    var span := SpanForDigits(digits);
    var deltaDown := Nanosecond(stamp) % span;
    if deltaDown > 0 then stamp - deltaDown else stamp
  }

  /** Looking at the nanosecond alone finds the multiples of the whole stamp. */
  lemma NanosecondSplits(stamp: int, digits: nat)
    ensures var span := SpanForDigits(digits);
      && var low := stamp - Nanosecond(stamp) % span;
      && IsMultiple(low, span) && IsMultiple(low + span, span)
  {
    var span := SpanForDigits(digits);
    var n := Nanosecond(stamp);
    var perSec := NANOS_PER_SEC / span;
    assert perSec * span == NANOS_PER_SEC;
    var whole := stamp / NANOS_PER_SEC;
    assert stamp == whole * NANOS_PER_SEC + n && n == n / span * span + n % span;
    assert whole * (perSec * span) == whole * perSec * span;
    SumTimes(whole * perSec, n / span, span);
    assert Times(whole * perSec + n / span, span) == stamp - n % span;
    SumTimes(whole * perSec + n / span, 1, span);
    assert Times(whole * perSec + n / span + 1, span) == stamp - n % span + span;
  }

  lemma SubsecsMeanTheSame(stamp: int, digits: nat)
    ensures IsFloor(TruncSubsecs(stamp, digits), stamp, DigitSpan(digits))
    ensures IsNearest(RoundSubsecs(stamp, digits), stamp, DigitSpan(digits))
  {
    SpanIsPowerOfTen(digits);
    NanosecondSplits(stamp, digits);
  }

  /** Rounding to digits is rounding to the duration of the last digit; so halfway values go up
      also before 1970, which is toward zero there. */
  lemma SubsecsAgreeWithDuration(stamp: int, digits: nat)
    requires FitsI64(stamp)
    ensures var d := Nanoseconds(DigitSpan(digits));
      && DurationRound(stamp, stamp, d) == Ok(RoundSubsecs(stamp, digits))
      && DurationTrunc(stamp, stamp, d) == Ok(TruncSubsecs(stamp, digits))
  {
    var span := SpanForDigits(digits);
    var d := Nanoseconds(span);
    SpanIsPowerOfTen(digits);
    assert Total(d) == span;
    SubsecsMeanTheSame(stamp, digits);
    RoundIsNearest(stamp, stamp, d);
    TruncIsFloor(stamp, stamp, d);
    MultipleIsUnique(RoundSubsecs(stamp, digits), DurationRound(stamp, stamp, d).value, span);
    MultipleIsUnique(TruncSubsecs(stamp, digits), DurationTrunc(stamp, stamp, d).value, span);
  }
}
