/** Days since the year one of the proleptic Gregorian calendar. */
module DaysFromCe {
  import opened RustInt

  // ----- Counting year by year

  predicate IsLeapYear(year: int) {
    year % 4 == 0 && (year % 100 != 0 || year % 400 == 0)
  }

  function YearLength(year: int): nat {
    if IsLeapYear(year) then 366 else 365
  }

  /** The days between January 1 of year 1 and January 1 of `year`; negative before year 1. */
  function DaysBefore(year: int): int
    decreases Abs(year - 1)
  {
    if year > 1 then DaysBefore(year - 1) + YearLength(year - 1)
    else if year < 1 then DaysBefore(year + 1) - YearLength(year)
    else 0
  }

  /** The closed form, with quotients rounded down. */
  function Formula(year: int): int {
    var y := year - 1;
    365 * y + y / 4 - y / 100 + y / 400
  }

  lemma FormulaStep(year: int)
    ensures Formula(year + 1) == Formula(year) + YearLength(year)
  {
    QuotientStep(year, 4);
    QuotientStep(year, 100);
    QuotientStep(year, 400);
    LeapYearRule(year);
  }

  /** Every fourth year, but not every hundredth, but every four hundredth. */
  lemma LeapYearRule(year: int)
    ensures YearLength(year) == 365 + Bit(year % 4 == 0) - Bit(year % 100 == 0) + Bit(year % 400 == 0)
  {
  }

  function Bit(b: bool): nat {
    if b then 1 else 0
  }

  lemma QuotientStep(year: int, k: int)
    requires k == 4 || k == 100 || k == 400
    ensures year / k == (year - 1) / k + Bit(year % k == 0)
  {
  }

  lemma {:induction false} FormulaCountsYears(year: int)
    ensures DaysBefore(year) == Formula(year)
    decreases Abs(year - 1)
  {
    if year > 1 {
      FormulaCountsYears(year - 1);
      FormulaStep(year - 1);
    } else if year < 1 {
      FormulaCountsYears(year + 1);
      FormulaStep(year);
    }
  }

  // ----- The fast count

  // The years the packed date can hold, one more on each side than a `NaiveDate` promises.
  const MIN_YEAR := -262_144
  const MAX_YEAR := 262_143

  predicate IsDate(year: int, ordinal: int) {
    MIN_YEAR <= year <= MAX_YEAR && 1 <= ordinal <= YearLength(year)
  }

  /** `>> 2` of a signed number rounds down. */
  function ShiftRight2(x: int): int {
    x / 4
  }

  /** Whole cycles of 400 years move a negative year up first; then shifts do the rest. */
  method NumDaysFromCe(year: int, ordinal: int) returns (ndays: int)
    requires IsDate(year, ordinal)
    ensures ndays == DaysBefore(year) + ordinal
    ensures FitsI32(ndays)
  {
    FormulaCountsYears(year);
    var y := year - 1;
    ndays := 0;
    if y < 0 {
      var excess := 1 + Quot(-y, 400);
      assert FitsI32(excess * 400) && FitsI32(excess * 146_097);
      y := y + excess * 400;
      ndays := ndays - excess * 146_097;
      ShiftedFormula(year, excess);
    }
    assert 0 <= y <= MAX_YEAR && FitsI32(y * 1461);
    var div100 := Quot(y, 100);
    Shifts(y);
    ndays := ndays + (ShiftRight2(y * 1461) - div100 + ShiftRight2(div100));
    assert FitsI32(ndays);
    ndays := ndays + ordinal;
  }

  /** 400 years have 146097 days. */
  lemma ShiftedFormula(year: int, excess: nat)
    ensures Formula(year + 400 * excess) == Formula(year) + 146_097 * excess
  {
    var y := year - 1;
    assert (y + 400 * excess) / 4 == y / 4 + 100 * excess;
    assert (y + 400 * excess) / 100 == y / 100 + 4 * excess;
    assert (y + 400 * excess) / 400 == y / 400 + excess;
  }

  lemma Shifts(y: nat)
    ensures ShiftRight2(y * 1461) - Quot(y, 100) + ShiftRight2(Quot(y, 100)) == Formula(y + 1)
  {
  }

  // ----- The count orders the dates

  /** The next date counts one more. */
  lemma NextDayIsOneMore(year: int, ordinal: int)
    requires IsDate(year, ordinal)
    ensures var (y', o') := if ordinal < YearLength(year) then (year, ordinal + 1) else (year + 1, 1);
      DaysBefore(y') + o' == DaysBefore(year) + ordinal + 1
  {
  }

  lemma {:induction false} LaterYearsCountMore(a: int, b: int)
    requires a < b
    ensures DaysBefore(a) + YearLength(a) <= DaysBefore(b)
    decreases b - a
  {
    FormulaCountsYears(b - 1);
    FormulaCountsYears(b);
    FormulaStep(b - 1);
    if a < b - 1 {
      LaterYearsCountMore(a, b - 1);
    }
  }

  /** Earlier dates have smaller counts, so no two dates share one. */
  lemma CountsFollowTheCalendar(y1: int, o1: int, y2: int, o2: int)
    requires IsDate(y1, o1) && IsDate(y2, o2)
    ensures DaysBefore(y1) + o1 < DaysBefore(y2) + o2 <==> y1 < y2 || (y1 == y2 && o1 < o2)
  {
    if y1 < y2 {
      LaterYearsCountMore(y1, y2);
    } else if y2 < y1 {
      LaterYearsCountMore(y2, y1);
    }
  }

  /** The documented counts of January 1 in the years one, two, zero and 1970. */
  lemma DocumentedDates()
    ensures DaysBefore(1) + 1 == 1 && DaysBefore(2) + 1 == 366 && DaysBefore(0) + 1 == -365
    ensures DaysBefore(1970) + 1 == 719_163
  {
    FormulaCountsYears(1970);
  }
}
