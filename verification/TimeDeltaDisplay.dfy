/** Printing a duration, and what the printed text denotes. */
module TimeDeltaDisplay {
  import opened Wrappers
  import opened RustInt
  import opened Texts
  import opened TimeDeltas

  // ----- The formatter

  /** The format `0w$`: zeros in front, up to the given width. */
  function ZeroPadded(n: nat, width: nat): string
    decreases width
  {
    if |Decimal(n)| >= width then Decimal(n) else "0" + ZeroPadded(n, width - 1)
  }

  /** Drops trailing zeros of a fraction with `figures` digits. */
  function Strip(fraction: nat, figures: nat): (nat, nat) {
    if figures > 0 && fraction % 10 == 0 then Strip(fraction / 10, figures - 1) else (fraction, figures)
  }

  function Fraction(nanos: nat): string {
    if nanos == 0 then ""
    else
      var (digits, figures) := Strip(nanos, 9);
      "." + ZeroPadded(digits, figures)
  }

  function PrintMagnitude(secs: nat, nanos: nat): string {
    if secs == 0 && nanos == 0 then "P0D" else "PT" + (Decimal(secs) + Fraction(nanos)) + "S"
  }

  function Printed(d: TimeDelta): string
    requires Proper(d)
  {
    if d.secs < 0 then "-" + PrintMagnitude(Neg(d).secs, Neg(d).nanos) else PrintMagnitude(d.secs, d.nanos)
  }

  lemma BillionIsPow10()
    ensures Pow10(9) == NANOS_PER_SEC
  {
  }

  /** The loop of `Display::fmt` that counts the significant digits. */
  method SignificantDigits(nanos: nat) returns (digits: nat, figures: nat)
    requires 0 < nanos < NANOS_PER_SEC
    ensures Strip(nanos, 9) == (digits, figures)
  {
    BillionIsPow10();
    figures := 9;
    digits := nanos;
    while digits % 10 == 0
      invariant 0 < digits < Pow10(figures)
      invariant Strip(nanos, 9) == Strip(digits, figures)
      decreases digits
    {
      digits := digits / 10;
      figures := figures - 1;
    }
  }

  /** `Display::fmt`. */
  method Display(d: TimeDelta) returns (s: string)
    requires Proper(d)
    ensures s == Printed(d)
  {
    var abs, sign := d, "";
    if d.secs < 0 {
      abs, sign := Neg(d), "-";
      assert FitsI64(-d.secs) && FitsI64(abs.secs);
    }
    if abs.secs == 0 && abs.nanos == 0 {
      return sign + "P" + "0D";
    }
    var text := Decimal(abs.secs);
    if abs.nanos > 0 {
      var digits, figures := SignificantDigits(abs.nanos);
      text := text + ("." + ZeroPadded(digits, figures));
    } else {
      assert text + "" == text;
    }
    assert text == Decimal(abs.secs) + Fraction(abs.nanos);
    s := sign + ("PT" + text + "S");
    assert "" + s == s;
  }

  // ----- What a text denotes

  /** How far a reader of durations has come. */
  datatype Reader =
    | Start(negative: bool)
    | Designator(negative: bool)                                            // after P
    | ZeroDays(negative: bool)                                              // after P0
    | Whole(negative: bool, secs: nat, digits: nat)                         // after PT
    | Part(negative: bool, secs: nat, nanos: nat, digits: nat)              // after the point
    | Done(total: int)
    | Bad

  function Signed(negative: bool, n: nat): int {
    var total: int := n;
    if negative then -total else total
  }

  function ReadChar(st: Reader, c: char): Reader {
    match st
    case Start(negative) =>
      if c == '-' && !negative then Start(true) else if c == 'P' then Designator(negative) else Bad
    case Designator(negative) =>
      if c == '0' then ZeroDays(negative) else if c == 'T' then Whole(negative, 0, 0) else Bad
    case ZeroDays(negative) => if c == 'D' then Done(0) else Bad
    case Whole(negative, secs, digits) =>
      if IsDigit(c) then Whole(negative, secs * 10 + DigitValue(c), digits + 1)
      else if c == '.' && digits > 0 then Part(negative, secs, 0, 0)
      else if c == 'S' && digits > 0 then Done(Signed(negative, secs * NANOS_PER_SEC))
      else Bad
    case Part(negative, secs, nanos, digits) =>
      if IsDigit(c) && digits < 9 then Part(negative, secs, nanos * 10 + DigitValue(c), digits + 1)
      else if c == 'S' && 0 < digits <= 9 then Done(Signed(negative, secs * NANOS_PER_SEC + nanos * Pow10(9 - digits)))
      else Bad
    case _ => Bad
  }

  function Read(st: Reader, s: string): Reader
    decreases |s|
  {
    if s == "" then st else Read(ReadChar(st, s[0]), s[1..])
  }

  /** The duration format with designators of section 4.4.3.2 of ISO 8601:2004, with a sign: the
      nanoseconds a text denotes, if it is one. */
  function Denote(s: string): Option<int> {
    match Read(Start(false), s)
    case Done(total) => Some(total)
    case _ => None
  }

  lemma {:induction false} ReadAppend(st: Reader, a: string, b: string)
    ensures Read(st, a + b) == Read(Read(st, a), b)
    decreases |a|
  {
    if a == "" {
      assert a + b == b;
    } else {
      assert (a + b)[1..] == a[1..] + b;
      ReadAppend(ReadChar(st, a[0]), a[1..], b);
    }
  }

  lemma ReadOne(st: Reader, c: char)
    ensures Read(st, [c]) == ReadChar(st, c)
  {
  }

  // ----- Numerals

  lemma {:induction false} LengthOfDecimal(n: nat, width: nat)
    requires n < Pow10(width) && width > 0
    ensures |Decimal(n)| <= width
    decreases width
  {
    if n >= 10 {
      LengthOfDecimal(n / 10, width - 1);
    }
  }

  lemma DigitValueOfDigit(n: nat)
    requires n < 10
    ensures IsDigit(Digit(n)) && DigitValue(Digit(n)) == n
  {
  }

  lemma {:induction false} WholeIsRead(negative: bool, n: nat)
    ensures Read(Whole(negative, 0, 0), Decimal(n)) == Whole(negative, n, |Decimal(n)|)
    decreases n
  {
    if n < 10 {
      ReadOne(Whole(negative, 0, 0), Digit(n));
    } else {
      WholeIsRead(negative, n / 10);
      ReadAppend(Whole(negative, 0, 0), Decimal(n / 10), [Digit(n % 10)]);
      ReadOne(Whole(negative, n / 10, |Decimal(n / 10)|), Digit(n % 10));
      DigitValueOfDigit(n % 10);
    }
  }

  lemma {:induction false} PartIsRead(negative: bool, secs: nat, n: nat, zeros: nat)
    requires zeros + |Decimal(n)| <= 9
    ensures Read(Part(negative, secs, 0, zeros), Decimal(n)) == Part(negative, secs, n, zeros + |Decimal(n)|)
    decreases n
  {
    var st := Part(negative, secs, 0, zeros);
    if n < 10 {
      ReadOne(st, Digit(n));
    } else {
      PartIsRead(negative, secs, n / 10, zeros);
      ReadAppend(st, Decimal(n / 10), [Digit(n % 10)]);
      ReadOne(Part(negative, secs, n / 10, zeros + |Decimal(n / 10)|), Digit(n % 10));
    }
  }

  lemma {:induction false} PaddedIsRead(negative: bool, secs: nat, n: nat, width: nat, zeros: nat)
    requires |Decimal(n)| <= width && zeros + width <= 9
    ensures Read(Part(negative, secs, 0, zeros), ZeroPadded(n, width)) == Part(negative, secs, n, zeros + width)
    decreases width
  {
    if |Decimal(n)| == width {
      PartIsRead(negative, secs, n, zeros);
    } else {
      var later := ZeroPadded(n, width - 1);
      PaddedIsRead(negative, secs, n, width - 1, zeros + 1);
      assert ("0" + later)[1..] == later;
      assert ReadChar(Part(negative, secs, 0, zeros), '0') == Part(negative, secs, 0, zeros + 1);
    }
  }

  lemma {:induction false} PaddedEnds(n: nat, width: nat)
    ensures var s := ZeroPadded(n, width); s != "" && s[|s| - 1] == Digit(n % 10)
    decreases width
  {
    if |Decimal(n)| < width {
      PaddedEnds(n, width - 1);
    }
  }

  lemma {:induction false} StripKeepsTheFraction(fraction: nat, figures: nat)
    requires 0 < fraction < Pow10(figures)
    ensures var (digits, left) := Strip(fraction, figures);
      && 0 < left <= figures && 0 < digits < Pow10(left)
      && digits % 10 != 0 && digits * Pow10(figures - left) == fraction
    decreases figures
  {
    if fraction % 10 == 0 {
      StripKeepsTheFraction(fraction / 10, figures - 1);
      var (digits, left) := Strip(fraction, figures);
      assert Pow10(figures - left) == 10 * Pow10(figures - 1 - left);
      assert digits * (10 * Pow10(figures - 1 - left)) == 10 * (digits * Pow10(figures - 1 - left));
    } else {
      assert Pow10(0) == 1;
    }
  }

  // ----- The printed text denotes the delta

  lemma DigitsAndEndAreRead(negative: bool, secs: nat, part: nat, figures: nat)
    requires 0 < figures <= 9 && |Decimal(part)| <= figures
    ensures Read(Part(negative, secs, 0, 0), ZeroPadded(part, figures) + "S")
         == Done(Signed(negative, secs * NANOS_PER_SEC + part * Pow10(9 - figures)))
  {
    PaddedIsRead(negative, secs, part, figures, 0);
    ReadOne(Part(negative, secs, part, figures), 'S');
    ReadAppend(Part(negative, secs, 0, 0), ZeroPadded(part, figures), "S");
  }

  lemma PartAndEndAreRead(negative: bool, secs: nat, digits: nat, part: nat, figures: nat)
    requires digits > 0 && 0 < figures <= 9 && |Decimal(part)| <= figures
    ensures var f := "." + ZeroPadded(part, figures);
      && |f| > 1 && f[|f| - 1] == Digit(part % 10)
      && Read(Whole(negative, secs, digits), f + "S")
         == Done(Signed(negative, secs * NANOS_PER_SEC + part * Pow10(9 - figures)))
  {
    var padded := ZeroPadded(part, figures);
    PaddedEnds(part, figures);
    DigitsAndEndAreRead(negative, secs, part, figures);
    assert ("." + padded + "S")[1..] == padded + "S";
    assert ReadChar(Whole(negative, secs, digits), '.') == Part(negative, secs, 0, 0);
  }

  lemma StrippedFraction(nanos: nat) returns (part: nat, figures: nat)
    requires 0 < nanos < NANOS_PER_SEC
    ensures Fraction(nanos) == "." + ZeroPadded(part, figures)
    ensures 0 < figures <= 9 && |Decimal(part)| <= figures
    ensures part % 10 != 0 && part * Pow10(9 - figures) == nanos
  {
    BillionIsPow10();
    StripKeepsTheFraction(nanos, 9);
    part, figures := Strip(nanos, 9).0, Strip(nanos, 9).1;
    LengthOfDecimal(part, figures);
  }

  /** A fraction that is not zero: read to its nanoseconds, and without a zero at the end. */
  lemma FractionIsRead(negative: bool, secs: nat, digits: nat, nanos: nat)
    requires digits > 0 && 0 < nanos < NANOS_PER_SEC
    ensures var f := Fraction(nanos);
      && |f| > 1 && f[|f| - 1] != '0' && IsDigit(f[|f| - 1])
      && Read(Whole(negative, secs, digits), f + "S") == Done(Signed(negative, secs * NANOS_PER_SEC + nanos))
  {
    var part, figures := StrippedFraction(nanos);
    PartAndEndAreRead(negative, secs, digits, part, figures);
  }

  lemma SecondsAreRead(negative: bool, secs: nat, nanos: nat)
    requires nanos < NANOS_PER_SEC
    ensures Read(Whole(negative, 0, 0), Decimal(secs) + (Fraction(nanos) + "S"))
         == Done(Signed(negative, secs * NANOS_PER_SEC + nanos))
  {
    WholeIsRead(negative, secs);
    ReadAppend(Whole(negative, 0, 0), Decimal(secs), Fraction(nanos) + "S");
    if nanos == 0 {
      ReadOne(Whole(negative, secs, |Decimal(secs)|), 'S');
      assert "" + "S" == "S";
    } else {
      FractionIsRead(negative, secs, |Decimal(secs)|, nanos);
    }
  }

  lemma MagnitudeIsRead(negative: bool, secs: nat, nanos: nat)
    requires nanos < NANOS_PER_SEC
    ensures Read(Start(negative), PrintMagnitude(secs, nanos)) == Done(Signed(negative, secs * NANOS_PER_SEC + nanos))
  {
    if secs == 0 && nanos == 0 {
      assert "P0D"[1..] == "0D" && "0D"[1..] == "D" && "D"[1..] == "";
    } else {
      var t := Decimal(secs) + (Fraction(nanos) + "S");
      SecondsAreRead(negative, secs, nanos);
      assert PrintMagnitude(secs, nanos) == "PT" + t;
      assert "PT"[1..] == "T" && "T"[1..] == "";
      ReadAppend(Start(negative), "PT", t);
    }
  }

  /** The printed text of every delta denotes exactly its nanoseconds... */
  lemma PrintedDenotesTotal(d: TimeDelta)
    requires Proper(d)
    ensures Denote(Printed(d)) == Some(Total(d))
  {
    if d.secs < 0 {
      var m := PrintMagnitude(Neg(d).secs, Neg(d).nanos);
      MagnitudeIsRead(true, Neg(d).secs, Neg(d).nanos);
      assert ("-" + m)[1..] == m;
    } else {
      MagnitudeIsRead(false, d.secs, d.nanos);
    }
  }

  /** ... so different deltas print differently... */
  lemma PrintingIsInjective(a: TimeDelta, b: TimeDelta)
    requires Proper(a) && Proper(b)
    ensures Printed(a) == Printed(b) <==> a == b
  {
    PrintedDenotesTotal(a);
    PrintedDenotesTotal(b);
  }

  /** ... and no fraction ends in a zero. */
  lemma NoTrailingZero(d: TimeDelta)
    requires Proper(d) && d.nanos != 0
    ensures var s := Printed(d); |s| >= 2 && s[|s| - 1] == 'S' && IsDigit(s[|s| - 2]) && s[|s| - 2] != '0'
  {
    FractionIsRead(false, 0, 1, if d.secs < 0 then Neg(d).nanos else d.nanos);
  }

  // ----- The one text of each delta

  /** Nothing at all is printed in days. */
  lemma ZeroIsZeroDays(d: TimeDelta)
    requires Proper(d)
    ensures Printed(d) == "P0D" <==> Total(d) == 0
  {
    if Total(d) != 0 {
      PrintedDenotesTotal(d);
      PrintedDenotesTotal(TimeDelta(0, 0));
      assert Printed(TimeDelta(0, 0)) == "P0D";
    }
  }

  lemma {:induction false} NoLeadingZero(n: nat)
    ensures Decimal(n) != "" && (Decimal(n)[0] == '0' <==> n == 0)
    ensures forall i | 0 <= i < |Decimal(n)| :: IsDigit(Decimal(n)[i])
    decreases n
  {
    if n >= 10 {
      NoLeadingZero(n / 10);
    }
  }

  /** Every other delta is printed as its sign, `PT` and its whole seconds in decimal without a
      zero in front, before the point and the fraction if there is one. */
  lemma SecondsAreCanonical(d: TimeDelta)
    requires Proper(d) && Total(d) != 0
    ensures var s, start := Printed(d), if Total(d) < 0 then "-PT" else "PT";
      && start <= s
      && |s| > |start| + 1 && IsDigit(s[|start|]) && (s[|start|] == '0' ==> !IsDigit(s[|start| + 1]))
  {
    var m := if d.secs < 0 then Neg(d) else d;
    var number, after := Decimal(m.secs), Fraction(m.nanos) + "S";
    var start := if Total(d) < 0 then "-PT" else "PT";
    NoLeadingZero(m.secs);
    assert Printed(d) == start + (number + after);
    assert after[0] == '.' || after[0] == 'S';
  }
}
