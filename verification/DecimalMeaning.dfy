/** Decimals as a caller sees them: what is printed and parsed digit by digit, when a division fails and why, and what a move
    by basis points adds. */
module DecimalMeaning {
  import opened Wrappers
  import opened Arith
  import opened Decimals
  import opened DecimalRounding
  import opened Text
  import opened DecimalText

  // ---- plain numerals ----

  /** Whole and fraction digits with a point between them if there are any after it. */
  function Numeral(minus: bool, whole: string, fraction: string): string {
    (if minus then "-" else "") + whole + (if fraction == "" then "" else "." + fraction)
  }

  /** A printed decimal is a numeral whose digits, read as one number, are the decimal at the printed number of places: as many
      as the scale of a number other than zero says. There is always a digit before the point and no sign on zero. */
  lemma PrintMeans(d: Decimal) returns (whole: string, fraction: string)
    ensures Print(d) == Numeral(d.val < 0, whole, fraction)
    ensures whole != "" && AllDigits(whole) && AllDigits(fraction)
    ensures |fraction| == if d.val == 0 || d.scale < 0 then 0 else d.scale
    ensures d.val == 0 ==> whole == "0"
    ensures d.val != 0 ==> |fraction| >= d.scale && Signed(d.val < 0, NatOf(whole + fraction)) == At(d, |fraction|)
  {
    hide Digits, Zeros, NatOf, Pow10, Print, Render;
    var l := Printed(d);
    PrintRenders(d);
    PrintedParts(d);
    RenderPlain(l);
    PrintedSign(d);
    whole, fraction := l.integer, l.fraction;
    PointIsFraction(d);
    if d.val == 0 {
      PrintedZeroDigits(d);
    } else {
      PrintedNumber(d);
    }
  }

  lemma PointIsFraction(d: Decimal)
    ensures Printed(d).point <==> Printed(d).fraction != ""
  {
  }

  lemma PrintedZeroDigits(d: Decimal)
    requires d.val == 0
    ensures Printed(d).integer == "0"
  {
    DigitsOfZero();
    assert "0" + Zeros(0) == "0";
  }

  lemma PrintedNumber(d: Decimal)
    requires d.val != 0
    ensures var l := Printed(d);
            && AllDigits(l.integer + l.fraction) && |l.fraction| >= d.scale
            && Signed(d.val < 0, NatOf(l.integer + l.fraction)) == At(d, |l.fraction|)
  {
    hide Digits, Zeros, NatOf, Pow10;
    var l, raw := Printed(d), Digits(Abs(d.val));
    NatOfDigits(Abs(d.val));
    if d.scale <= 0 {
      var k: int := d.scale;
      NatOfPadded(raw, -k);
      assert l.integer + l.fraction == raw + Zeros(-k);
      MulNeg(d.val, Pow10(-k));
    } else if |raw| <= d.scale {
      NatOfPadded("0" + (Zeros(d.scale - |raw|) + raw), 0);
      LeadingZeros(raw, d.scale - |raw|);
      AtOwnScale(d);
    } else {
      assert l.integer + l.fraction == raw;
      AtOwnScale(d);
    }
  }

  lemma LeadingZeros(raw: string, n: nat)
    requires AllDigits(raw)
    ensures AllDigits("0" + (Zeros(n) + raw)) && NatOf("0" + (Zeros(n) + raw)) == NatOf(raw)
  {
    hide NatOf;
    NatOfPadded(raw, n);
    NatOfPadded(Zeros(n) + raw, 1);
    assert Zeros(1) == "0";
  }

  /** A numeral with a digit before the point parses exactly when it has at most a thousand digits, to the normal form of the
      number its digits denote. */
  lemma ParseNumeral(minus: bool, whole: string, fraction: string)
    requires AllDigits(whole) && AllDigits(fraction) && whole != ""
    ensures var r := ParseDecimal(Numeral(minus, whole, fraction));
            && (r.Some? <==> |whole| + |fraction| <= 1000)
            && (r.Some? ==> IsNormal(r.value) && 0 <= r.value.scale <= |fraction|
                            && At(r.value, |fraction|) == Signed(minus, NatOf(whole + fraction)))
  {
    hide NatOf, Pow10, ParseDecimal, Canonical, Meaning, Numeral, Render, Bounded, WellFormed;
    var l := NumeralLiteral(minus, whole, fraction);
    ParseMeaning(Numeral(minus, whole, fraction), l);
    if |whole| + |fraction| <= 1000 {
      var d := Decimal(Signed(minus, NatOf(whole + fraction)), |fraction|);
      CanonicalMeaning(d, |fraction|);
      AtOwnScale(d);
      CanonicalScale(d);
    }
  }

  /** The numeral as a literal of the grammar. */
  lemma NumeralLiteral(minus: bool, whole: string, fraction: string) returns (l: Literal)
    requires AllDigits(whole) && AllDigits(fraction) && whole != ""
    ensures WellFormed(l) && TrimSpace(Numeral(minus, whole, fraction)) == Render(l)
    ensures Bounded(l) <==> |whole| + |fraction| <= 1000
    ensures |whole| + |fraction| <= 1000 ==>
      -MAX_INT32 <= ScaleOf(l) <= MAX_INT32 && AllDigits(whole + fraction)
      && Meaning(l) == Canonical(Decimal(Signed(minus, NatOf(whole + fraction)), |fraction|))
  {
    hide NatOf, Canonical, TrimSpace;
    l := Literal(if minus then Minus else Bare, Bare, whole, fraction != "", fraction, NoExponent);
    RenderPlain(l);
    NumeralEnds(minus, whole, fraction);
    NothingToTrim(Numeral(minus, whole, fraction));
    NumeralRender(minus, whole, fraction);
  }

  lemma NumeralRender(minus: bool, whole: string, fraction: string)
    ensures Numeral(minus, whole, fraction) ==
            SignText(if minus then Minus else Bare) + whole + (if fraction != "" then "." + fraction else "")
  {
  }

  lemma CanonicalScale(d: Decimal)
    requires d.scale >= 0
    ensures 0 <= Canonical(d).scale <= d.scale
  {
    hide Normalize;
    NormalizeScale(d);
  }

  lemma NumeralEnds(minus: bool, whole: string, fraction: string)
    requires AllDigits(whole) && AllDigits(fraction) && whole != ""
    ensures var t := Numeral(minus, whole, fraction);
            t != "" && !IsSpace(t[0]) && !IsSpace(t[|t| - 1])
  {
    var t := Numeral(minus, whole, fraction);
    assert t[0] == if minus then '-' else whole[0];
    assert t[|t| - 1] == if fraction == "" then whole[|whole| - 1] else fraction[|fraction| - 1];
  }

  // ---- division ----

  /** Why a division fails, in the order of the checks; a negative precision stands for eight places. */
  lemma DivRefusals(d: Decimal, o: Decimal, precision: Int32)
    ensures var p := if precision < 0 then 8 else precision;
            var r := Div(d, o, precision);
            && (r == Failed(DivisionByZero) <==> o.val == 0)
            && (r == Failed(InvalidPrecision) <==> o.val != 0 && p > 1000)
            && (r == Failed(InvalidScale) <==>
                 && o.val != 0 && p <= 1000
                 && !(-1000 <= d.scale <= 1000 && -1000 <= o.scale <= 1000 && -1000 <= p + o.scale - d.scale <= 1000))
            && (r.Failed? <==> r == Failed(DivisionByZero) || r == Failed(InvalidPrecision) || r == Failed(InvalidScale))
            && (precision < 0 ==> r == Div(d, o, 8))
  {
    hide QuoAt, Normalize;
  }

  // ---- basis points ----

  /** A move by basis points adds ten-thousandths of the price, cut off toward zero at eight places or four more than the price
      has, whichever is more. Where that many places are refused, and for zero points, the price stays. */
  lemma MoveByPoints(d: Decimal, bps: Decimal)
    requires -1000 <= d.scale <= 1000 && -1000 <= bps.scale <= 1000
    ensures var p := if d.scale + 4 > 8 then d.scale + 4 else 8;
            var part := Div(Mul(d, bps), Decimal(10000, 0), p);
            && AddBps(d, bps) == (if bps.val == 0 || part.Failed? then d else Add(d, part.value))
            && SubBps(d, bps) == AddBps(d, Neg(bps))
            && (part.Quotient? <==> p <= 1000 && p - 1000 <= Mul(d, bps).scale <= 1000)
  {
    hide Div, Mul, Add;
    WrapId(d.scale + 4);
    var p := BpsPrecision(d);
    DivRefusals(Mul(d, bps), TEN_THOUSAND, p);
  }
}
