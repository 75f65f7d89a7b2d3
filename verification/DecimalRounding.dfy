/** Flooring to a tick and moving a price by basis points. */
module DecimalRounding {
  import opened Arith
  import opened Decimals

  // ---- RoundToTick ----

  /** Rounds down to a multiple of a positive tick; returns `d` itself when the tick is not positive or `Div` refuses. */
  function RoundToTick(d: Decimal, tick: Decimal): Decimal {
    if !IsPositive(tick) then d
    else
      match Div(d, tick, 0)
      case Failed(_) => d
      case Quotient(div) =>
        var result := Mul(div, tick);
        if d.val < 0 && Cmp(d, result) != 0 then Mul(Sub(div, Decimal(1, 0)), tick) else result
  }

  /** The calls `RoundToTick` does not hand back unchanged. */
  predicate Rounds(d: Decimal, tick: Decimal) {
    && IsPositive(tick) && ScaleInBounds(d) && ScaleInBounds(tick)
    && -MAX_DIGITS <= tick.scale - d.scale <= MAX_DIGITS
  }

  /** How many whole ticks the result holds. */
  ghost function TickCount(d: Decimal, tick: Decimal): int
    requires Rounds(d, tick)
  {
    var q := QuoAt(d, tick, tick.scale - d.scale);
    if d.val < 0 && Cmp(d, Mul(Decimal(q, 0), tick)) != 0 then q - 1 else q
  }

  lemma RoundToTickShape(d: Decimal, tick: Decimal)
    ensures Rounds(d, tick) ==> RoundToTick(d, tick) == Mul(Decimal(TickCount(d, tick), 0), tick)
    ensures !Rounds(d, tick) ==> RoundToTick(d, tick) == d
  {
    hide QuoAt;
    hide Cmp;
    hide Mul;
  }

  lemma WholeTimesTick(k: int, tick: Decimal, s: int)
    requires Holds(tick, s)
    ensures Holds(Mul(Decimal(k, 0), tick), s) && At(Mul(Decimal(k, 0), tick), s) == k * At(tick, s)
  {
    hide Pow10;
    hide Mul;
    MulMeaning(Decimal(k, 0), tick, 0, s);
    AtOwnScale(Decimal(k, 0));
  }

  lemma WholeTimesTickInBounds(k: int, tick: Decimal)
    requires ScaleInBounds(tick)
    ensures ScaleInBounds(Mul(Decimal(k, 0), tick))
  {
    WrapId(tick.scale);
    if k * tick.val != 0 {
      NormalizeScale(Decimal(k * tick.val, tick.scale));
    }
  }

  lemma AtSign(d: Decimal, s: int)
    requires s >= d.scale
    ensures Sign(At(d, s)) == Sign(d.val)
  {
    MulCancel(d.val, 0, Pow10(s - d.scale));
    MulCancel(0, d.val, Pow10(s - d.scale));
  }

  /** The count is the floor of `d / tick`. */
  lemma TickCountIsFloor(d: Decimal, tick: Decimal, s: int)
    requires Rounds(d, tick) && Holds(d, s) && Holds(tick, s)
    ensures At(tick, s) > 0
    ensures var k := TickCount(d, tick); k * At(tick, s) <= At(d, s) < (k + 1) * At(tick, s)
  {
    hide Pow10;
    hide QuoAt;
    hide Mul;
    hide Cmp;
    var q := QuoAt(d, tick, tick.scale - d.scale);
    var n, t := At(d, s), At(tick, s);
    QuoAtTruncates(d, tick, 0, s);
    PowZero();
    AtSign(d, s);
    AtSign(tick, s);
    var whole := Mul(Decimal(q, 0), tick);
    WholeTimesTick(q, tick, s);
    WholeTimesTickInBounds(q, tick);
    CmpMeaning(d, whole, s);
    MulAdd(q, 1, t);
    assert Truncates(q * t, n, t);
  }

  /** `RoundToTick` lands on the greatest multiple of the tick that is not above `d`, for `d` of either sign. */
  lemma RoundToTickFloors(d: Decimal, tick: Decimal, s: int)
    requires Rounds(d, tick) && Holds(d, s) && Holds(tick, s)
    ensures Holds(RoundToTick(d, tick), s)
    ensures exists k :: At(RoundToTick(d, tick), s) == k * At(tick, s)
    ensures At(RoundToTick(d, tick), s) <= At(d, s)
    ensures forall k :: k * At(tick, s) <= At(d, s) ==> k * At(tick, s) <= At(RoundToTick(d, tick), s)
  {
    hide Pow10;
    hide Mul;
    hide TickCount;
    hide RoundToTick;
    RoundToTickShape(d, tick);
    TickCountIsFloor(d, tick, s);
    var c, t := TickCount(d, tick), At(tick, s);
    WholeTimesTick(c, tick, s);
    forall k | k * t <= At(d, s)
      ensures k * t <= At(RoundToTick(d, tick), s)
    {
      MulCancel(k, c + 1, t);
      if k < c {
        MulCancel(k, c, t);
      }
    }
  }

  lemma FloorUnique(k: int, m: int, n: int, t: int)
    requires t > 0 && k * t <= n < (k + 1) * t && m * t <= n < (m + 1) * t
    ensures k == m
  {
    MulCancel(k, m + 1, t);
    MulCancel(m, k + 1, t);
  }

  /** Rounding twice to the same tick is rounding once, for every decimal and every tick. */
  lemma RoundToTickIdempotent(d: Decimal, tick: Decimal)
    ensures RoundToTick(RoundToTick(d, tick), tick) == RoundToTick(d, tick)
  {
    hide Pow10;
    hide Mul;
    hide TickCount;
    hide RoundToTick;
    RoundToTickShape(d, tick);
    var r := RoundToTick(d, tick);
    RoundToTickShape(r, tick);
    if Rounds(d, tick) && Rounds(r, tick) {
      var s := MAX_DIGITS;
      var c := TickCount(d, tick);
      WholeTimesTick(c, tick, s);
      TickCountIsFloor(d, tick, s);
      TickCountIsFloor(r, tick, s);
      MulAdd(c, 1, At(tick, s));
      FloorUnique(c, TickCount(r, tick), At(r, s), At(tick, s));
    }
  }

  ghost predicate IsBetween(k: int, tick: int, low: int, high: int) {
    low <= k * tick <= high
  }

  /** Some multiple of the tick lies between the two numbers, read at the scale `s`. */
  ghost predicate MultipleBetween(a: Decimal, b: Decimal, tick: Decimal, s: int)
    requires Holds(a, s) && Holds(b, s) && Holds(tick, s)
  {
    exists k :: IsBetween(k, At(tick, s), At(a, s), At(b, s))
  }

  /** Rounding the smaller number keeps order, whether or not the larger one is rounded too. */
  lemma RoundToTickMonotone(a: Decimal, b: Decimal, tick: Decimal, s: int)
    requires Rounds(a, tick) && Aligns(a, b) && Aligns(RoundToTick(a, tick), RoundToTick(b, tick)) && Cmp(a, b) <= 0
    requires Holds(a, s) && Holds(b, s) && Holds(tick, s)
    ensures Cmp(RoundToTick(a, tick), RoundToTick(b, tick)) <= 0
  {
    hide Pow10, Mul, Cmp, TickCount, RoundToTick;
    RoundToTickShape(b, tick);
    RoundToTickFloors(a, tick, s);
    CmpMeaning(a, b, s);
    if Rounds(b, tick) {
      RoundToTickFloors(b, tick, s);
      var k :| At(RoundToTick(a, tick), s) == k * At(tick, s);
      assert k * At(tick, s) <= At(RoundToTick(b, tick), s);
    }
    CmpMeaning(RoundToTick(a, tick), RoundToTick(b, tick), s);
  }

  /** When only the larger number is rounded, order is kept exactly if it is not rounded past the smaller one. */
  lemma LargerRounded(a: Decimal, b: Decimal, tick: Decimal, s: int)
    requires !Rounds(a, tick) && Rounds(b, tick) && Aligns(a, b) && Aligns(a, RoundToTick(b, tick)) && Cmp(a, b) <= 0
    requires Holds(a, s) && Holds(b, s) && Holds(tick, s)
    ensures Cmp(a, RoundToTick(b, tick)) <= 0 <==> MultipleBetween(a, b, tick, s)
  {
    hide Pow10, Mul, Cmp, TickCount, RoundToTick;
    RoundToTickFloors(b, tick, s);
    CmpMeaning(a, RoundToTick(b, tick), s);
    var k :| At(RoundToTick(b, tick), s) == k * At(tick, s);
    if At(a, s) <= At(RoundToTick(b, tick), s) {
      assert IsBetween(k, At(tick, s), At(a, s), At(b, s));
    }
    if MultipleBetween(a, b, tick, s) {
      var m :| IsBetween(m, At(tick, s), At(a, s), At(b, s));
      assert m * At(tick, s) <= At(RoundToTick(b, tick), s);
    }
  }

  /** Rounding keeps the order of two numbers exactly when the smaller one is rounded, or the larger one is not, or some
      multiple of the tick lies between them. */
  lemma RoundToTickKeepsOrderIff(a: Decimal, b: Decimal, tick: Decimal, s: int)
    requires Aligns(a, b) && Aligns(RoundToTick(a, tick), RoundToTick(b, tick)) && Cmp(a, b) <= 0
    requires Holds(a, s) && Holds(b, s) && Holds(tick, s)
    ensures Cmp(RoundToTick(a, tick), RoundToTick(b, tick)) <= 0 <==>
            Rounds(a, tick) || !Rounds(b, tick) || MultipleBetween(a, b, tick, s)
  {
    hide Cmp, RoundToTick, MultipleBetween;
    RoundToTickShape(a, tick);
    RoundToTickShape(b, tick);
    if Rounds(a, tick) {
      RoundToTickMonotone(a, b, tick, s);
    } else if Rounds(b, tick) {
      LargerRounded(a, b, tick, s);
    }
  }

  /** It can fail: with a tick of 100, the sum of 1 and 10 to the minus 999 comes back unrounded, because its scale is more
      than 1000 away from the tick's, while the larger 2 is floored to 0. */
  lemma RoundToTickLosesOrder()
    ensures var a, b, tick := Add(Decimal(1, 0), Decimal(1, 999)), Decimal(2, 0), Decimal(1, -2);
            && IsNormal(a) && a.scale == 999
            && Cmp(a, b) < 0 && Cmp(RoundToTick(a, tick), RoundToTick(b, tick)) > 0
  {
    hide Pow10, Mul, Cmp, Add, RoundToTick;
    var a, b, tick := Add(Decimal(1, 0), Decimal(1, 999)), Decimal(2, 0), Decimal(1, -2);
    LongSum();
    RoundToTickShape(a, tick);
    var r := RoundedAway(b, tick);
    LongSumOrder(a, b, r);
  }

  /** 2 is floored to the zeroth multiple of 100. */
  lemma RoundedAway(b: Decimal, tick: Decimal) returns (r: Decimal)
    requires b == Decimal(2, 0) && tick == Decimal(1, -2)
    ensures r == RoundToTick(b, tick) && r == ZERO
  {
    hide Pow10, RoundToTick, TickCount;
    r := RoundToTick(b, tick);
    RoundToTickShape(b, tick);
    TickCountIsFloor(b, tick, 0);
    HundredAt();
    NoWholeHundred(TickCount(b, tick));
  }

  lemma LongSumOrder(a: Decimal, b: Decimal, r: Decimal)
    requires a == Decimal(Pow10(999) + 1, 999) && b == Decimal(2, 0) && r == ZERO
    ensures Cmp(a, b) < 0 && Cmp(a, r) > 0 && IsNormal(a)
  {
    hide Pow10, Cmp;
    AtOwnScale(a);
    CmpMeaning(a, b, 999);
    CmpMeaning(a, r, 999);
    PowTens();
    Pow10Sum(1, 998);
    assert (Pow10(999) + 1) % 10 == 1;
  }

  lemma LongSum()
    ensures Add(Decimal(1, 0), Decimal(1, 999)) == Decimal(Pow10(999) + 1, 999)
  {
    hide Pow10;
    PowZero();
    PowTens();
    Pow10Sum(1, 998);
    assert (Pow10(999) + 1) % 10 == 1;
    assert AlignScale(Decimal(1, 0), Decimal(1, 999)) == (Decimal(Pow10(999), 999), Decimal(1, 999));
  }

  lemma NoWholeHundred(k: int)
    requires k * 100 <= 2 < (k + 1) * 100
    ensures k == 0
  {
  }

  lemma HundredAt()
    ensures At(Decimal(1, -2), 0) == 100 && At(Decimal(2, 0), 0) == 2
  {
    assert Pow10(1) == 10 && Pow10(2) == 10 * Pow10(1);
  }

  lemma PowTens()
    ensures Pow10(1) == 10
  {
  }

  // ---- basis points ----

  const DEFAULT_PRECISION: Int32 := 8
  const TEN_THOUSAND: Decimal := Decimal(10000, 0)

  function BpsPrecision(d: Decimal): Int32 {
    var prec := Wrap32(d.scale + 4);
    if prec < DEFAULT_PRECISION then DEFAULT_PRECISION else prec
  }

  /** `bps` is the decimal the formatted number of basis points parses to. */
  function AddBps(d: Decimal, bps: Decimal): Decimal {
    if bps.val == 0 then d
    else
      match Div(Mul(d, bps), TEN_THOUSAND, BpsPrecision(d))
      case Failed(_) => d
      case Quotient(adjustment) => Add(d, adjustment)
  }

  function SubBps(d: Decimal, bps: Decimal): Decimal {
    AddBps(d, Neg(bps))
  }

  lemma {:induction false} StripZerosNeg(val: int, scale: Int32)
    requires val != 0
    ensures StripZeros(-val, scale) == Neg(StripZeros(val, scale))
    decreases if scale > 0 then scale else 0
  {
    if scale > 0 && val % 10 == 0 {
      assert (-val) / 10 == -(val / 10);
      StripZerosNeg(val / 10, scale - 1);
    }
  }

  lemma NormalizeNeg(d: Decimal)
    ensures Normalize(Neg(d)) == Neg(Normalize(d))
  {
    if d.val != 0 {
      StripZerosNeg(d.val, d.scale);
    }
  }

  lemma QuoNeg(n: int, m: int)
    requires m != 0
    ensures Quo(-n, m) == -Quo(n, m)
  {
    if n == 0 {
      assert 0 / m == 0;
    }
  }

  /** Truncation is symmetric: dividing the negated number gives the negated quotient. */
  lemma DivNeg(d: Decimal, o: Decimal, prec: Int32)
    ensures Div(Neg(d), o, prec) == match Div(d, o, prec)
                                    case Failed(e) => Failed(e)
                                    case Quotient(q) => Quotient(Neg(q))
  {
    hide QuoAt;
    hide Normalize;
    if Div(d, o, prec).Quotient? {
      var p := if prec >= 0 then prec else 8;
      var diff := p + o.scale - d.scale;
      QuoAtNeg(d, o, diff);
      NormalizeNeg(Decimal(QuoAt(d, o, diff), p));
    }
  }

  lemma QuoAtNeg(d: Decimal, o: Decimal, diff: int)
    requires o.val != 0 && -MAX_INT32 <= diff <= MAX_INT32
    ensures QuoAt(Neg(d), o, diff) == -QuoAt(d, o, diff)
  {
    hide Quo;
    if diff >= 0 {
      MulNeg(d.val, BigExp10(diff));
      QuoNeg(d.val * BigExp10(diff), o.val);
    } else {
      DivisorNonZero(o.val, diff);
      QuoNeg(d.val, o.val * BigExp10(-diff));
    }
  }

  lemma MulNegRight(d: Decimal, b: Decimal)
    ensures Mul(d, Neg(b)) == Neg(Mul(d, b))
  {
    hide Normalize;
    MulComm(d.val, -b.val);
    MulNeg(b.val, d.val);
    MulComm(d.val, b.val);
    NormalizeNeg(Decimal(d.val * b.val, Wrap32(d.scale + b.scale)));
  }

  lemma QuotientScale(d: Decimal, o: Decimal, prec: Int32)
    requires Div(d, o, prec).Quotient? && prec >= 0
    ensures 0 <= Div(d, o, prec).value.scale <= prec <= MAX_DIGITS
  {
    hide QuoAt;
    NormalizeScale(Decimal(QuoAt(d, o, prec + o.scale - d.scale), prec));
  }

  /** Adding and subtracting the same basis points move a price by exactly opposite amounts. */
  lemma BpsOpposite(d: Decimal, bps: Decimal, s: int)
    requires d.scale >= -MAX_INT32 + MAX_DIGITS && s >= d.scale && s >= MAX_DIGITS
    ensures Holds(AddBps(d, bps), s) && Holds(SubBps(d, bps), s)
    ensures At(AddBps(d, bps), s) - At(d, s) == At(d, s) - At(SubBps(d, bps), s)
  {
    hide Pow10;
    hide Div;
    hide Mul;
    hide Add;
    if bps.val != 0 {
      var p := BpsPrecision(d);
      MulNegRight(d, bps);
      DivNeg(Mul(d, bps), TEN_THOUSAND, p);
      var r := Div(Mul(d, bps), TEN_THOUSAND, p);
      if r.Quotient? {
        QuotientScale(Mul(d, bps), TEN_THOUSAND, p);
        AddSubMeaning(d, r.value, s);
        AddSubMeaning(d, Neg(r.value), s);
        MulNeg(r.value.val, Pow10(s - r.value.scale));
      }
    }
  }

  lemma MulScale(a: Decimal, b: Decimal)
    requires -MAX_INT32 <= a.scale + b.scale <= MAX_INT32
    ensures Mul(a, b).scale <= if a.scale + b.scale >= 0 then a.scale + b.scale else 0
  {
    hide Normalize;
    WrapId(a.scale + b.scale);
    NormalizeScale(Decimal(a.val * b.val, a.scale + b.scale));
  }

  /** The moved price is within one unit of the last kept place of the exact one, toward the old price:
      with `p` kept places, `(new - old) * 10000` is `old * bps` cut off toward zero. */
  lemma AddBpsTruncates(d: Decimal, bps: Decimal, s: int)
    requires ScaleInBounds(d) && ScaleInBounds(bps) && bps.val != 0 && s >= MAX_DIGITS
    requires Div(Mul(d, bps), TEN_THOUSAND, BpsPrecision(d)).Quotient?
    ensures var p := BpsPrecision(d);
            && Holds(AddBps(d, bps), p) && Holds(d, p)
            && Truncates((At(AddBps(d, bps), p) - At(d, p)) * At(TEN_THOUSAND, s + s),
                         (At(d, s) * At(bps, s)) * Pow10(p), At(TEN_THOUSAND, s + s))
  {
    hide Pow10;
    hide Div;
    hide Mul;
    hide Add;
    hide Truncates;
    var p := BpsPrecision(d);
    WrapId(d.scale + 4);
    var r := Div(Mul(d, bps), TEN_THOUSAND, p);
    MulScale(d, bps);
    MulMeaning(d, bps, s, s);
    DivMeaning(Mul(d, bps), TEN_THOUSAND, p, s + s);
    QuotientScale(Mul(d, bps), TEN_THOUSAND, p);
    AddSubMeaning(d, r.value, p);
  }
}
