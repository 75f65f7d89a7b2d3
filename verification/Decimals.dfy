/** Exact decimal arithmetic: an integer and a scale, `val * 10^-scale`.
    A decimal whose integer was never set is the number zero here, as `ensureInit` makes it. */
module Decimals {
  import opened Arith

  const MAX_INT32: int := 0x7fff_ffff
  const MAX_DIGITS: int := 1000

  /** The source's scales are 32-bit and wrap around. */
  type Int32 = x: int | -0x8000_0000 <= x <= 0x7fff_ffff

  function Wrap32(x: int): Int32 {
    (x + 0x8000_0000) % 0x1_0000_0000 - 0x8000_0000
  }

  datatype Decimal = Decimal(val: int, scale: Int32)

  const ZERO: Decimal := Decimal(0, 0)

  // ---- integers ----

  function Pow10(n: nat): (p: nat)
    ensures p >= 1
  {
    if n == 0 then 1 else 10 * Pow10(n - 1)
  }

  function BigExp10(n: Int32): nat {
    if n <= 0 then 1 else Pow10(n)
  }

  lemma PowZero()
    ensures Pow10(0) == 1
  {
  }

  /** Division rounded toward zero, as `big.Int.Quo`. */
  function Quo(a: int, b: int): int
    requires b != 0
  {
    if a >= 0 then a / b else -((-a) / b)
  }

  lemma {:induction false} Pow10Sum(m: nat, n: nat)
    ensures Pow10(m + n) == Pow10(m) * Pow10(n)
  {
    if m == 0 {
    } else {
      Pow10Sum(m - 1, n);
      MulAssoc(10, Pow10(m - 1), Pow10(n));
    }
  }

  // ---- meaning: the number a decimal denotes, at any scale that holds it ----

  /** `d * 10^s` as an integer. */
  ghost function At(d: Decimal, s: int): int
    requires s >= d.scale
  {
    d.val * Pow10(s - d.scale)
  }

  ghost predicate Holds(d: Decimal, s: int) {
    s >= 0 && s >= d.scale
  }

  lemma AtRescale(d: Decimal, s: int, t: int)
    requires d.scale <= s <= t
    ensures At(d, t) == At(d, s) * Pow10(t - s)
  {
    hide Pow10;
    Pow10Sum(s - d.scale, t - s);
    MulAssoc(d.val, Pow10(s - d.scale), Pow10(t - s));
  }

  // ---- normal form ----

  function StripZeros(val: int, scale: Int32): (r: Decimal)
    requires val != 0
    ensures r.scale <= scale && (scale >= 0 ==> r.scale >= 0)
    ensures r.val != 0 && (r.scale > 0 ==> r.val % 10 != 0)
    decreases if scale > 0 then scale else 0
  {
    if scale > 0 && val % 10 == 0 then StripZeros(val / 10, scale - 1) else Decimal(val, scale)
  }

  function Normalize(d: Decimal): Decimal {
    if d.val == 0 then ZERO else StripZeros(d.val, d.scale)
  }

  /** Zero has scale 0, and no zero is left after the point. */
  predicate IsNormal(d: Decimal) {
    && (d.val == 0 ==> d.scale == 0)
    && (d.scale > 0 ==> d.val % 10 != 0)
  }

  lemma {:induction false} StripZerosMeaning(val: int, scale: Int32, s: int)
    requires val != 0 && s >= scale
    ensures At(StripZeros(val, scale), s) == At(Decimal(val, scale), s)
    decreases if scale > 0 then scale else 0
  {
    if scale > 0 && val % 10 == 0 {
      StripZerosMeaning(val / 10, scale - 1, s);
      MulAssoc(val / 10, 10, Pow10(s - scale));
    }
  }

  /** Stripping keeps the number, whatever scale it is read at. */
  lemma NormalizeMeaning(d: Decimal, s: int)
    requires Holds(d, s)
    ensures IsNormal(Normalize(d)) && Holds(Normalize(d), s)
    ensures At(Normalize(d), s) == At(d, s)
  {
    if d.val != 0 {
      StripZerosMeaning(d.val, d.scale, s);
    }
  }

  lemma NormalizeScale(d: Decimal)
    ensures d.scale >= 0 ==> 0 <= Normalize(d).scale <= d.scale
    ensures d.scale < 0 ==> d.scale <= Normalize(d).scale <= 0
  {
  }

  /** The strip loop of `normalize`. */
  method NormalizeLoop(d: Decimal) returns (r: Decimal)
    ensures r == Normalize(d)
  {
    if d.val == 0 {
      return ZERO;
    }
    if d.scale == 0 {
      return d;
    }
    var val, scale := d.val, d.scale;
    while scale > 0
      invariant val != 0
      invariant StripZeros(val, scale) == StripZeros(d.val, d.scale)
    {
      var q := Quo(val, 10);
      var rem := val - q * 10;
      QuoByTen(val);
      if rem == 0 {
        val := q;
        scale := scale - 1;
      } else {
        break;
      }
    }
    return Decimal(val, scale);
  }

  lemma QuoByTen(v: int)
    ensures v - Quo(v, 10) * 10 == 0 <==> v % 10 == 0
    ensures v % 10 == 0 ==> Quo(v, 10) == v / 10
  {
  }

  // ---- comparison and sums ----

  /** The scale difference `alignScale` multiplies by is a 32-bit subtraction. */
  predicate Aligns(a: Decimal, b: Decimal) {
    -MAX_INT32 <= a.scale - b.scale <= MAX_INT32
  }

  function AlignScale(a: Decimal, b: Decimal): (Decimal, Decimal) {
    if a.scale == b.scale then (a, b)
    else if a.scale < b.scale then
      (Decimal(a.val * BigExp10(Wrap32(b.scale - a.scale)), b.scale), b)
    else
      (a, Decimal(b.val * BigExp10(Wrap32(a.scale - b.scale)), a.scale))
  }

  function Sign(x: int): int {
    if x < 0 then -1 else if x == 0 then 0 else 1
  }

  function Cmp(a: Decimal, b: Decimal): int {
    var (x, y) := AlignScale(a, b);
    Sign(x.val - y.val)
  }

  function Neg(d: Decimal): Decimal {
    Decimal(-d.val, d.scale)
  }

  function Add(a: Decimal, b: Decimal): Decimal {
    var (x, y) := AlignScale(a, b);
    Normalize(Decimal(x.val + y.val, x.scale))
  }

  function Sub(a: Decimal, b: Decimal): Decimal {
    var (x, y) := AlignScale(a, b);
    Normalize(Decimal(x.val - y.val, x.scale))
  }

  predicate IsPositive(d: Decimal) {
    d.val > 0
  }

  lemma WrapId(x: int)
    requires -0x8000_0000 <= x <= 0x7fff_ffff
    ensures Wrap32(x) == x
  {
  }

  /** Aligning rewrites both operands at the larger scale without changing either number. */
  lemma AlignMeaning(a: Decimal, b: Decimal)
    requires Aligns(a, b)
    ensures var m := if a.scale < b.scale then b.scale else a.scale;
            AlignScale(a, b) == (Decimal(At(a, m), m), Decimal(At(b, m), m))
  {
    WrapId(a.scale - b.scale);
    WrapId(b.scale - a.scale);
  }

  /** `Cmp` is the order of the numbers, read at any common scale. */
  lemma CmpMeaning(a: Decimal, b: Decimal, s: int)
    requires Aligns(a, b) && s >= a.scale && s >= b.scale
    ensures Cmp(a, b) == Sign(At(a, s) - At(b, s))
  {
    AlignMeaning(a, b);
    var m := if a.scale < b.scale then b.scale else a.scale;
    AtRescale(a, m, s);
    AtRescale(b, m, s);
    MulCancel(At(a, m), At(b, m), Pow10(s - m));
  }

  lemma SumAt(x: int, y: int, m: Int32, s: int)
    requires s >= m
    ensures At(Decimal(x + y, m), s) == At(Decimal(x, m), s) + At(Decimal(y, m), s)
    ensures At(Decimal(x - y, m), s) == At(Decimal(x, m), s) - At(Decimal(y, m), s)
  {
    MulAdd(x, y, Pow10(s - m));
  }

  /** Addition and subtraction are exact. */
  lemma AddSubMeaning(a: Decimal, b: Decimal, s: int)
    requires Aligns(a, b) && Holds(a, s) && Holds(b, s)
    ensures Holds(Add(a, b), s) && At(Add(a, b), s) == At(a, s) + At(b, s)
    ensures Holds(Sub(a, b), s) && At(Sub(a, b), s) == At(a, s) - At(b, s)
  {
    var (x, y) := AlignScale(a, b);
    AlignedAt(a, b, s);
    SumAt(x.val, y.val, x.scale, s);
    NormalizeMeaning(Decimal(x.val + y.val, x.scale), s);
    NormalizeMeaning(Decimal(x.val - y.val, x.scale), s);
  }

  lemma AlignedAt(a: Decimal, b: Decimal, s: int)
    requires Aligns(a, b) && s >= a.scale && s >= b.scale
    ensures var (x, y) := AlignScale(a, b);
            x.scale == y.scale <= s && At(x, s) == At(a, s) && At(y, s) == At(b, s)
  {
    AlignMeaning(a, b);
    var m := if a.scale < b.scale then b.scale else a.scale;
    AtRescale(a, m, s);
    AtRescale(b, m, s);
  }

  /** Equal numbers compare alike against any third one, so "compares equal" is an equivalence. */
  lemma CmpEqualTransitive(a: Decimal, b: Decimal, c: Decimal)
    requires Aligns(a, b) && Aligns(b, c) && Aligns(a, c)
    requires Cmp(a, b) == 0
    ensures Cmp(b, c) == Cmp(a, c) && Cmp(b, a) == 0
  {
    var s := MaxScale(a, MaxScale2(b, c));
    CmpMeaning(a, b, s);
    CmpMeaning(b, a, s);
    CmpMeaning(b, c, s);
    CmpMeaning(a, c, s);
  }

  function MaxScale2(b: Decimal, c: Decimal): Int32 {
    if b.scale < c.scale then c.scale else b.scale
  }

  function MaxScale(a: Decimal, t: Int32): Int32 {
    if a.scale < t then t else a.scale
  }

  /** Two normal forms of the same number that do not use a negative scale are the same decimal. */
  lemma NormalFormUnique(a: Decimal, b: Decimal)
    requires IsNormal(a) && IsNormal(b) && a.scale >= 0 && b.scale >= 0
    ensures Cmp(a, b) == 0 <==> a == b
  {
    if Cmp(a, b) == 0 && a.scale != b.scale {
      if a.scale < b.scale {
        NormalFormScale(a, b);
      } else {
        CmpEqualTransitive(a, b, b);
        NormalFormScale(b, a);
      }
    }
  }

  lemma NormalFormScale(a: Decimal, b: Decimal)
    requires IsNormal(a) && IsNormal(b) && 0 <= a.scale < b.scale
    ensures Cmp(a, b) != 0
  {
    AlignMeaning(a, b);
    var k := b.scale - a.scale;
    MulComm(10, Pow10(k - 1));
    MulAssoc(a.val, Pow10(k - 1), 10);
    assert At(a, b.scale) == (a.val * Pow10(k - 1)) * 10;
  }

  // ---- products and quotients ----

  function Mul(a: Decimal, b: Decimal): Decimal {
    Normalize(Decimal(a.val * b.val, Wrap32(a.scale + b.scale)))
  }

  /** Multiplication is exact whenever the summed scale fits 32 bits. */
  lemma MulMeaning(a: Decimal, b: Decimal, s: int, t: int)
    requires -MAX_INT32 - 1 <= a.scale + b.scale <= MAX_INT32
    requires s >= a.scale && t >= b.scale && s + t >= 0
    ensures Holds(Mul(a, b), s + t) && At(Mul(a, b), s + t) == At(a, s) * At(b, t)
  {
    WrapId(a.scale + b.scale);
    var p, q := Pow10(s - a.scale), Pow10(t - b.scale);
    Pow10Sum(s - a.scale, t - b.scale);
    NormalizeMeaning(Decimal(a.val * b.val, a.scale + b.scale), s + t);
    MulInterchange(a.val, b.val, p, q);
  }

  datatype DivError = DivisionByZero | InvalidPrecision | InvalidScale
  datatype DivResult = Quotient(value: Decimal) | Failed(error: DivError)

  predicate ScaleInBounds(d: Decimal) {
    -MAX_DIGITS <= d.scale <= MAX_DIGITS
  }

  /** `Div` with an explicit precision; a negative precision means the default 8. */
  function Div(d: Decimal, other: Decimal, precision: Int32): DivResult {
    var prec := if precision >= 0 then precision else 8;
    if other.val == 0 then Failed(DivisionByZero)
    else if prec > MAX_DIGITS then Failed(InvalidPrecision)
    else if !ScaleInBounds(d) || !ScaleInBounds(other) then Failed(InvalidScale)
    else
      var diff := prec + other.scale - d.scale;
      if diff < -MAX_DIGITS || diff > MAX_DIGITS then Failed(InvalidScale)
      else Quotient(Normalize(Decimal(QuoAt(d, other, diff), prec)))
  }

  /** The integer quotient, with the dividend or the divisor scaled up by the scale difference. */
  function QuoAt(d: Decimal, other: Decimal, diff: int): int
    requires other.val != 0 && -MAX_INT32 <= diff <= MAX_INT32
  {
    if diff >= 0 then Quo(d.val * BigExp10(diff), other.val)
    else
      DivisorNonZero(other.val, diff);
      Quo(d.val, other.val * BigExp10(-diff))
  }

  lemma DivisorNonZero(v: int, diff: int)
    requires v != 0 && -MAX_INT32 <= diff < 0
    ensures v * BigExp10(-diff) != 0
  {
    MulCancel(v, 0, BigExp10(-diff));
  }

  /** With `p` the product of a quotient and the divisor `m`: the quotient is `n / m` cut off toward zero. */
  ghost predicate Truncates(p: int, n: int, m: int) {
    if n >= 0 then 0 <= p <= n < p + Abs(m) else p - Abs(m) < n <= p <= 0
  }

  lemma QuoTruncates(n: int, m: int)
    requires m != 0
    ensures Truncates(Quo(n, m) * m, n, m)
  {
    DivMod(Abs(n), m);
    MulNeg(Abs(n) / m, m);
  }

  lemma AbsScaled(m: int, k: nat)
    ensures Abs(m * k) == Abs(m) * k
  {
    MulNeg(m, k);
    if m < 0 {
      MulCancel(m, 0, k + 1);
      MulSign(-m, k);
    } else {
      MulSign(m, k);
    }
  }

  lemma MulSign(a: nat, k: nat)
    ensures a * k >= 0
  {
  }

  lemma TruncatesScaled(p: int, n: int, m: int, k: int)
    requires k > 0 && Truncates(p, n, m)
    ensures Truncates(p * k, n * k, m * k)
  {
    AbsScaled(m, k);
    MulAdd(p, Abs(m), k);
    MulCancel(p, n, k);
    MulCancel(n, p + Abs(m), k);
    MulCancel(p - Abs(m), n, k);
    MulCancel(0, p, k);
    MulCancel(n, 0, k);
  }

  /** A quotient succeeds exactly inside the bounds, and is then the exact quotient of the two numbers
      cut off toward zero after `prec` places, whatever common scale the numbers are read at. */
  lemma DivMeaning(d: Decimal, o: Decimal, prec: Int32, s: int)
    requires 0 <= prec && s >= d.scale && s >= o.scale
    ensures Div(d, o, prec).Quotient? <==>
      && o.val != 0 && prec <= MAX_DIGITS && ScaleInBounds(d) && ScaleInBounds(o)
      && -MAX_DIGITS <= prec + o.scale - d.scale <= MAX_DIGITS
    ensures Div(d, o, prec).Quotient? ==>
      && Holds(Div(d, o, prec).value, prec)
      && Truncates(At(Div(d, o, prec).value, prec) * At(o, s), At(d, s) * Pow10(prec), At(o, s))
  {
    hide Pow10;
    hide QuoAt;
    var diff := prec + o.scale - d.scale;
    if Div(d, o, prec).Quotient? {
      var q := QuoAt(d, o, diff);
      QuoAtTruncates(d, o, prec, s);
      NormalizeMeaning(Decimal(q, prec), prec);
      AtOwnScale(Decimal(q, prec));
    }
  }

  lemma AtOwnScale(d: Decimal)
    ensures At(d, d.scale) == d.val
  {
  }

  /** The numerator and divisor used by `Div`, scaled by one power of ten, are the two numbers themselves. */
  lemma QuoAtTruncates(d: Decimal, o: Decimal, prec: Int32, s: int)
    requires 0 <= prec && s >= d.scale && s >= o.scale && o.val != 0
    requires -MAX_DIGITS <= prec + o.scale - d.scale <= MAX_DIGITS
    ensures Truncates(QuoAt(d, o, prec + o.scale - d.scale) * At(o, s), At(d, s) * Pow10(prec), At(o, s))
  {
    hide Pow10;
    hide Quo;
    hide Truncates;
    var diff := prec + o.scale - d.scale;
    var q := QuoAt(d, o, diff);
    if diff >= 0 {
      var num, k := d.val * BigExp10(diff), Pow10(s - o.scale);
      QuoTruncates(num, o.val);
      TruncatesScaled(q * o.val, num, o.val, k);
      MulAssoc(q, o.val, k);
      BigExp10IsPow10(diff);
      PowShift(d.val, diff, s - o.scale, s - d.scale, prec);
    } else {
      DivisorNonZero(o.val, diff);
      var den, k := o.val * BigExp10(-diff), Pow10(s - d.scale + prec);
      QuoTruncates(d.val, den);
      TruncatesScaled(q * den, d.val, den, k);
      MulAssoc(q, den, k);
      BigExp10IsPow10(-diff);
      PowJoin(o.val, -diff, s - d.scale + prec);
      PowJoin(d.val, s - d.scale, prec);
    }
  }

  lemma BigExp10IsPow10(n: nat)
    requires n <= MAX_INT32
    ensures BigExp10(n) == Pow10(n)
  {
  }

  lemma PowJoin(v: int, a: nat, b: nat)
    ensures v * Pow10(a) * Pow10(b) == v * Pow10(a + b)
  {
    hide Pow10;
    Pow10Sum(a, b);
    MulAssoc(v, Pow10(a), Pow10(b));
  }

  lemma PowShift(v: int, a: nat, b: nat, c: nat, d: nat)
    requires a + b == c + d
    ensures v * Pow10(a) * Pow10(b) == v * Pow10(c) * Pow10(d)
  {
    hide Pow10;
    PowJoin(v, a, b);
    PowJoin(v, c, d);
  }
}
