/** Small facts about integer products and quotients, stated one at a time to keep the proofs that use them linear. */
module Arith {
  lemma MulComm(a: int, b: int)
    ensures a * b == b * a
  {
  }

  lemma MulAssoc(a: int, b: int, c: int)
    ensures a * b * c == a * (b * c)
  {
  }

  lemma MulAdd(a: int, b: int, k: int)
    ensures (a + b) * k == a * k + b * k
    ensures (a - b) * k == a * k - b * k
  {
  }

  lemma MulNeg(a: int, k: int)
    ensures (-a) * k == -(a * k)
  {
  }

  lemma MulPositive(a: int, k: int)
    requires a > 0 && k > 0
    ensures a * k > 0
  {
  }

  /** Multiplying by a positive number keeps order. */
  lemma MulCancel(a: int, b: int, k: int)
    requires k > 0
    ensures a * k < b * k <==> a < b
    ensures a * k == b * k <==> a == b
  {
    MulAdd(a, b, k);
    MulAdd(b, a, k);
    if a < b {
      MulPositive(b - a, k);
    } else if a > b {
      MulPositive(a - b, k);
    }
  }

  lemma MulInterchange(a: int, b: int, p: int, q: int)
    ensures (a * b) * (p * q) == (a * p) * (b * q)
  {
    MulAssoc(a, b, p * q);
    MulAssoc(b, p, q);
    MulComm(b, p);
    MulAssoc(p, b, q);
    MulAssoc(a, p, b * q);
  }

  function Abs(x: int): nat {
    if x < 0 then -x else x
  }

  lemma DivMod(a: nat, m: int)
    requires m != 0
    ensures a == (a / m) * m + a % m && 0 <= a % m < Abs(m)
    ensures (a / m) * m >= 0
  {
    MulComm(a / m, m);
    if m < 0 {
      DivisorSign(a, m);
    }
  }

  lemma DivisorSign(a: nat, m: int)
    requires m < 0
    ensures (a / m) * m >= 0
  {
  }
}
