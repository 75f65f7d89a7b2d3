/** Parsing and printing decimals, proved against a grammar of literals and their meaning. */
module DecimalText {
  import opened Wrappers
  import opened Arith
  import opened Decimals
  import opened Text

  // ---- parsing ----

  function ParseDecimal(text: string): Option<Decimal> {
    var s := TrimSpace(text);
    var signed := s != "" && (s[0] == '-' || s[0] == '+');
    var rest := if signed then s[1..] else s;
    if rest == "" then None else ParseUnsigned(signed && s[0] == '-', rest)
  }

  const EXPONENT_MARKS: set<char> := {'e', 'E'}
  const POINT: set<char> := {'.'}

  function ParseUnsigned(minus: bool, s: string): Option<Decimal> {
    var e := IndexOf(s, EXPONENT_MARKS);
    if e < 0 then ParseMantissa(minus, s, 0)
    else if IndexOf(s[e + 1..], EXPONENT_MARKS) >= 0 then None
    else
      match ParseInt32(s[e + 1..])
      case None => None
      case Some(exponent) => ParseMantissa(minus, s[..e], exponent)
  }

  function ParseMantissa(minus: bool, mantissa: string, exponent: Int32): Option<Decimal> {
    var dot := IndexOf(mantissa, POINT);
    if mantissa == "" then None
    else if dot < 0 then Assemble(minus, mantissa, "", exponent)
    else
      var integer, fraction := mantissa[..dot], mantissa[dot + 1..];
      if IndexOf(fraction, POINT) >= 0 || (integer == "" && fraction == "") then None
      else Assemble(minus, if integer == "" then "0" else integer, fraction, exponent)
  }

  function Assemble(minus: bool, integer: string, fraction: string, exponent: Int32): Option<Decimal> {
    var digits := integer + fraction;
    var scale := |fraction| - exponent;
    if |digits| > MAX_DIGITS then None
    else if scale > MAX_INT32 || scale < -MAX_INT32 - 1 then None
    else if scale < 0 && -scale > MAX_DIGITS - |digits| then None
    else if scale > MAX_DIGITS then None
    else
      var padded := if scale < 0 then digits + Zeros(-scale) else digits;
      match SetString(if minus then "-" + padded else padded)
      case None => None
      case Some(val) => Some(Normalize(Decimal(val, if scale < 0 then 0 else scale)))
  }

  /** `ParseDecimal` with its successive updates of the text, the exponent, the digits and the scale. */
  method ParseDecimalText(text: string) returns (r: Option<Decimal>)
    ensures r == ParseDecimal(text)
  {
    hide TrimSpace;
    hide IndexOf;
    hide ParseInt32;
    hide ParseMantissa;
    var s := TrimSpace(text);
    if s == "" {
      return None;
    }
    var sign := '\0';
    if s[0] == '-' || s[0] == '+' {
      sign := s[0];
      s := s[1..];
    }
    if s == "" {
      return None;
    }
    var mantissa := s;
    var exponent: Int32 := 0;
    var exponentIdx := IndexOf(s, EXPONENT_MARKS);
    if exponentIdx >= 0 {
      if IndexOf(s[exponentIdx + 1..], EXPONENT_MARKS) >= 0 {
        return None;
      }
      mantissa := s[..exponentIdx];
      var parsed := ParseInt32(s[exponentIdx + 1..]);
      if parsed.None? {
        return None;
      }
      exponent := parsed.value;
    }
    r := ParseMantissaText(sign == '-', mantissa, exponent);
  }

  method ParseMantissaText(minus: bool, mantissa: string, exponent: Int32) returns (r: Option<Decimal>)
    ensures r == ParseMantissa(minus, mantissa, exponent)
  {
    hide IndexOf;
    hide SetString;
    hide Normalize;
    if mantissa == "" {
      return None;
    }
    var dotIdx := IndexOf(mantissa, POINT);
    if dotIdx >= 0 && IndexOf(mantissa[dotIdx + 1..], POINT) >= 0 {
      return None;
    }
    var integer, fraction := mantissa, "";
    if dotIdx >= 0 {
      integer := mantissa[..dotIdx];
      fraction := mantissa[dotIdx + 1..];
      if integer == "" && fraction == "" {
        return None;
      }
    }
    if integer == "" {
      integer := "0";
    }
    var digits := integer + fraction;
    if |digits| > MAX_DIGITS {
      return None;
    }
    var scale := |fraction| - exponent;
    if scale > MAX_INT32 || scale < -MAX_INT32 - 1 {
      return None;
    }
    if scale < 0 {
      var zeros := -scale;
      if zeros > MAX_DIGITS - |digits| {
        return None;
      }
      digits := digits + Zeros(zeros);
      scale := 0;
    }
    if scale > MAX_DIGITS {
      return None;
    }
    if minus {
      digits := "-" + digits;
    }
    var val := SetString(digits);
    if val.None? {
      return None;
    }
    var d := NormalizeLoop(Decimal(val.value, scale));
    return Some(d);
  }

  // ---- the grammar ----

  datatype Sign = Bare | Plus | Minus

  ghost function SignText(sign: Sign): (s: string)
    ensures s == "" <==> sign.Bare?
  {
    match sign
    case Bare => ""
    case Plus => "+"
    case Minus => "-"
  }

  datatype Exponent = NoExponent | Exponent(mark: char, sign: Sign, digits: string)

  /** The source strips one sign itself and lets `big.Int.SetString` take another, so a plus may be followed by a second
      sign. After a second sign the digits may even be missing, when a positive exponent supplies zeros. */
  datatype Literal = Literal(sign: Sign, inner: Sign, integer: string, point: bool, fraction: string, exponent: Exponent)

  ghost predicate Shape(l: Literal) {
    && (l.inner.Bare? || l.sign.Plus?)
    && AllDigits(l.integer) && AllDigits(l.fraction)
    && (!l.point ==> l.fraction == "")
    && (l.exponent.Exponent? ==>
      l.exponent.mark in EXPONENT_MARKS && l.exponent.digits != "" && AllDigits(l.exponent.digits))
  }

  ghost predicate WellFormed(l: Literal) {
    Shape(l) && (l.integer + l.fraction != "" || (!l.inner.Bare? && ExponentOf(l) > 0))
  }

  ghost function Mantissa(l: Literal): string {
    l.integer + (if l.point then "." + l.fraction else "")
  }

  ghost function ExponentText(x: Exponent): string {
    match x
    case NoExponent => ""
    case Exponent(mark, sign, digits) => [mark] + (SignText(sign) + digits)
  }

  ghost function Body(l: Literal): string {
    SignText(l.inner) + (Mantissa(l) + ExponentText(l.exponent))
  }

  ghost function Render(l: Literal): string {
    SignText(l.sign) + Body(l)
  }

  ghost function ExponentOf(l: Literal): int
    requires Shape(l)
  {
    match l.exponent
    case NoExponent => 0
    case Exponent(_, sign, digits) => Signed(sign.Minus?, NatOf(digits))
  }

  ghost function ScaleOf(l: Literal): int
    requires WellFormed(l)
  {
    |l.fraction| - ExponentOf(l)
  }

  /** The characters the source counts against its limit: a missing integer part counts as one digit, and so does a
      second sign. */
  ghost function Width(l: Literal): nat {
    |l.integer| + |l.fraction| + (if l.inner.Bare? && l.integer != "" then 0 else 1)
  }

  ghost predicate Bounded(l: Literal)
    requires WellFormed(l)
  {
    && -MAX_INT32 - 1 <= ExponentOf(l) <= MAX_INT32
    && ScaleOf(l) <= MAX_DIGITS
    && Width(l) + (if ScaleOf(l) < 0 then -ScaleOf(l) else 0) <= MAX_DIGITS
  }

  ghost predicate Negative(l: Literal) {
    l.sign.Minus? || l.inner.Minus?
  }

  /** The denoted number: the digits, as an integer, times ten to the exponent less the number of fraction digits. */
  ghost function Meaning(l: Literal): Decimal
    requires WellFormed(l) && -MAX_INT32 <= ScaleOf(l) <= MAX_INT32
  {
    Canonical(Decimal(Signed(Negative(l), NatOf(l.integer + l.fraction)), ScaleOf(l)))
  }

  /** The normal form with a scale that is not negative. */
  function Canonical(d: Decimal): Decimal {
    var k: int := d.scale;
    if k < 0 then Normalize(Decimal(d.val * Pow10(-k), 0)) else Normalize(d)
  }

  lemma CanonicalMeaning(d: Decimal, s: int)
    requires Holds(d, s)
    ensures IsNormal(Canonical(d)) && Canonical(d).scale >= 0 && Holds(Canonical(d), s)
    ensures At(Canonical(d), s) == At(d, s)
    ensures IsNormal(d) && d.scale >= 0 ==> Canonical(d) == d
  {
    hide Pow10;
    var k: int := d.scale;
    if k < 0 {
      AtRescale(d, 0, s);
      NormalizeMeaning(Decimal(d.val * Pow10(-k), 0), s);
    } else {
      NormalizeMeaning(d, s);
      if IsNormal(d) && d.val == 0 {
        assert Normalize(d) == d;
      }
    }
  }

  // ---- every literal parses to its meaning ----

  lemma SetStringSigned(minus: bool, digits: string)
    requires digits != "" && AllDigits(digits)
    ensures SetString(if minus then "-" + digits else digits) == Some(Signed(minus, NatOf(digits)))
    ensures SetString("+" + digits) == Some(NatOf(digits))
  {
    assert ("-" + digits)[1..] == digits;
    assert ("+" + digits)[1..] == digits;
    assert IsDigit(digits[0]);
  }

  lemma ParseIntText(sign: Sign, digits: string)
    requires digits != "" && AllDigits(digits)
    ensures var v := Signed(sign.Minus?, NatOf(digits));
            ParseInt32(SignText(sign) + digits) == if -MAX_INT32 - 1 <= v <= MAX_INT32 then Some(v) else None
  {
    hide NatOf;
    SetStringSigned(sign.Minus?, digits);
    if sign.Bare? {
      assert "" + digits == digits;
    }
  }

  lemma AssembleMeaning(minus: bool, inner: Sign, integer: string, fraction: string, exponent: Int32)
    requires minus ==> inner.Bare?
    requires AllDigits(integer) && AllDigits(fraction)
    requires integer + fraction != "" || (!inner.Bare? && exponent > 0)
    ensures var scale := |fraction| - exponent;
            Assemble(minus, SignText(inner) + integer, fraction, exponent) ==
            if scale > MAX_DIGITS || |SignText(inner) + integer + fraction| + (if scale < 0 then -scale else 0) > MAX_DIGITS
            then None
            else Some(Canonical(Decimal(Signed(minus || inner.Minus?, NatOf(integer + fraction)), scale)))
  {
    hide Normalize;
    hide NatOf;
    hide Pow10;
    hide SetString;
    hide Zeros;
    hide Assemble;
    var scale := |fraction| - exponent;
    var head := SignText(inner) + integer;
    var core := integer + fraction;
    assert head + fraction == SignText(inner) + core;
    if scale < 0 {
      AssembledValue(minus, inner, core, -scale);
      AssembleScaledUp(minus, head, fraction, exponent);
    } else {
      AssembledValue(minus, inner, core, 0);
      PowZero();
      assert head + fraction + Zeros(0) == head + fraction;
      AssembleAsIs(minus, head, fraction, exponent);
    }
  }

  lemma AssembleScaledUp(minus: bool, head: string, fraction: string, exponent: Int32)
    requires |fraction| < exponent
    ensures var k := exponent - |fraction|;
            var padded := head + fraction + Zeros(k);
            Assemble(minus, head, fraction, exponent) ==
            if |head + fraction| + k > MAX_DIGITS then None
            else match SetString(if minus then "-" + padded else padded)
                 case None => None
                 case Some(val) => Some(Normalize(Decimal(val, 0)))
  {
    hide Normalize;
    hide SetString;
    hide Zeros;
  }

  lemma AssembleAsIs(minus: bool, head: string, fraction: string, exponent: Int32)
    requires |fraction| >= exponent
    ensures var scale := |fraction| - exponent;
            Assemble(minus, head, fraction, exponent) ==
            if |head + fraction| > MAX_DIGITS || scale > MAX_DIGITS then None
            else match SetString(if minus then "-" + (head + fraction) else head + fraction)
                 case None => None
                 case Some(val) => Some(Normalize(Decimal(val, scale)))
  {
    hide Normalize;
    hide SetString;
    hide Zeros;
  }

  lemma AssembledValue(minus: bool, inner: Sign, core: string, zeros: nat)
    requires minus ==> inner.Bare?
    requires AllDigits(core) && (core != "" || zeros > 0)
    ensures var padded := SignText(inner) + core + Zeros(zeros);
            SetString(if minus then "-" + padded else padded)
            == Some(Signed(minus || inner.Minus?, NatOf(core)) * Pow10(zeros))
  {
    hide NatOf;
    hide Pow10;
    hide SetString;
    hide Zeros;
    var body := core + Zeros(zeros);
    NatOfPadded(core, zeros);
    SetStringSigned(minus || inner.Minus?, body);
    MulNeg(NatOf(core), Pow10(zeros));
    assert SignText(inner) + core + Zeros(zeros) == SignText(inner) + body;
    if inner.Bare? {
      assert "" + body == body;
    }
  }

  lemma ParseMantissaMeaning(minus: bool, l: Literal, exponent: Int32)
    requires WellFormed(l)
    ensures ParseMantissa(minus, SignText(l.inner) + Mantissa(l), exponent) ==
            Assemble(minus, if l.inner.Bare? && l.integer == "" then "0" else SignText(l.inner) + l.integer, l.fraction, exponent)
  {
    hide Assemble;
    hide ParseMantissa;
    var head := SignText(l.inner) + l.integer;
    assert Without(head, POINT) && Without(l.fraction, POINT);
    if l.point {
      assert SignText(l.inner) + Mantissa(l) == head + ("." + l.fraction);
      ParseWithPoint(minus, head, l.fraction, exponent);
      if l.integer == "" {
        assert head == SignText(l.inner);
      }
    } else {
      assert SignText(l.inner) + Mantissa(l) == head;
      ParseWithoutPoint(minus, head, exponent);
    }
  }

  lemma ParseWithoutPoint(minus: bool, head: string, exponent: Int32)
    requires head != "" && Without(head, POINT)
    ensures ParseMantissa(minus, head, exponent) == Assemble(minus, head, "", exponent)
  {
    hide Assemble;
  }

  lemma ParseWithPoint(minus: bool, head: string, fraction: string, exponent: Int32)
    requires Without(head, POINT) && Without(fraction, POINT) && head + fraction != ""
    ensures ParseMantissa(minus, head + ("." + fraction), exponent) ==
            Assemble(minus, if head == "" then "0" else head, fraction, exponent)
  {
    hide Assemble;
    hide IndexOf;
    var m := head + ("." + fraction);
    IndexOfSplit(head, "." + fraction, POINT);
    assert m[..|head|] == head && m[|head| + 1..] == fraction;
  }

  lemma ParseWithoutExponent(minus: bool, m: string)
    requires Without(m, EXPONENT_MARKS)
    ensures ParseUnsigned(minus, m) == ParseMantissa(minus, m, 0)
  {
  }

  lemma ParseWithExponent(minus: bool, m: string, mark: char, tail: string)
    requires Without(m, EXPONENT_MARKS) && mark in EXPONENT_MARKS && Without(tail, EXPONENT_MARKS)
    ensures ParseUnsigned(minus, m + ([mark] + tail)) ==
            match ParseInt32(tail)
            case None => None
            case Some(x) => ParseMantissa(minus, m, x)
  {
    hide ParseMantissa;
    hide ParseInt32;
    hide IndexOf;
    var s := m + ([mark] + tail);
    IndexOfSplit(m, [mark] + tail, EXPONENT_MARKS);
    assert s[|m| + 1..] == tail && s[..|m|] == m;
  }

  lemma ParseUnsignedMeaning(minus: bool, l: Literal)
    requires WellFormed(l)
    ensures ParseUnsigned(minus, Body(l)) ==
            if -MAX_INT32 - 1 <= ExponentOf(l) <= MAX_INT32
            then ParseMantissa(minus, SignText(l.inner) + Mantissa(l), ExponentOf(l)) else None
  {
    hide ParseUnsigned;
    hide ParseMantissa;
    hide ParseInt32;
    hide NatOf;
    hide Mantissa;
    var m := SignText(l.inner) + Mantissa(l);
    MantissaHasNoMark(l);
    match l.exponent
    case NoExponent =>
      assert Body(l) == m;
      ParseWithoutExponent(minus, m);
    case Exponent(mark, sign, digits) =>
      var tail := SignText(sign) + digits;
      assert Body(l) == m + ([mark] + tail);
      assert Without(tail, EXPONENT_MARKS);
      ParseWithExponent(minus, m, mark, tail);
      ParseIntText(sign, digits);
  }

  lemma MantissaHasNoMark(l: Literal)
    requires WellFormed(l)
    ensures Without(SignText(l.inner) + Mantissa(l), EXPONENT_MARKS)
  {
    var head := SignText(l.inner) + l.integer;
    assert Without(head, EXPONENT_MARKS) && Without(l.fraction, EXPONENT_MARKS);
    assert SignText(l.inner) + Mantissa(l) == head + (if l.point then "." + l.fraction else "");
  }

  lemma LeadingZero(fraction: string)
    requires AllDigits(fraction)
    ensures AllDigits("0" + fraction) && NatOf("0" + fraction) == NatOf(fraction)
  {
    assert Zeros(1) == "0";
    NatOfPadded(fraction, 1);
  }

  /** The text after the first sign parses to the literal's meaning, or is refused for its size. */
  lemma ParseBodyMeaning(l: Literal)
    requires WellFormed(l)
    ensures ParseUnsigned(l.sign.Minus?, Body(l)) == if Bounded(l) then Some(Meaning(l)) else None
  {
    hide ParseUnsigned;
    hide ParseMantissa;
    hide Assemble;
    hide Canonical;
    hide NatOf;
    hide Body;
    hide Mantissa;
    var minus := l.sign.Minus?;
    ParseUnsignedMeaning(minus, l);
    if -MAX_INT32 - 1 <= ExponentOf(l) <= MAX_INT32 {
      var x: Int32 := ExponentOf(l);
      ParseMantissaMeaning(minus, l, x);
      if l.inner.Bare? && l.integer == "" {
        LeadingZero(l.fraction);
        AssembleMeaning(minus, Bare, "0", l.fraction, x);
        assert l.integer + l.fraction == l.fraction;
        assert "" + "0" == "0";
      } else {
        AssembleMeaning(minus, l.inner, l.integer, l.fraction, x);
      }
    }
  }

  lemma BodyStart(l: Literal)
    requires WellFormed(l)
    ensures Body(l) != "" && (l.inner.Bare? ==> Body(l)[0] != '-' && Body(l)[0] != '+')
  {
    if l.inner.Bare? {
      if l.integer != "" {
        assert Body(l)[0] == l.integer[0];
        assert IsDigit(l.integer[0]);
      } else {
        assert Body(l)[0] == '.';
      }
    }
  }

  /** Every text that is a literal up to surrounding white space is accepted exactly when the literal is within the size
      limits, and then parses to the number it denotes. */
  lemma ParseMeaning(text: string, l: Literal)
    requires WellFormed(l) && TrimSpace(text) == Render(l)
    ensures ParseDecimal(text) == if Bounded(l) then Some(Meaning(l)) else None
  {
    hide ParseUnsigned;
    hide Meaning;
    hide Bounded;
    hide WellFormed;
    hide Body;
    hide TrimSpace;
    var s := Render(l);
    BodyStart(l);
    ParseBodyMeaning(l);
    BareInner(l);
    if l.sign.Bare? {
      assert s == Body(l);
    } else {
      assert s[1..] == Body(l);
    }
  }

  lemma BareInner(l: Literal)
    requires WellFormed(l)
    ensures l.sign.Plus? || l.inner.Bare?
  {
  }

  // ---- nothing else parses ----

  /** What `SetString` leaves of a text: at most one sign, then digits. */
  lemma SetStringAccepts(minus: bool, s: string) returns (inner: Sign, digits: string)
    requires s != "" && SetString(if minus then "-" + s else s).Some?
    ensures s == SignText(inner) + digits && digits != "" && AllDigits(digits)
    ensures minus ==> inner.Bare?
    ensures inner.Bare? <==> s[0] != '-' && s[0] != '+'
  {
    hide NatOf;
    if minus {
      assert ("-" + s)[1..] == s;
      assert IsDigit(s[0]);
    }
    if s[0] == '-' || s[0] == '+' {
      inner, digits := if s[0] == '-' then Minus else Plus, s[1..];
    } else {
      inner, digits := Bare, s;
      assert "" + s == s;
    }
  }

  lemma AssembleAccepts(minus: bool, integer: string, fraction: string, exponent: Int32) returns (inner: Sign, rest: string)
    requires integer != "" && Assemble(minus, integer, fraction, exponent).Some?
    ensures integer == SignText(inner) + rest && (minus ==> inner.Bare?)
    ensures AllDigits(rest) && AllDigits(fraction)
    ensures rest + fraction != "" || (!inner.Bare? && exponent > 0)
    ensures inner.Bare? <==> integer[0] != '-' && integer[0] != '+'
  {
    hide SetString;
    hide Normalize;
    hide Zeros;
    hide AllDigits;
    hide SignText;
    var scale := |fraction| - exponent;
    var pad := if scale < 0 then Zeros(-scale) else "";
    var padded := integer + fraction + pad;
    if scale >= 0 {
      assert padded == integer + fraction;
    }
    var digits;
    inner, digits := SetStringAccepts(minus, padded);
    SignLength(inner);
    rest := integer[|SignText(inner)|..];
    SplitAfter(integer, fraction + pad, SignText(inner), digits);
    assert digits == rest + fraction + pad;
    DigitsSplit(rest, fraction, pad);
  }

  lemma SignLength(sign: Sign)
    ensures |SignText(sign)| == if sign.Bare? then 0 else 1
  {
  }

  lemma SplitAfter(a: string, b: string, c: string, d: string)
    requires a + b == c + d && |c| <= |a|
    ensures a == c + a[|c|..] && d == a[|c|..] + b
  {
    assert (a + b)[..|a|] == a && (c + d)[..|c|] == c;
    assert (a + b)[|c|..] == a[|c|..] + b && (c + d)[|c|..] == d;
    assert a[..|c|] == (a + b)[..|c|];
  }

  lemma DigitsSplit(a: string, b: string, c: string)
    requires AllDigits(a + b + c)
    ensures AllDigits(a) && AllDigits(b)
  {
    var s := a + b + c;
    assert forall i | 0 <= i < |a| :: a[i] == s[i];
    assert forall i | 0 <= i < |b| :: b[i] == s[|a| + i];
  }

  lemma MantissaAccepts(sign: Sign, m: string, exponent: Exponent, x: Int32) returns (l: Literal)
    requires ParseMantissa(sign.Minus?, m, x).Some?
    requires sign.Bare? ==> m[0] != '-' && m[0] != '+'
    requires Shape(Literal(sign, Bare, "", false, "", exponent))
    requires x == ExponentOf(Literal(sign, Bare, "", false, "", exponent))
    ensures WellFormed(l) && l.sign == sign && l.exponent == exponent
    ensures m == SignText(l.inner) + Mantissa(l)
  {
    hide Assemble;
    hide NatOf;
    hide IndexOf;
    hide AllDigits;
    hide WellFormed;
    hide SignText;
    var dot := IndexOf(m, POINT);
    if dot < 0 {
      assert Assemble(sign.Minus?, m, "", x).Some?;
      l := PartsAccept(sign, m, false, "", exponent, x);
      assert m == SignText(l.inner) + l.integer;
      assert l.integer + "" == l.integer;
    } else {
      var integer, fraction := m[..dot], m[dot + 1..];
      l := PartsAccept(sign, integer, true, fraction, exponent, x);
      assert m == integer + ("." + fraction);
      assert m == SignText(l.inner) + (l.integer + ("." + fraction));
    }
  }

  lemma PartsAccept(sign: Sign, integer: string, point: bool, fraction: string, exponent: Exponent, x: Int32)
    returns (l: Literal)
    requires Assemble(sign.Minus?, if integer == "" then "0" else integer, fraction, x).Some?
    requires !point ==> fraction == "" && integer != ""
    requires integer == "" ==> fraction != ""
    requires sign.Bare? && integer != "" ==> integer[0] != '-' && integer[0] != '+'
    requires Shape(Literal(sign, Bare, "", false, "", exponent))
    requires x == ExponentOf(Literal(sign, Bare, "", false, "", exponent))
    ensures WellFormed(l) && l.sign == sign && l.exponent == exponent && l.point == point && l.fraction == fraction
    ensures integer == SignText(l.inner) + l.integer
  {
    hide Assemble;
    hide NatOf;
    hide AllDigits;
    hide WellFormed;
    hide SignText;
    var head := if integer == "" then "0" else integer;
    var inner, rest := AssembleAccepts(sign.Minus?, head, fraction, x);
    l := LiteralFrom(sign, inner, integer, rest, point, fraction, exponent, x);
  }

  lemma LiteralFrom(sign: Sign, inner: Sign, integer: string, rest: string, point: bool, fraction: string,
                    exponent: Exponent, x: Int32) returns (l: Literal)
    requires (if integer == "" then "0" else integer) == SignText(inner) + rest
    requires !sign.Plus? ==> inner.Bare?
    requires AllDigits(rest) && AllDigits(fraction) && (!point ==> fraction == "" && integer != "")
    requires rest + fraction != "" || (!inner.Bare? && x > 0)
    requires integer == "" ==> fraction != ""
    requires Shape(Literal(sign, Bare, "", false, "", exponent))
    requires x == ExponentOf(Literal(sign, Bare, "", false, "", exponent))
    ensures WellFormed(l) && l.sign == sign && l.exponent == exponent && l.point == point && l.fraction == fraction
    ensures integer == SignText(l.inner) + l.integer
  {
    hide NatOf;
    l := if integer == "" then Literal(sign, Bare, "", point, fraction, exponent)
         else Literal(sign, inner, rest, point, fraction, exponent);
  }

  lemma ExponentAccepts(text: string, mark: char) returns (x: Exponent)
    requires ParseInt32(text).Some? && mark in EXPONENT_MARKS
    ensures x.Exponent? && x.mark == mark && SignText(x.sign) + x.digits == text
    ensures x.digits != "" && AllDigits(x.digits)
    ensures ParseInt32(text) == Some(Signed(x.sign.Minus?, NatOf(x.digits)))
  {
    hide NatOf;
    if text[0] == '-' || text[0] == '+' {
      x := Exponent(mark, if text[0] == '-' then Minus else Plus, text[1..]);
    } else {
      x := Exponent(mark, Bare, text);
      assert "" + text == text;
    }
  }

  lemma UnsignedAccepts(sign: Sign, s: string) returns (l: Literal)
    requires ParseUnsigned(sign.Minus?, s).Some?
    requires sign.Bare? && s != "" ==> s[0] != '-' && s[0] != '+'
    ensures WellFormed(l) && l.sign == sign && s == Body(l)
  {
    hide ParseMantissa;
    hide ParseInt32;
    hide IndexOf;
    var e := IndexOf(s, EXPONENT_MARKS);
    if e < 0 {
      l := PlainAccepts(sign, s);
    } else {
      assert s == s[..e] + ([s[e]] + s[e + 1..]);
      l := MarkedAccepts(sign, s[..e], s[e], s[e + 1..]);
    }
  }

  lemma PlainAccepts(sign: Sign, m: string) returns (l: Literal)
    requires ParseMantissa(sign.Minus?, m, 0).Some?
    requires sign.Bare? && m != "" ==> m[0] != '-' && m[0] != '+'
    ensures WellFormed(l) && l.sign == sign && m == Body(l)
  {
    hide ParseMantissa;
    hide WellFormed;
    hide Mantissa;
    NonEmptyMantissa(sign.Minus?, m, 0);
    l := MantissaAccepts(sign, m, NoExponent, 0);
    assert Mantissa(l) + "" == Mantissa(l);
  }

  lemma MarkedAccepts(sign: Sign, m: string, mark: char, tail: string) returns (l: Literal)
    requires mark in EXPONENT_MARKS && ParseInt32(tail).Some?
    requires ParseMantissa(sign.Minus?, m, ParseInt32(tail).value).Some?
    requires sign.Bare? && m != "" ==> m[0] != '-' && m[0] != '+'
    ensures WellFormed(l) && l.sign == sign && m + ([mark] + tail) == Body(l)
  {
    hide ParseMantissa;
    hide ParseInt32;
    hide WellFormed;
    hide Mantissa;
    hide NatOf;
    var v := ParseInt32(tail).value;
    NonEmptyMantissa(sign.Minus?, m, v);
    var x := ExponentAccepts(tail, mark);
    l := MantissaAccepts(sign, m, x, v);
    assert m + ([mark] + tail) == SignText(l.inner) + (Mantissa(l) + ([mark] + tail));
  }

  lemma NonEmptyMantissa(minus: bool, m: string, x: Int32)
    requires ParseMantissa(minus, m, x).Some?
    ensures m != ""
  {
  }

  lemma AcceptedLiteral(text: string) returns (l: Literal)
    requires ParseDecimal(text).Some?
    ensures WellFormed(l) && TrimSpace(text) == Render(l)
  {
    hide ParseUnsigned;
    hide TrimSpace;
    hide WellFormed;
    hide Body;
    var s := TrimSpace(text);
    if s[0] == '-' || s[0] == '+' {
      var sign := if s[0] == '-' then Minus else Plus;
      l := UnsignedAccepts(sign, s[1..]);
    } else {
      l := UnsignedAccepts(Bare, s);
      assert "" + s == s;
    }
  }

  /** Exactly the bounded literals parse. */
  lemma ParseAccepts(text: string)
    ensures ParseDecimal(text).Some? <==> exists l :: WellFormed(l) && Bounded(l) && TrimSpace(text) == Render(l)
  {
    hide ParseDecimal;
    hide WellFormed;
    hide Bounded;
    hide Render;
    hide TrimSpace;
    if ParseDecimal(text).Some? {
      var l := AcceptedLiteral(text);
      ParseMeaning(text, l);
    }
    forall l | WellFormed(l) && Bounded(l) && TrimSpace(text) == Render(l)
      ensures ParseDecimal(text).Some?
    {
      ParseMeaning(text, l);
    }
  }

  ghost predicate InParsedForm(d: Decimal) {
    IsNormal(d) && 0 <= d.scale <= MAX_DIGITS
  }

  lemma AssembledForm(minus: bool, integer: string, fraction: string, exponent: Int32)
    ensures var r := Assemble(minus, integer, fraction, exponent); r.Some? ==> InParsedForm(r.value)
  {
    hide SetString;
    hide Normalize;
    hide Zeros;
    var scale := |fraction| - exponent;
    var sc := if scale < 0 then 0 else scale;
    var padded := if scale < 0 then integer + fraction + Zeros(-scale) else integer + fraction;
    var val := SetString(if minus then "-" + padded else padded);
    if val.Some? && sc <= MAX_DIGITS {
      NormalizeMeaning(Decimal(val.value, sc), sc);
      NormalizeScale(Decimal(val.value, sc));
    }
  }

  lemma MantissaForm(minus: bool, m: string, exponent: Int32)
    ensures var r := ParseMantissa(minus, m, exponent); r.Some? ==> InParsedForm(r.value)
  {
    hide Assemble;
    hide InParsedForm;
    hide IndexOf;
    var dot := IndexOf(m, POINT);
    if dot < 0 {
      AssembledForm(minus, m, "", exponent);
    } else {
      AssembledForm(minus, if m[..dot] == "" then "0" else m[..dot], m[dot + 1..], exponent);
    }
  }

  /** Parsing yields a normal form whose scale lies between 0 and the digit limit. */
  lemma ParsedIsNormal(text: string)
    ensures ParseDecimal(text).Some? ==>
      IsNormal(ParseDecimal(text).value) && 0 <= ParseDecimal(text).value.scale <= MAX_DIGITS
  {
    hide TrimSpace;
    hide ParseUnsigned;
    hide IsNormal;
    var s := TrimSpace(text);
    if s != "" {
      UnsignedForm(false, s);
      UnsignedForm(s[0] == '-', s[1..]);
    }
  }

  lemma UnsignedForm(minus: bool, s: string)
    ensures var r := ParseUnsigned(minus, s); r.Some? ==> InParsedForm(r.value)
  {
    hide ParseMantissa;
    hide InParsedForm;
    hide ParseInt32;
    hide IndexOf;
    var e := IndexOf(s, EXPONENT_MARKS);
    if e < 0 {
      MantissaForm(minus, s, 0);
    } else if ParseInt32(s[e + 1..]).Some? {
      MantissaForm(minus, s[..e], ParseInt32(s[e + 1..]).value);
    }
  }

  // ---- printing ----

  /** The digits of the magnitude with the point put in `scale` places from the right. */
  function PlaceDigits(raw: string, scale: int): string {
    if scale <= 0 then raw + Zeros(-scale)
    else if |raw| <= scale then "0." + Zeros(scale - |raw|) + raw
    else raw[..|raw| - scale] + "." + raw[|raw| - scale..]
  }

  function Print(d: Decimal): string {
    if d.val == 0 then "0"
    else (if d.val < 0 then "-" else "") + PlaceDigits(Digits(Abs(d.val)), d.scale)
  }

  /** The zero-writing loops of `String`. */
  method WriteZeros(prefix: string, n: int) returns (res: string)
    ensures res == prefix + Zeros(if n < 0 then 0 else n)
  {
    res := prefix;
    var i := 0;
    while i < n
      invariant 0 <= i && (i <= n || i == 0)
      invariant res == prefix + Zeros(i)
    {
      res := res + "0";
      assert Zeros(i + 1) == Zeros(i) + "0";
      i := i + 1;
    }
  }

  /** The part of `String` after the sign. */
  method WriteMagnitude(raw: string, scale: int) returns (res: string)
    ensures res == PlaceDigits(raw, scale)
  {
    hide Zeros;
    if scale <= 0 {
      res := WriteZeros(raw, -scale);
    } else if |raw| <= scale {
      res := WriteZeros("0.", scale - |raw|);
      res := res + raw;
    } else {
      var splitIdx := |raw| - scale;
      res := raw[..splitIdx] + "." + raw[splitIdx..];
    }
  }

  /** `String`. */
  method PrintText(d: Decimal) returns (res: string)
    ensures res == Print(d)
  {
    hide PlaceDigits;
    hide Digits;
    if d.val == 0 {
      return "0";
    }
    var magnitude := WriteMagnitude(Digits(Abs(d.val)), d.scale);
    res := (if d.val < 0 then "-" else "") + magnitude;
  }

  /** The printed text as a literal. */
  ghost function Printed(d: Decimal): Literal {
    var raw, scale := Digits(Abs(d.val)), if d.val == 0 then 0 else d.scale;
    var sign := if d.val < 0 then Minus else Bare;
    if scale <= 0 then Literal(sign, Bare, raw + Zeros(-scale), false, "", NoExponent)
    else if |raw| <= scale then Literal(sign, Bare, "0", true, Zeros(scale - |raw|) + raw, NoExponent)
    else Literal(sign, Bare, raw[..|raw| - scale], true, raw[|raw| - scale..], NoExponent)
  }

  /** How many digits the text shows. */
  ghost function PrintedDigits(d: Decimal): nat {
    |Printed(d).integer| + |Printed(d).fraction|
  }

  lemma PrintedParts(d: Decimal)
    ensures var l := Printed(d);
            && WellFormed(l) && l.inner.Bare? && l.exponent.NoExponent? && l.integer != ""
            && Width(l) == PrintedDigits(d) && |l.fraction| == (if d.val == 0 || d.scale < 0 then 0 else d.scale)
            && Negative(l) == (d.val < 0)
  {
    hide Digits;
    hide Zeros;
    var raw, scale := Digits(Abs(d.val)), if d.val == 0 then 0 else d.scale;
    if scale > 0 && |raw| > scale {
      DigitsSplit("", raw[..|raw| - scale], raw[|raw| - scale..]);
    }
  }

  lemma PlaceIsMantissa(d: Decimal)
    requires d.val != 0
    ensures PlaceDigits(Digits(Abs(d.val)), d.scale) == Mantissa(Printed(d))
  {
    hide Digits;
    hide Zeros;
  }

  lemma PrintRenders(d: Decimal)
    ensures Print(d) == Render(Printed(d))
  {
    hide Digits;
    hide Zeros;
    hide PlaceDigits;
    hide Mantissa;
    hide Printed;
    var l := Printed(d);
    PrintedParts(d);
    PrintedSign(d);
    assert Render(l) == SignText(l.sign) + Mantissa(l);
    if d.val == 0 {
      PrintedZero(d);
    } else {
      PlaceIsMantissa(d);
    }
  }

  lemma PrintedZero(d: Decimal)
    requires d.val == 0
    ensures Mantissa(Printed(d)) == "0"
  {
    DigitsOfZero();
  }

  lemma DigitsOfZero()
    ensures Digits(0) == "0" && Zeros(0) == ""
  {
  }

  /** The printed digits denote the decimal's own number. */
  lemma PrintedMeaning(d: Decimal)
    ensures WellFormed(Printed(d)) && -MAX_INT32 <= ScaleOf(Printed(d)) <= MAX_INT32
    ensures Meaning(Printed(d)) == Canonical(d)
  {
    hide Digits;
    hide Zeros;
    hide NatOf;
    hide Pow10;
    hide Normalize;
    PrintedParts(d);
    var l := Printed(d);
    var n := Abs(d.val);
    var raw := Digits(n);
    NatOfDigits(n);
    var k: int := d.scale;
    if d.val == 0 {
      DigitsOfZero();
      assert l.integer + l.fraction == raw;
      CanonicalZero(d.scale);
      CanonicalZero(0);
    } else if k <= 0 {
      NatOfPadded(raw, -k);
      assert l.integer + l.fraction == raw + Zeros(-k);
      SignedProduct(d.val, Pow10(-k));
      PowZero();
    } else if |raw| <= k {
      NatOfPadded(raw, k - |raw|);
      LeadingZero(Zeros(k - |raw|) + raw);
      assert l.integer + l.fraction == "0" + (Zeros(k - |raw|) + raw);
    } else {
      assert l.integer + l.fraction == raw;
    }
  }

  lemma SignedProduct(v: int, p: int)
    ensures Signed(v < 0, Abs(v) * p) == v * p
  {
    MulNeg(v, p);
  }

  lemma CanonicalZero(scale: Int32)
    ensures Canonical(Decimal(0, scale)) == ZERO
  {
  }

  lemma PrintHasNoSpace(d: Decimal)
    ensures TrimSpace(Print(d)) == Print(d)
  {
    hide TrimSpace;
    hide Print;
    hide Printed;
    hide SignText;
    PrintRenders(d);
    PrintedParts(d);
    PointHasFraction(d);
    PrintedSign(d);
    var l := Printed(d);
    var s := Print(d);
    assert s == SignText(l.sign) + (l.integer + (if l.point then "." + l.fraction else ""));
    SignStart(l.sign, l.integer);
    assert s[0] == (SignText(l.sign) + l.integer)[0];
    var last := if l.point then l.fraction else l.integer;
    assert s[|s| - 1] == last[|last| - 1];
    NothingToTrim(s);
  }

  lemma SignStart(sign: Sign, digits: string)
    requires digits != "" && AllDigits(digits)
    ensures !IsSpace((SignText(sign) + digits)[0])
  {
    assert IsDigit(digits[0]);
  }

  lemma PointHasFraction(d: Decimal)
    ensures Printed(d).point ==> Printed(d).fraction != ""
  {
    hide Digits;
    hide Zeros;
  }

  /** Printing and parsing a decimal gives back its number in normal form, exactly when the print shows no more digits
      than the parser's limit; a longer print is refused. */
  lemma RoundTrip(d: Decimal)
    ensures ParseDecimal(Print(d)) == if PrintedDigits(d) <= MAX_DIGITS then Some(Canonical(d)) else None
  {
    hide ParseDecimal;
    hide Canonical;
    hide TrimSpace;
    hide Printed;
    hide Render;
    hide Meaning;
    PrintRenders(d);
    PrintHasNoSpace(d);
    PrintedParts(d);
    PrintedMeaning(d);
    ParseMeaning(Print(d), Printed(d));
  }

  /** A normal form with a scale that is not negative comes back as itself. */
  lemma RoundTripNormal(d: Decimal)
    requires IsNormal(d) && d.scale >= 0 && PrintedDigits(d) <= MAX_DIGITS
    ensures ParseDecimal(Print(d)) == Some(d)
  {
    hide ParseDecimal;
    hide PrintedDigits;
    RoundTrip(d);
    CanonicalMeaning(d, d.scale);
  }

  /** `1e-1000` parses, but prints 1001 digits, which do not parse. */
  lemma LongestFraction()
    ensures ParseDecimal("1e-1000") == Some(Decimal(1, 1000))
    ensures ParseDecimal(Print(Decimal(1, 1000))) == None
  {
    hide ParseDecimal;
    hide TrimSpace;
    hide Render;
    hide Canonical;
    hide Print;
    var l := LongestLiteral();
    NothingToTrim("1e-1000");
    ParseMeaning("1e-1000", l);
    CanonicalMeaning(Decimal(1, 1000), 1000);
    RoundTrip(Decimal(1, 1000));
    assert Digits(1) == "1";
  }

  lemma LongestLiteral() returns (l: Literal)
    ensures WellFormed(l) && Render(l) == "1e-1000" && Bounded(l)
    ensures Meaning(l) == Canonical(Decimal(1, 1000))
  {
    hide Canonical;
    l := Literal(Bare, Bare, "1", false, "", Exponent('e', Minus, "1000"));
    ThousandDigits();
    assert l.integer + l.fraction == "1" && NatOf("1") == 1;
    LongestText(l);
  }

  lemma LongestText(l: Literal)
    requires l == Literal(Bare, Bare, "1", false, "", Exponent('e', Minus, "1000"))
    ensures Render(l) == "1e-1000"
  {
    assert Mantissa(l) == "1";
    assert ExponentText(l.exponent) == "e-1000";
    assert Body(l) == "" + ("1" + "e-1000") == "1e-1000";
  }

  lemma ThousandDigits()
    ensures NatOf("1000") == 1000
  {
    assert "1000"[..3] == "100" && "100"[..2] == "10" && "10"[..1] == "1";
    assert NatOf("1") == 1 && NatOf("10") == 10 && NatOf("100") == 100;
  }

  // ---- equal prints ----

  lemma PrintSplits(d: Decimal)
    ensures var l := Printed(d);
            var s := Print(d);
            var at := IndexOf(s, POINT);
            && (at < 0 <==> !l.point)
            && (if l.point then s[..at] == SignText(l.sign) + l.integer && s[at + 1..] == l.fraction
                else s == SignText(l.sign) + l.integer)
  {
    hide IndexOf;
    hide Printed;
    hide Print;
    hide Render;
    hide Mantissa;
    hide SignText;
    PrintRenders(d);
    PrintedParts(d);
    var l := Printed(d);
    RenderPlain(l);
    var s, head := Print(d), SignText(l.sign) + l.integer;
    HeadHasNoPoint(l.sign, l.integer);
    if l.point {
      IndexOfSplit(head, "." + l.fraction, POINT);
      assert s[..|head|] == head && s[|head| + 1..] == l.fraction;
    } else {
      assert s == head;
      IndexOfSplit(head, "", POINT);
    }
  }

  lemma RenderPlain(l: Literal)
    requires l.inner.Bare? && l.exponent.NoExponent?
    ensures Render(l) == SignText(l.sign) + l.integer + (if l.point then "." + l.fraction else "")
  {
  }

  lemma HeadHasNoPoint(sign: Sign, integer: string)
    requires AllDigits(integer)
    ensures Without(SignText(sign) + integer, POINT)
  {
  }

  lemma SignSplits(a: Sign, x: string, b: Sign, y: string)
    requires a.Bare? || a.Minus?
    requires b.Bare? || b.Minus?
    requires x != "" && y != "" && IsDigit(x[0]) && IsDigit(y[0])
    requires SignText(a) + x == SignText(b) + y
    ensures a == b && x == y
  {
    var s, t := SignText(a) + x, SignText(b) + y;
    assert a.Bare? ==> s == x;
    assert b.Bare? ==> t == y;
    assert a.Minus? ==> s[0] == '-' && s[1..] == x;
    assert b.Minus? ==> t[0] == '-' && t[1..] == y;
  }

  lemma PrintedBySplits(a: Decimal, b: Decimal)
    requires Print(a) == Print(b)
    ensures Printed(a) == Printed(b)
  {
    hide Print;
    hide IndexOf;
    hide Printed;
    PrintSplits(a);
    PrintSplits(b);
    PrintedParts(a);
    PrintedParts(b);
    PrintedSign(a);
    PrintedSign(b);
    var l, m := Printed(a), Printed(b);
    SignSplits(l.sign, l.integer, m.sign, m.integer);
  }

  lemma PrintedSign(d: Decimal)
    ensures Printed(d).sign == if d.val < 0 then Minus else Bare
    ensures !Printed(d).point ==> Printed(d).fraction == ""
  {
  }

  /** The digits printed after the point. */
  function Places(d: Decimal): nat {
    if d.val == 0 || d.scale <= 0 then 0 else d.scale
  }

  /** No zero is printed at the end of the places. */
  predicate PrintsPlainly(d: Decimal) {
    d.val == 0 || d.scale <= 0 || d.val % 10 != 0
  }

  lemma {:induction false} DigitsPadded(n: nat, k: nat)
    requires n > 0
    ensures n * Pow10(k) > 0 && Digits(n * Pow10(k)) == Digits(n) + Zeros(k)
  {
    if k == 0 {
      PowZero();
      assert Digits(n) + Zeros(0) == Digits(n);
    } else {
      DigitsPadded(n, k - 1);
      TenTimes(n, k - 1);
      NextDigit(n * Pow10(k - 1));
      assert Zeros(k) == Zeros(k - 1) + "0";
    }
  }

  lemma NextDigit(m: nat)
    requires m > 0
    ensures Digits(10 * m) == Digits(m) + "0"
  {
    assert (10 * m) / 10 == m && (10 * m) % 10 == 0;
  }

  /** A whole number is printed as the digits of its value. */
  lemma PrintWhole(d: Decimal)
    requires d.val != 0 && d.scale <= 0
    ensures At(d, 0) != 0 && (At(d, 0) < 0 <==> d.val < 0)
    ensures Print(d) == (if At(d, 0) < 0 then "-" else "") + Digits(Abs(At(d, 0)))
  {
    hide Pow10, Digits, Zeros;
    var k: int := d.scale;
    DigitsPadded(Abs(d.val), -k);
    MulNeg(d.val, Pow10(-k));
  }

  lemma CanonicalAt(a: Decimal, b: Decimal, s: int)
    requires Holds(a, s) && Holds(b, s)
    ensures Canonical(a) == Canonical(b) <==> At(a, s) == At(b, s)
  {
    hide Pow10, Canonical, Cmp;
    CanonicalMeaning(a, s);
    CanonicalMeaning(b, s);
    var c, e := Canonical(a), Canonical(b);
    if At(a, s) == At(b, s) {
      NormalFormUnique(c, e);
      CmpMeaning(c, e, s);
    }
  }

  lemma SameAt(a: Decimal, b: Decimal)
    requires Canonical(a) == Canonical(b) && Places(a) == Places(b)
    ensures Print(a) == Print(b)
  {
    hide Pow10, Canonical, Print;
    var s := if Places(a) > 0 then Places(a) else 0;
    var t := if a.scale > s then a.scale as int else s;
    var u := if b.scale > t then b.scale as int else t;
    CanonicalAt(a, b, u);
    SignAt(a, u);
    SignAt(b, u);
    if a.val == 0 {
      ZeroPrints(a);
      ZeroPrints(b);
    } else if s > 0 {
      assert a.scale == b.scale == s;
      MulCancel(a.val, b.val, Pow10(u - s));
    } else {
      CanonicalAt(a, b, 0);
      PrintWhole(a);
      PrintWhole(b);
    }
  }

  lemma SignAt(d: Decimal, s: int)
    requires s >= d.scale
    ensures At(d, s) == 0 <==> d.val == 0
  {
    MulCancel(d.val, 0, Pow10(s - d.scale));
  }

  lemma ZeroPrints(d: Decimal)
    requires d.val == 0
    ensures Print(d) == "0"
  {
  }

  /** Two decimals print alike exactly when they are the same number printed with the same number of places. */
  lemma PrintTellsApart(a: Decimal, b: Decimal)
    ensures Print(a) == Print(b) <==> Canonical(a) == Canonical(b) && Places(a) == Places(b)
  {
    hide Print, Canonical, Meaning, Printed;
    if Print(a) == Print(b) {
      PrintedBySplits(a, b);
      PrintedMeaning(a);
      PrintedMeaning(b);
      PrintedParts(a);
      PrintedParts(b);
    }
    if Canonical(a) == Canonical(b) && Places(a) == Places(b) {
      SameAt(a, b);
    }
  }

  lemma CanonicalCmp(a: Decimal, b: Decimal)
    requires Aligns(a, b)
    ensures Cmp(a, b) == 0 <==> Canonical(a) == Canonical(b)
  {
    hide Pow10, Canonical, Cmp;
    var s := if a.scale > 0 then a.scale as int else 0;
    var t := if b.scale > s then b.scale as int else s;
    CanonicalAt(a, b, t);
    CmpMeaning(a, b, t);
  }

  lemma CanonicalTwice(d: Decimal)
    ensures Canonical(Canonical(d)) == Canonical(d)
    ensures IsNormal(Canonical(d)) && Canonical(d).scale >= 0
  {
    hide Canonical;
    var s := if d.scale > 0 then d.scale as int else 0;
    CanonicalMeaning(d, s);
    CanonicalMeaning(Canonical(d), s);
  }

  lemma CanonicalPlaces(d: Decimal)
    ensures Places(Canonical(d)) == Places(d) <==> PrintsPlainly(d)
  {
    hide Pow10;
  }

  /** A decimal prints like its own normal form exactly when it prints plainly. */
  lemma PrintsNormallyIff(d: Decimal)
    ensures Print(d) == Print(Canonical(d)) <==> PrintsPlainly(d)
  {
    hide Print, Canonical, PrintsPlainly, Places;
    PrintTellsApart(d, Canonical(d));
    CanonicalTwice(d);
    CanonicalPlaces(d);
  }

  /** On decimals that print plainly, equal prints and equal numbers coincide. */
  lemma PrintInjective(a: Decimal, b: Decimal)
    requires PrintsPlainly(a) && PrintsPlainly(b) && Aligns(a, b)
    ensures Print(a) == Print(b) <==> Cmp(a, b) == 0
  {
    hide Print, Canonical, Cmp, PrintsPlainly, Places;
    PrintTellsApart(a, b);
    CanonicalCmp(a, b);
    CanonicalPlaces(a);
    CanonicalPlaces(b);
  }

  /** 1.50 and 1.5 are equal numbers with different prints. */
  lemma PrintNotInjectiveOffNormalForm()
    ensures Cmp(Decimal(150, 2), Decimal(15, 1)) == 0
    ensures Print(Decimal(150, 2)) == "1.50" && Print(Decimal(15, 1)) == "1.5"
  {
    assert Pow10(1) == 10;
    assert Digits(1) == "1" && Digits(15) == "15" && Digits(150) == "150";
    assert "150"[..1] == "1" && "150"[1..] == "50" && "15"[..1] == "1" && "15"[1..] == "5";
  }
}
