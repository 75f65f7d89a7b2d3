/** Validation and quantization of the desired quotes, with the duplicate check by text. */
module Targets {
  import Arith
  import opened Decimals
  import opened DecimalRounding
  import opened Text
  import opened DecimalText
  import opened Ledger
  import opened QuoteDiff

  datatype Config = Config(symbol: string, tolerance: Decimal, tick: Decimal, lot: Decimal)

  datatype TargetError =
    | SymbolRequired | NegativeTolerance | StepsNotPositive
    | InvalidSide | NotPositive | QuantizedAway | DuplicateQuote

  datatype Normalized = Clean(quotes: seq<Quote>) | Refused(error: TargetError)

  datatype Cleaned = Good(quote: Quote) | Bad(error: TargetError)

  function Quantized(c: Config, t: Quote): Quote {
    t.(side := ToLower(TrimSpace(t.side)),
       price := if c.tick.val == 0 then t.price else RoundToTick(t.price, c.tick),
       amount := if c.lot.val == 0 then t.amount else RoundToTick(t.amount, c.lot))
  }

  function CleanQuote(c: Config, t: Quote): Cleaned {
    var q := Quantized(c, t);
    if !ValidSide(q.side) then Bad(InvalidSide)
    else if !IsPositive(t.price) || !IsPositive(t.amount) then Bad(NotPositive)
    else if !IsPositive(q.price) || !IsPositive(q.amount) then Bad(QuantizedAway)
    else Good(q)
  }

  function Key(q: Quote): string {
    q.side + "|" + Print(q.price) + "|" + Print(q.amount)
  }

  function Keys(qs: seq<Quote>): set<string> {
    set q | q in qs :: Key(q)
  }

  function CleanAll(c: Config, targets: seq<Quote>): Normalized {
    if targets == [] then Clean([])
    else
      match CleanAll(c, targets[..|targets| - 1])
      case Refused(e) => Refused(e)
      case Clean(qs) =>
        match CleanQuote(c, targets[|targets| - 1])
        case Bad(e) => Refused(e)
        case Good(q) => if Key(q) in Keys(qs) then Refused(DuplicateQuote) else Clean(qs + [q])
  }

  function NormalizeTargets(c: Config, targets: seq<Quote>): Normalized {
    if c.symbol == "" then Refused(SymbolRequired)
    else if c.tolerance.val < 0 then Refused(NegativeTolerance)
    else if c.tick.val < 0 || c.lot.val < 0 then Refused(StepsNotPositive)
    else CleanAll(c, targets)
  }

  lemma {:induction false} RefusedStays(c: Config, targets: seq<Quote>, k: nat)
    requires k <= |targets| && CleanAll(c, targets[..k]).Refused?
    ensures CleanAll(c, targets) == CleanAll(c, targets[..k])
    decreases |targets| - k
  {
    hide CleanQuote;
    hide Key;
    if k == |targets| {
      assert targets[..k] == targets;
    } else {
      assert targets[..k + 1][..k] == targets[..k];
      RefusedStays(c, targets, k + 1);
    }
  }

  /** `normalizeTargets`: one pass over the targets with the set of keys seen so far. */
  method NormalizeTargetsLoop(c: Config, targets: seq<Quote>) returns (r: Normalized)
    ensures r == NormalizeTargets(c, targets)
  {
    hide CleanQuote;
    hide Key;
    if c.symbol == "" {
      return Refused(SymbolRequired);
    }
    if c.tolerance.val < 0 {
      return Refused(NegativeTolerance);
    }
    if c.tick.val < 0 || c.lot.val < 0 {
      return Refused(StepsNotPositive);
    }
    var quotes: seq<Quote> := [];
    var seen: set<string> := {};
    for i := 0 to |targets|
      invariant CleanAll(c, targets[..i]) == Clean(quotes) && seen == Keys(quotes)
    {
      assert targets[..i + 1][..i] == targets[..i];
      var cleaned := CleanQuote(c, targets[i]);
      if cleaned.Bad? {
        RefusedStays(c, targets, i + 1);
        return Refused(cleaned.error);
      }
      var key := Key(cleaned.quote);
      if key in seen {
        RefusedStays(c, targets, i + 1);
        return Refused(DuplicateQuote);
      }
      seen := seen + {key};
      quotes := quotes + [cleaned.quote];
    }
    assert targets[..|targets|] == targets;
    return Clean(quotes);
  }

  // ---- what the accepted targets satisfy ----

  const BAR: set<char> := {'|'}

  lemma PrintHasNoBar(d: Decimal)
    ensures Without(Print(d), BAR)
  {
    hide Print;
    hide Render;
    hide Printed;
    PrintRenders(d);
    PrintedParts(d);
    RenderPlain(Printed(d));
    var l := Printed(d);
    assert Without(SignText(l.sign), BAR) && Without(l.integer, BAR) && Without(l.fraction, BAR);
  }

  lemma SplitAtBar(a: string, b: string, c: string, d: string)
    requires Without(a, BAR) && Without(c, BAR) && a + ("|" + b) == c + ("|" + d)
    ensures a == c && b == d
  {
    var s := a + ("|" + b);
    IndexOfSplit(a, "|" + b, BAR);
    IndexOfSplit(c, "|" + d, BAR);
    assert s[..|a|] == a && s[|a| + 1..] == b;
    assert s[..|c|] == c && s[|c| + 1..] == d;
  }

  /** Equal keys mean equal sides, equal price texts and equal amount texts. */
  lemma KeyInjective(a: Quote, b: Quote)
    requires ValidSide(a.side) && ValidSide(b.side)
    ensures Key(a) == Key(b) <==> a.side == b.side && Print(a.price) == Print(b.price) && Print(a.amount) == Print(b.amount)
  {
    hide Print;
    if Key(a) == Key(b) {
      PrintHasNoBar(a.price);
      PrintHasNoBar(b.price);
      var x, y := Print(a.price) + ("|" + Print(a.amount)), Print(b.price) + ("|" + Print(b.amount));
      assert Key(a) == a.side + ("|" + x);
      assert Key(b) == b.side + ("|" + y);
      SplitAtBar(a.side, x, b.side, y);
      SplitAtBar(Print(a.price), Print(a.amount), Print(b.price), Print(b.amount));
    }
  }

  /** Price and amount print plainly: no zero at the end of the places. */
  predicate PlainQuote(q: Quote) {
    PrintsPlainly(q.price) && PrintsPlainly(q.amount)
  }

  /** Comparing the two quotes does not overflow the 32-bit scale difference. */
  predicate Comparable(a: Quote, b: Quote) {
    Aligns(a.price, b.price) && Aligns(a.amount, b.amount)
  }

  predicate SamePlaces(a: Quote, b: Quote) {
    Places(a.price) == Places(b.price) && Places(a.amount) == Places(b.amount)
  }

  /** The text key takes two quotes for the same exactly when they are equal and written with the same numbers of places. */
  lemma KeyMeansEqualAsWritten(a: Quote, b: Quote)
    requires ValidSide(a.side) && ValidSide(b.side) && Comparable(a, b)
    ensures Key(a) == Key(b) <==> EqualQuotes(a, b) && SamePlaces(a, b)
  {
    hide Print, Cmp, Key, Canonical, Places;
    KeyInjective(a, b);
    PrintTellsApart(a.price, b.price);
    PrintTellsApart(a.amount, b.amount);
    CanonicalCmp(a.price, b.price);
    CanonicalCmp(a.amount, b.amount);
  }

  /** So on plain quotes it tells apart exactly the quotes that differ in side, price or amount. */
  lemma KeyMeansEqual(a: Quote, b: Quote)
    requires ValidSide(a.side) && ValidSide(b.side) && Comparable(a, b) && PlainQuote(a) && PlainQuote(b)
    ensures Key(a) == Key(b) <==> EqualQuotes(a, b)
  {
    hide Print, Cmp, Key, PrintsPlainly;
    KeyInjective(a, b);
    PrintInjective(a.price, b.price);
    PrintInjective(a.amount, b.amount);
  }

  /** The same quote with its numbers in normal form. */
  function Tidy(q: Quote): Quote {
    q.(price := Canonical(q.price), amount := Canonical(q.amount))
  }

  /** The check recognizes a quote and its tidy form as duplicates exactly when the quote is plain: any other quote has an
      equal one that the check lets through beside it. */
  lemma DuplicateFoundIffPlain(q: Quote)
    requires ValidSide(q.side)
    ensures Key(q) == Key(Tidy(q)) <==> PlainQuote(q)
    ensures Comparable(q, Tidy(q)) ==> EqualQuotes(q, Tidy(q))
  {
    hide Print, Cmp, Key, Canonical, PrintsPlainly;
    KeyInjective(q, Tidy(q));
    PrintsNormallyIff(q.price);
    PrintsNormallyIff(q.amount);
    CanonicalTwice(q.price);
    CanonicalTwice(q.amount);
    if Comparable(q, Tidy(q)) {
      CanonicalCmp(q.price, Canonical(q.price));
      CanonicalCmp(q.amount, Canonical(q.amount));
    }
  }

  /** 1.50 and 1.5 are the same price under different keys. */
  lemma KeyMissesDuplicates()
    ensures var a, b := Quote("buy", Decimal(150, 2), Decimal(1, 0), ""), Quote("buy", Decimal(15, 1), Decimal(1, 0), "");
            EqualQuotes(a, b) && Key(a) != Key(b)
  {
    hide Print;
    hide Key;
    var a, b := Quote("buy", Decimal(150, 2), Decimal(1, 0), ""), Quote("buy", Decimal(15, 1), Decimal(1, 0), "");
    PrintNotInjectiveOffNormalForm();
    CmpSelf(Decimal(1, 0));
    KeyInjective(a, b);
    assert Print(a.price)[3] != Print(b.price)[2];
  }

  /** Accepted targets are the quantized inputs in order; each has a valid side, a positive price and a positive amount, and
      no two have the same key. */
  lemma {:induction false} CleanTargets(c: Config, targets: seq<Quote>)
    requires CleanAll(c, targets).Clean?
    ensures var qs := CleanAll(c, targets).quotes;
            && |qs| == |targets|
            && (forall i | 0 <= i < |qs| :: qs[i] == Quantized(c, targets[i]))
            && (forall i | 0 <= i < |qs| :: ValidSide(qs[i].side) && IsPositive(qs[i].price) && IsPositive(qs[i].amount))
            && (forall i, j | 0 <= i < j < |qs| :: Key(qs[i]) != Key(qs[j]))
  {
    hide Quantized;
    hide Key;
    if targets != [] {
      CleanTargets(c, targets[..|targets| - 1]);
      var init := CleanAll(c, targets[..|targets| - 1]).quotes;
      assert forall i | 0 <= i < |init| :: Key(init[i]) in Keys(init);
    }
  }

  /** Equal quotes among the accepted targets are written with different numbers of places. */
  lemma EqualTargetsDifferInPlaces(c: Config, targets: seq<Quote>, i: nat, j: nat)
    requires CleanAll(c, targets).Clean? && i < j < |targets| && |CleanAll(c, targets).quotes| == |targets|
    requires Comparable(CleanAll(c, targets).quotes[i], CleanAll(c, targets).quotes[j])
    ensures EqualQuotes(CleanAll(c, targets).quotes[i], CleanAll(c, targets).quotes[j]) ==>
              !SamePlaces(CleanAll(c, targets).quotes[i], CleanAll(c, targets).quotes[j])
  {
    hide CleanAll, Key, Quantized, SamePlaces, EqualQuotes, Comparable;
    CleanTargets(c, targets);
    KeyMeansEqualAsWritten(CleanAll(c, targets).quotes[i], CleanAll(c, targets).quotes[j]);
  }

  /** So accepted plain targets are pairwise different quotes. */
  lemma CleanTargetsDiffer(c: Config, targets: seq<Quote>, i: nat, j: nat)
    requires CleanAll(c, targets).Clean? && i < j < |targets| && |CleanAll(c, targets).quotes| == |targets|
    requires Comparable(CleanAll(c, targets).quotes[i], CleanAll(c, targets).quotes[j])
    requires PlainQuote(CleanAll(c, targets).quotes[i]) && PlainQuote(CleanAll(c, targets).quotes[j])
    ensures !EqualQuotes(CleanAll(c, targets).quotes[i], CleanAll(c, targets).quotes[j])
  {
    hide CleanAll, Key, Quantized, PlainQuote, EqualQuotes, Comparable;
    CleanTargets(c, targets);
    KeyMeansEqual(CleanAll(c, targets).quotes[i], CleanAll(c, targets).quotes[j]);
  }

  /** Every normal form prints plainly. */
  lemma NormalPrintsPlainly(d: Decimal)
    ensures IsNormal(d) ==> PrintsPlainly(d)
  {
  }

  /** A price or amount that was floored to a step prints plainly, whatever it and the step were before. */
  lemma FlooredIsPlain(d: Decimal, step: Decimal)
    requires Rounds(d, step)
    ensures PrintsPlainly(RoundToTick(d, step))
  {
    hide TickCount;
    hide RoundToTick;
    hide Normalize;
    RoundToTickShape(d, step);
    var k := TickCount(d, step);
    WrapId(step.scale);
    var product := Decimal(k * step.val, step.scale);
    NormalizeMeaning(product, if step.scale > 0 then step.scale else 0);
  }

  // ---- what becomes of a target, from its fields ----

  /** The step divides at the precision the source uses: both scales and their difference are within bounds. */
  predicate StepApplies(d: Decimal, step: Decimal) {
    step.val > 0 && -1000 <= d.scale <= 1000 && -1000 <= step.scale <= 1000 && -1000 <= step.scale - d.scale <= 1000
  }

  ghost predicate IsMultiple(n: int, step: int) {
    exists k :: n == k * step
  }

  /** The normal form of the greatest multiple of the step not above `d`; `d` itself when the step does not apply. */
  ghost predicate FlooredTo(q: Decimal, d: Decimal, step: Decimal) {
    if StepApplies(d, step) then
      && IsNormal(q) && q.scale <= 1000
      && IsMultiple(At(q, 1000), At(step, 1000)) && At(q, 1000) <= At(d, 1000)
      && forall k :: k * At(step, 1000) <= At(d, 1000) ==> k * At(step, 1000) <= At(q, 1000)
    else q == d
  }

  /** The clean form of a target: its own client ID, its side in lower case, its price floored to the tick and its amount to
      the lot. */
  ghost predicate CleanForm(c: Config, t: Quote, q: Quote) {
    && q.clientOrderID == t.clientOrderID && q.side == ToLower(TrimSpace(t.side))
    && FlooredTo(q.price, t.price, c.tick) && FlooredTo(q.amount, t.amount, c.lot)
  }

  /** Flooring leaves nothing. */
  predicate Vanishes(d: Decimal, step: Decimal) {
    StepApplies(d, step) && Cmp(d, step) < 0
  }

  lemma RoundedIsFloored(d: Decimal, step: Decimal)
    ensures FlooredTo(RoundToTick(d, step), d, step)
    ensures d.val > 0 ==> (RoundToTick(d, step).val > 0 <==> !Vanishes(d, step))
  {
    hide Pow10, Mul, TickCount, RoundToTick, Normalize, Cmp;
    RoundToTickShape(d, step);
    if StepApplies(d, step) {
      RoundToTickFloors(d, step, 1000);
      var k :| At(RoundToTick(d, step), 1000) == k * At(step, 1000);
      assert IsMultiple(At(RoundToTick(d, step), 1000), At(step, 1000));
      ProductNormal(TickCount(d, step), step);
      if d.val > 0 {
        FlooredSign(d, step, k);
      }
    }
  }

  lemma ProductNormal(k: int, step: Decimal)
    requires ScaleInBounds(step)
    ensures IsNormal(Mul(Decimal(k, 0), step))
  {
    hide Normalize, Pow10;
    WrapId(step.scale);
    NormalizeMeaning(Decimal(k * step.val, step.scale), 1000);
  }

  lemma FlooredSign(d: Decimal, step: Decimal, k: int)
    requires StepApplies(d, step) && d.val > 0 && Holds(RoundToTick(d, step), 1000)
    requires At(RoundToTick(d, step), 1000) == k * At(step, 1000) && At(RoundToTick(d, step), 1000) <= At(d, 1000)
    requires forall m :: m * At(step, 1000) <= At(d, 1000) ==> m * At(step, 1000) <= At(RoundToTick(d, step), 1000)
    ensures RoundToTick(d, step).val > 0 <==> Cmp(d, step) >= 0
  {
    hide Pow10, RoundToTick, Cmp;
    CmpMeaning(d, step, 1000);
    AtSign(RoundToTick(d, step), 1000);
    AtSign(step, 1000);
    var t := At(step, 1000);
    assert 1 * t == t;
    Arith.MulCancel(k, 0, t);
    Arith.MulCancel(0, k, t);
    Arith.MulCancel(k, 1, t);
  }

  lemma QuantizedMeans(c: Config, t: Quote)
    requires c.tick.val >= 0 && c.lot.val >= 0
    ensures CleanForm(c, t, Quantized(c, t))
    ensures t.price.val > 0 ==> (Quantized(c, t).price.val > 0 <==> !Vanishes(t.price, c.tick))
    ensures t.amount.val > 0 ==> (Quantized(c, t).amount.val > 0 <==> !Vanishes(t.amount, c.lot))
  {
    hide RoundToTick, FlooredTo, Vanishes, ToLower, TrimSpace;
    RoundedIsFloored(t.price, c.tick);
    RoundedIsFloored(t.amount, c.lot);
    NoStep(t.price, c.tick);
    NoStep(t.amount, c.lot);
  }

  lemma NoStep(d: Decimal, step: Decimal)
    ensures step.val <= 0 ==> FlooredTo(d, d, step) && !Vanishes(d, step)
  {
  }

  /** Accepted targets are the clean forms of the inputs in order: on a valid side, with positive numbers, and no two with the
      same side and the same texts for price and amount. */
  lemma AcceptedTargets(c: Config, targets: seq<Quote>)
    requires NormalizeTargets(c, targets).Clean?
    ensures var qs := NormalizeTargets(c, targets).quotes;
            && |qs| == |targets|
            && (forall i | 0 <= i < |qs| ::
                 && CleanForm(c, targets[i], qs[i])
                 && (qs[i].side == "buy" || qs[i].side == "sell") && qs[i].price.val > 0 && qs[i].amount.val > 0)
            && (forall i, j | 0 <= i < j < |qs| ::
                 qs[i].side != qs[j].side || Print(qs[i].price) != Print(qs[j].price) || Print(qs[i].amount) != Print(qs[j].amount))
  {
    hide CleanAll, Quantized, Print, CleanForm, Key;
    CleanTargets(c, targets);
    var qs := CleanAll(c, targets).quotes;
    forall i | 0 <= i < |qs|
      ensures CleanForm(c, targets[i], qs[i])
    {
      QuantizedMeans(c, targets[i]);
    }
    forall i, j | 0 <= i < j < |qs|
      ensures qs[i].side != qs[j].side || Print(qs[i].price) != Print(qs[j].price) || Print(qs[i].amount) != Print(qs[j].amount)
    {
      KeyInjective(qs[i], qs[j]);
    }
  }

  /** A configuration is refused for an empty symbol, then for a negative tolerance, then for a negative tick or lot. */
  lemma ConfigRefusals(c: Config, targets: seq<Quote>)
    ensures c.symbol == "" ==> NormalizeTargets(c, targets) == Refused(SymbolRequired)
    ensures c.symbol != "" && c.tolerance.val < 0 ==> NormalizeTargets(c, targets) == Refused(NegativeTolerance)
    ensures c.symbol != "" && c.tolerance.val >= 0 && (c.tick.val < 0 || c.lot.val < 0) ==>
              NormalizeTargets(c, targets) == Refused(StepsNotPositive)
  {
  }

  predicate GoodConfig(c: Config) {
    c.symbol != "" && c.tolerance.val >= 0 && c.tick.val >= 0 && c.lot.val >= 0
  }

  /** What the next target does after accepted ones. Its side is checked first, then the signs of its numbers, then that
      neither vanishes when floored, then that no accepted target has its side and its two texts. */
  lemma NextTarget(c: Config, targets: seq<Quote>, t: Quote)
    requires GoodConfig(c) && NormalizeTargets(c, targets).Clean?
    ensures var qs, side, next := NormalizeTargets(c, targets).quotes, ToLower(TrimSpace(t.side)), NormalizeTargets(c, targets + [t]);
            if side != "buy" && side != "sell" then next == Refused(InvalidSide)
            else if t.price.val <= 0 || t.amount.val <= 0 then next == Refused(NotPositive)
            else if Vanishes(t.price, c.tick) || Vanishes(t.amount, c.lot) then next == Refused(QuantizedAway)
            else exists q :: CleanForm(c, t, q) && next == if SameTextIn(qs, q) then Refused(DuplicateQuote) else Clean(qs + [q])
  {
    hide Quantized, Vanishes, CleanForm, Print, Key, ToLower, TrimSpace;
    QuantizedMeans(c, t);
    var q := Quantized(c, t);
    assert q.side == ToLower(TrimSpace(t.side)) by { QuantizedSide(c, t); }
    assert (targets + [t])[..|targets|] == targets;
    CleanTargets(c, targets);
    if ValidSide(q.side) {
      KeySeen(NormalizeTargets(c, targets).quotes, q);
    }
  }

  lemma QuantizedSide(c: Config, t: Quote)
    ensures Quantized(c, t).side == ToLower(TrimSpace(t.side))
  {
  }

  ghost predicate SameTextIn(qs: seq<Quote>, q: Quote) {
    exists j :: 0 <= j < |qs| && qs[j].side == q.side && Print(qs[j].price) == Print(q.price) && Print(qs[j].amount) == Print(q.amount)
  }

  lemma KeySeen(qs: seq<Quote>, q: Quote)
    requires ValidSide(q.side) && forall i | 0 <= i < |qs| :: ValidSide(qs[i].side)
    ensures Key(q) in Keys(qs) <==> SameTextIn(qs, q)
  {
    hide Key, Print;
    forall i | 0 <= i < |qs|
      ensures Key(qs[i]) == Key(q) <==>
        qs[i].side == q.side && Print(qs[i].price) == Print(q.price) && Print(qs[i].amount) == Print(q.amount)
    {
      KeyInjective(qs[i], q);
    }
  }

  /** A refusal of the targets is the refusal of the first one that the accepted ones before it do not go with. */
  lemma {:induction false} RefusedAtFirst(c: Config, targets: seq<Quote>, e: TargetError)
    requires GoodConfig(c)
    ensures NormalizeTargets(c, targets) == Refused(e) <==>
      exists i: nat :: i < |targets| && RefusedAt(c, targets, i, e)
  {
    hide CleanQuote, Key;
    if i: nat :| i < |targets| && RefusedAt(c, targets, i, e) {
      RefusedStays(c, targets, i + 1);
    }
    if NormalizeTargets(c, targets) == Refused(e) {
      var init := targets[..|targets| - 1];
      assert targets[..|targets|] == targets;
      if CleanAll(c, init).Clean? {
        assert RefusedAt(c, targets, |targets| - 1, e);
      } else {
        RefusedAtFirst(c, init, e);
        var i: nat :| i < |init| && RefusedAt(c, init, i, e);
        assert init[..i] == targets[..i] && init[..i + 1] == targets[..i + 1];
        assert RefusedAt(c, targets, i, e);
      }
    }
  }

  ghost predicate RefusedAt(c: Config, targets: seq<Quote>, i: nat, e: TargetError)
    requires i < |targets|
  {
    NormalizeTargets(c, targets[..i]).Clean? && NormalizeTargets(c, targets[..i + 1]) == Refused(e)
  }
}
