/** Replaying events over a ledger that already reflects some of them. The stream is subscribed before the open orders are
    fetched, so the fetched ledger may reflect any prefix of the events that are then replayed over it. */
module Convergence {
  import opened Wrappers
  import opened Decimals
  import opened Text
  import opened DecimalText
  import opened Ledger

  /** An amendment that does not name its side: it can change an order but not create one. */
  predicate Sideless(symbol: string, e: OrderEvent) {
    Concerns(symbol, e) && Decode(e).Amend? && Decode(e).side == ""
  }

  ghost predicate AllSided(symbol: string, es: seq<OrderEvent>) {
    forall i | 0 <= i < |es| :: !Sideless(symbol, es[i])
  }

  // ---- one order at a time ----

  ghost function StepAt(symbol: string, id: string, x: Option<RestingOrder>, e: OrderEvent): Option<RestingOrder> {
    if Concerns(symbol, e) && EventOrderID(e) == id then Effect(Decode(e), id, x) else x
  }

  ghost function RunAt(symbol: string, id: string, x: Option<RestingOrder>, es: seq<OrderEvent>): Option<RestingOrder> {
    if es == [] then x else StepAt(symbol, id, RunAt(symbol, id, x, es[..|es| - 1]), es[|es| - 1])
  }

  lemma {:induction false} LookupRun(symbol: string, id: string, r: Resting, es: seq<OrderEvent>)
    ensures Lookup(ApplyEvents(symbol, r, es), id) == RunAt(symbol, id, Lookup(r, id), es)
  {
    hide Decode;
    hide Effect;
    hide EventOrderID;
    if es != [] {
      LookupRun(symbol, id, r, es[..|es| - 1]);
    }
  }

  ghost predicate SameButAmount(u: Option<RestingOrder>, v: Option<RestingOrder>) {
    match (u, v)
    case (None, None) => true
    case (Some(a), Some(b)) => a.(amount := b.amount) == b
    case _ => false
  }

  ghost predicate SameIdentity(clientToo: bool, u: Option<RestingOrder>, v: Option<RestingOrder>) {
    match (u, v)
    case (None, None) => true
    case (Some(a), Some(b)) => a.orderID == b.orderID && (clientToo ==> a.clientOrderID == b.clientOrderID)
    case _ => false
  }

  /** Amounts never decide what happens to the other fields. */
  lemma {:induction false} RunSameButAmount(symbol: string, id: string, u: Option<RestingOrder>, v: Option<RestingOrder>, es: seq<OrderEvent>)
    requires SameButAmount(u, v)
    ensures SameButAmount(RunAt(symbol, id, u, es), RunAt(symbol, id, v, es))
  {
    hide Decode;
    hide Cmp;
    if es != [] {
      RunSameButAmount(symbol, id, u, v, es[..|es| - 1]);
    }
  }

  /** Whether an order exists, and its two IDs, evolve on their own. */
  lemma {:induction false} RunSameIdentity(symbol: string, id: string, clientToo: bool, u: Option<RestingOrder>, v: Option<RestingOrder>, es: seq<OrderEvent>)
    requires SameIdentity(clientToo, u, v)
    ensures SameIdentity(clientToo, RunAt(symbol, id, u, es), RunAt(symbol, id, v, es))
  {
    hide Decode;
    hide Cmp;
    if es != [] {
      RunSameIdentity(symbol, id, clientToo, u, v, es[..|es| - 1]);
    }
  }

  /** Where sided events end without the order, they would at most have changed the amount of an existing one. */
  lemma {:induction false} RunFromMissing(symbol: string, id: string, v: Option<RestingOrder>, es: seq<OrderEvent>)
    requires AllSided(symbol, es) && v.Some?
    ensures var m, w := RunAt(symbol, id, None, es), RunAt(symbol, id, v, es);
            m == w || (m.None? && SameButAmount(w, v)) || (m.Some? && w.Some?)
  {
    hide Decode;
    hide Cmp;
    if es != [] {
      var init, e := es[..|es| - 1], es[|es| - 1];
      assert !Sideless(symbol, e);
      RunFromMissing(symbol, id, v, init);
    }
  }

  lemma FillFitsWhatItCreates(e: OrderEvent)
    requires e.orderID > 0 && Decode(e).Fill? && Decode(e).created.Some?
    ensures Decode(e).created.value.amount == Decode(e).rest
    ensures Cmp(Decode(e).rest, Decode(e).created.value.originalAmount) <= 0
  {
    hide ParseDecimal;
    hide StatusOf;
    hide Cmp;
    hide Digits;
    var rem := ParseDecimal(e.remainingQty).value;
    CmpFlip(rem, Decode(e).created.value.originalAmount);
  }

  lemma LastStep(symbol: string, id: string, z: Option<RestingOrder>, init: seq<OrderEvent>, e: OrderEvent)
    requires AllSided(symbol, init) && !Sideless(symbol, e)
    requires RunAt(symbol, id, z, init) == z
    ensures var y := StepAt(symbol, id, z, e);
            StepAt(symbol, id, RunAt(symbol, id, y, init), e) == y
  {
    hide Decode;
    hide Cmp;
    hide RunAt;
    var y := StepAt(symbol, id, z, e);
    if Concerns(symbol, e) && EventOrderID(e) == id {
      match Decode(e)
      case Ignore =>
      case Put(_) =>
      case Erase =>
      case Amend(_, _, _, _, client) =>
        if z.Some? {
          RunSameIdentity(symbol, id, client == "", z, y, init);
        } else {
          RunFromMissing(symbol, id, y, init);
        }
      case Fill(_, created) =>
        if z.Some? {
          RunSameButAmount(symbol, id, z, y, init);
        } else if created.Some? {
          RunFromMissing(symbol, id, y, init);
          FillFitsWhatItCreates(e);
        }
    }
  }

  lemma {:induction false} RunTwice(symbol: string, id: string, x: Option<RestingOrder>, es: seq<OrderEvent>)
    requires AllSided(symbol, es)
    ensures RunAt(symbol, id, RunAt(symbol, id, x, es), es) == RunAt(symbol, id, x, es)
  {
    hide StepAt;
    if es != [] {
      var init, e := es[..|es| - 1], es[|es| - 1];
      RunTwice(symbol, id, x, init);
      LastStep(symbol, id, RunAt(symbol, id, x, init), init, e);
    }
  }

  // ---- whole ledgers ----

  lemma SameLookups(r: Resting, s: Resting)
    requires forall id :: Lookup(r, id) == Lookup(s, id)
    ensures r == s
  {
    forall id
      ensures id in r <==> id in s
      ensures id in r ==> r[id] == s[id]
    {
      assert Lookup(r, id) == Lookup(s, id);
    }
  }

  /** Replaying events the ledger already reflects changes nothing. */
  lemma ReplayAbsorbed(symbol: string, r: Resting, es: seq<OrderEvent>)
    requires AllSided(symbol, es)
    ensures ApplyEvents(symbol, ApplyEvents(symbol, r, es), es) == ApplyEvents(symbol, r, es)
  {
    hide ApplyEvents;
    var once := ApplyEvents(symbol, r, es);
    var twice := ApplyEvents(symbol, once, es);
    forall id
      ensures Lookup(twice, id) == Lookup(once, id)
    {
      LookupRun(symbol, id, r, es);
      LookupRun(symbol, id, once, es);
      RunTwice(symbol, id, Lookup(r, id), es);
    }
    SameLookups(twice, once);
  }

  /** Hydration converges: whichever prefix of the stream the fetched ledger reflects, replaying the whole stream over it
      gives the ledger the stream makes of the state at subscription time. */
  lemma HydrationConverges(symbol: string, subscribed: Resting, es: seq<OrderEvent>, k: nat)
    requires AllSided(symbol, es) && k <= |es|
    ensures ApplyEvents(symbol, ApplyEvents(symbol, subscribed, es[..k]), es) == ApplyEvents(symbol, subscribed, es)
  {
    hide ApplyEvents;
    var fetched := ApplyEvents(symbol, subscribed, es[..k]);
    assert es == es[..k] + es[k..];
    ReplayAbsorbed(symbol, subscribed, es[..k]);
    ApplyConcat(symbol, fetched, es[..k], es[k..]);
    ApplyConcat(symbol, subscribed, es[..k], es[k..]);
  }

  // ---- exactly the sided events are safe to replay ----

  /** Among sided events, this one can be replayed anywhere. */
  ghost predicate ReplaySafe(symbol: string, e: OrderEvent) {
    forall r: Resting, before: seq<OrderEvent>, after: seq<OrderEvent> ::
      AllSided(symbol, before) && AllSided(symbol, after) ==> Absorbs(symbol, r, before + [e] + after)
  }

  ghost predicate Absorbs(symbol: string, r: Resting, es: seq<OrderEvent>) {
    ApplyEvents(symbol, ApplyEvents(symbol, r, es), es) == ApplyEvents(symbol, r, es)
  }

  lemma SmallNumbers()
    ensures ParseDecimal("1") == Some(Decimal(1, 0)) && ParseDecimal("2") == Some(Decimal(2, 0))
  {
    hide ParseDecimal;
    assert Digits(1) == "1" && Digits(2) == "2";
    assert "1" + Zeros(0) == "1" && "2" + Zeros(0) == "2";
    assert Print(Decimal(1, 0)) == "1" && Print(Decimal(2, 0)) == "2";
    RoundTripNormal(Decimal(1, 0));
    RoundTripNormal(Decimal(2, 0));
  }

  function PartialFillOf(id: int, price: string): OrderEvent {
    OrderEvent("", "", "buy", "1", price, "PARTIALLY_FILLED", id, "1", [])
  }

  lemma PartialFillDecoded(id: int, price: string, p: Decimal)
    requires id > 0 && ParseDecimal(price) == Some(p) && IsPositive(p)
    ensures Decode(PartialFillOf(id, price)) ==
            Fill(Decimal(1, 0), Some(RestingOrder(Digits(id), "", "buy", p, Decimal(1, 0), Decimal(1, 0))))
  {
    hide ParseDecimal;
    hide Digits;
    hide TrimSpace;
    SmallNumbers();
    var e := PartialFillOf(id, price);
    assert ToUpper(e.orderStatus) == "PARTIALLY_FILLED";
    NothingToTrim("buy");
    assert ToLower("buy") == "buy";
    CmpSelf(Decimal(1, 0));
  }

  /** A sideless amendment followed by a partial fill that creates the order: on replay the amendment finds the order and
      changes its price. */
  lemma SidelessBreaks(symbol: string, e: OrderEvent) returns (f: OrderEvent)
    requires Sideless(symbol, e)
    ensures AllSided(symbol, [f]) && !Absorbs(symbol, map[], [e, f])
  {
    hide ParseDecimal;
    hide Decode;
    hide ApplyEvents;
    SmallNumbers();
    var one := Decode(e).price != Decimal(1, 0);
    var p := if one then Decimal(1, 0) else Decimal(2, 0);
    f := PartialFillOf(e.orderID, if one then "1" else "2");
    PartialFillDecoded(e.orderID, if one then "1" else "2", p);
    assert !Sideless(symbol, f);
    var id := EventOrderID(e);
    var once := ApplyEvents(symbol, map[], [e, f]);
    LookupRun(symbol, id, map[], [e, f]);
    LookupRun(symbol, id, once, [e, f]);
    RunPair(symbol, id, None, e, f);
    RunPair(symbol, id, Lookup(once, id), e, f);
    assert Lookup(once, id).value.price == p;
    assert Lookup(ApplyEvents(symbol, once, [e, f]), id).value.price == Decode(e).price;
  }

  lemma RunPair(symbol: string, id: string, x: Option<RestingOrder>, e: OrderEvent, f: OrderEvent)
    ensures RunAt(symbol, id, x, [e, f]) == StepAt(symbol, id, StepAt(symbol, id, x, e), f)
  {
    hide StepAt;
    assert [e, f][..1] == [e] && [e][..0] == [];
    assert RunAt(symbol, id, x, [e]) == StepAt(symbol, id, RunAt(symbol, id, x, []), e);
  }

  /** An event is safe to replay among sided events exactly when it is not a sideless amendment. */
  lemma ReplaySafeIffSided(symbol: string, e: OrderEvent)
    ensures ReplaySafe(symbol, e) <==> !Sideless(symbol, e)
  {
    hide Sideless;
    hide ApplyEvents;
    if Sideless(symbol, e) {
      var f := SidelessBreaks(symbol, e);
      var none: seq<OrderEvent> := [];
      assert AllSided(symbol, none) && none + [e] + [f] == [e, f];
      assert !Absorbs(symbol, map[], none + [e] + [f]);
    } else {
      forall r: Resting, before: seq<OrderEvent>, after: seq<OrderEvent> | AllSided(symbol, before) && AllSided(symbol, after)
        ensures Absorbs(symbol, r, before + [e] + after)
      {
        ReplayAbsorbed(symbol, r, before + [e] + after);
      }
    }
  }

  // ---- the events no snapshot has to reflect ----

  /** An event for another ledger, or one whose content is ignored. */
  predicate Inert(symbol: string, e: OrderEvent) {
    !Concerns(symbol, e) || Decode(e).Ignore?
  }

  ghost predicate AllInert(symbol: string, es: seq<OrderEvent>) {
    forall i | 0 <= i < |es| :: Inert(symbol, es[i])
  }

  lemma InertDoesNothing(symbol: string, r: Resting, e: OrderEvent)
    requires Inert(symbol, e)
    ensures ApplyEvent(symbol, r, e) == r
  {
    hide Decode, EventOrderID;
    if Concerns(symbol, e) {
      assert Effect(Decode(e), EventOrderID(e), Lookup(r, EventOrderID(e))) == Lookup(r, EventOrderID(e));
      SameLookups(ApplyEvent(symbol, r, e), r);
    }
  }

  lemma {:induction false} InertDoNothing(symbol: string, r: Resting, es: seq<OrderEvent>)
    requires AllInert(symbol, es)
    ensures ApplyEvents(symbol, r, es) == r
  {
    hide Inert, ApplyEvent;
    if es != [] {
      InertDoNothing(symbol, r, es[..|es| - 1]);
      InertDoesNothing(symbol, r, es[|es| - 1]);
    }
  }

  function SomeOrder(id: string, amount: Decimal, original: Decimal): RestingOrder {
    RestingOrder(id, "", "buy", Decimal(1, 0), amount, original)
  }

  /** Two different well-formed states of an order that a given action treats alike. */
  lemma AlikeBefore(a: Action, id: string) returns (x: Option<RestingOrder>, y: Option<RestingOrder>)
    requires !a.Ignore? && (a.Fill? ==> IsPositive(a.rest))
    ensures x != y && Effect(a, id, x) == Effect(a, id, y)
    ensures (x.Some? ==> GoodEntry(id, x.value)) && (y.Some? ==> GoodEntry(id, y.value))
  {
    match a
    case Put(_) =>
      x, y := None, Some(SomeOrder(id, Decimal(1, 0), Decimal(1, 0)));
    case Erase =>
      x, y := None, Some(SomeOrder(id, Decimal(1, 0), Decimal(1, 0)));
    case Amend(_, _, _, _, _) =>
      x, y := Some(SomeOrder(id, Decimal(1, 0), Decimal(2, 0))), Some(SomeOrder(id, Decimal(2, 0), Decimal(2, 0)));
    case Fill(rest, _) =>
      var original := Decimal(10 * rest.val, rest.scale);
      x, y := Some(SomeOrder(id, rest, original)), Some(SomeOrder(id, original, original));
      SmallerBelow(rest);
  }

  lemma SmallerBelow(d: Decimal)
    requires IsPositive(d)
    ensures var more := Decimal(10 * d.val, d.scale);
            Cmp(d, more) <= 0 && Cmp(more, more) == 0 && more != d && IsPositive(more)
  {
  }

  lemma FillIsPositive(e: OrderEvent)
    requires e.orderID > 0 && Decode(e).Fill?
    ensures IsPositive(Decode(e).rest)
  {
    hide ParseDecimal, StatusOf, Cmp;
  }

  /** An event that is not inert makes two different well-formed ledgers the same. */
  lemma Collapses(symbol: string, e: OrderEvent) returns (r: Resting, s: Resting)
    requires !Inert(symbol, e)
    ensures r != s && GoodLedger(r) && GoodLedger(s) && ApplyEvent(symbol, r, e) == ApplyEvent(symbol, s, e)
  {
    hide Decode, Effect, GoodEntry, EventOrderID, IsPositive;
    var id := EventOrderID(e);
    if Decode(e).Fill? {
      FillIsPositive(e);
    }
    var x, y := AlikeBefore(Decode(e), id);
    r, s := Store(map[], id, x), Store(map[], id, y);
    assert Lookup(r, id) == x && Lookup(s, id) == y;
    SameLookups(ApplyEvent(symbol, r, e), ApplyEvent(symbol, s, e));
  }

  /** Where events are not all inert, some well-formed ledger is changed by them. */
  lemma NotInertChanges(symbol: string, es: seq<OrderEvent>) returns (r: Resting)
    requires !AllInert(symbol, es)
    ensures GoodLedger(r) && ApplyEvents(symbol, r, es) != r
  {
    hide Inert, ApplyEvent, GoodLedger;
    var k := FirstActive(symbol, es);
    var x, y := Collapses(symbol, es[k]);
    SameAfter(symbol, x, y, es, k);
    r := if ApplyEvents(symbol, x, es) == x then y else x;
  }

  lemma {:induction false} FirstActive(symbol: string, es: seq<OrderEvent>) returns (k: nat)
    requires !AllInert(symbol, es)
    ensures k < |es| && !Inert(symbol, es[k]) && AllInert(symbol, es[..k])
    decreases |es|
  {
    hide Inert;
    var init := es[..|es| - 1];
    if AllInert(symbol, init) {
      k := |es| - 1;
    } else {
      k := FirstActive(symbol, init);
      assert init[..k] == es[..k];
    }
  }

  lemma SameAfter(symbol: string, x: Resting, y: Resting, es: seq<OrderEvent>, k: nat)
    requires k < |es| && AllInert(symbol, es[..k]) && ApplyEvent(symbol, x, es[k]) == ApplyEvent(symbol, y, es[k])
    ensures ApplyEvents(symbol, x, es) == ApplyEvents(symbol, y, es)
  {
    hide Inert, ApplyEvent;
    InertDoNothing(symbol, x, es[..k]);
    InertDoNothing(symbol, y, es[..k]);
    assert es[..k + 1][..k] == es[..k];
    assert es == es[..k + 1] + es[k + 1..];
    ApplyConcat(symbol, x, es[..k + 1], es[k + 1..]);
    ApplyConcat(symbol, y, es[..k + 1], es[k + 1..]);
  }

  /** Every snapshot reflects the events, in the sense that applying them to it changes nothing, exactly when they are inert. */
  lemma ReflectedByAllIffInert(symbol: string, es: seq<OrderEvent>)
    ensures AllInert(symbol, es) <==> forall r | GoodLedger(r) :: ApplyEvents(symbol, r, es) == r
  {
    hide AllInert, ApplyEvents, GoodLedger;
    if AllInert(symbol, es) {
      forall r | GoodLedger(r)
        ensures ApplyEvents(symbol, r, es) == r
      {
        InertDoNothing(symbol, r, es);
      }
    } else {
      var r := NotInertChanges(symbol, es);
    }
  }

  /** There are sideless amendments: this one is for any ledger. */
  lemma SidelessExists(symbol: string)
    ensures Sideless(symbol, OrderEvent("", "", "", "1", "1", "MODIFIED", 1, "", []))
  {
    hide ParseDecimal, Digits;
    SmallNumbers();
    assert ToUpper("MODIFIED") == "MODIFIED";
    assert TrimSpace("") == "";
  }

  /** So for every symbol there are two events that are not absorbed on replay. */
  lemma SomeReplayFails(symbol: string) returns (e: OrderEvent, f: OrderEvent)
    ensures Sideless(symbol, e) && !Sideless(symbol, f) && !Absorbs(symbol, map[], [e, f])
  {
    hide Sideless, Absorbs;
    e := OrderEvent("", "", "", "1", "1", "MODIFIED", 1, "", []);
    SidelessExists(symbol);
    f := SidelessBreaks(symbol, e);
    assert !Sideless(symbol, [f][0]);
  }
}
