/** The reconciler as the object its methods update: one ledger, changed by order events, by hydration, and by the commits of
    a `Sync` cycle. Every method is tied to the function on ledgers that the other modules reason about. */
module Reconciler {
  import opened Wrappers
  import opened Decimals
  import opened Text
  import opened DecimalText
  import opened Ledger
  import opened QuoteDiff
  import opened Targets
  import opened SyncCycle
  import opened SyncOutcome

  // ---- the diff's bookkeeping ----

  /** The IDs of the orders an assignment keeps. */
  ghost function KeptIDs(ordered: seq<RestingOrder>, a: Assignment): set<string> {
    set j | 0 <= j < |ordered| && Uses(a, j) :: ordered[j].orderID
  }

  lemma KeptIDsMeanUsed(r: Resting, ordered: seq<RestingOrder>, a: Assignment, j: nat)
    requires Lists(r, ordered) && j < |ordered|
    ensures ordered[j].orderID in KeptIDs(ordered, a) <==> Uses(a, j)
  {
  }

  lemma KeptIDsSnoc(ordered: seq<RestingOrder>, a: Assignment, j: int)
    requires j == -1 || 0 <= j < |ordered|
    ensures KeptIDs(ordered, a + [j]) == KeptIDs(ordered, a) + if j < 0 then {} else {ordered[j].orderID}
  {
    assert forall i :: Uses(a + [j], i) <==> Uses(a, i) || i == j;
  }

  lemma KeptOneMore(a: Assignment, j: int)
    ensures Served(a + [j]) == Served(a) + if j < 0 then {} else {|a|}
    ensures Kept(a + [j]) == Kept(a) + if j < 0 then 0 else 1
  {
    assert (a + [j])[..|a|] == a;
    KeptSnoc(a + [j]);
  }

  lemma AssignSnoc(tolerance: Decimal, ordered: seq<RestingOrder>, targets: seq<Quote>, i: nat)
    requires i < |targets|
    ensures var a := Assign(tolerance, ordered, targets[..i]);
            Assign(tolerance, ordered, targets[..i + 1]) == a + [FirstFree(tolerance, ordered, a, targets[i], 0)]
  {
    assert targets[..i + 1][..i] == targets[..i];
  }

  lemma UnservedSnoc(a: Assignment, i: nat)
    requires i < |a|
    ensures Unserved(a[..i + 1]) == Unserved(a[..i]) + if a[i] < 0 then [i] else []
  {
    assert a[..i + 1][..i] == a[..i];
  }

  /** The quotes to place: the plan's unserved targets in their order. */
  function QuotesToPlace(p: Plan): seq<Quote> {
    seq(|p.unserved|, (k: nat) => TargetOf(p, k))
  }

  class QuoteReconciler {
    const config: Config
    var resting: Resting

    ghost predicate Valid()
      reads this
    {
      GoodLedger(resting)
    }

    constructor (symbol: string, tolerance: Decimal, tick: Decimal, lot: Decimal)
      ensures Valid() && resting == map[]
      ensures config == Config(ToUpper(TrimSpace(symbol)), tolerance, tick, lot)
    {
      config := Config(ToUpper(TrimSpace(symbol)), tolerance, tick, lot);
      resting := map[];
    }

    /** What the ledger becomes under the event; a nil event changes nothing. */
    ghost function Applied(evt: Option<OrderEvent>): Resting
      reads this
    {
      match evt
      case None => resting
      case Some(e) => ApplyEvent(config.symbol, resting, e)
    }

    method ApplyOrderEvent(evt: Option<OrderEvent>)
      requires Valid()
      modifies this
      ensures Valid() && resting == old(Applied(evt))
    {
      hide ParseDecimal, Cmp, ToLower, ToUpper, TrimSpace, Digits, Effect, Decode, GoodLedger;
      if evt.None? || (evt.value.symbol != "" && ToUpper(TrimSpace(evt.value.symbol)) != config.symbol) {
        return;
      }
      var e := evt.value;
      if e.orderID <= 0 {
        return;
      }
      ApplyKeepsGood(config.symbol, resting, e);
      match StatusOf(e.orderStatus)
      case Opened => ApplyOpened(e);
      case Changed => ApplyChanged(e);
      case Ended =>
        DecodeEnded(e);
        resting := resting - {EventOrderID(e)};
      case PartlyFilled => ApplyPartialFill(e);
      case OtherStatus => DecodeOther(e);
    }

    /** The ledger with the event's own action on its order. */
    ghost function After(a: Action, id: string): Resting
      reads this
    {
      Store(resting, id, Effect(a, id, Lookup(resting, id)))
    }

    method ApplyOpened(e: OrderEvent)
      requires e.orderID > 0 && StatusOf(e.orderStatus).Opened?
      modifies this
      ensures resting == old(After(Decode(e), EventOrderID(e)))
    {
      hide ParseDecimal, Cmp, ToLower, ToUpper, TrimSpace, Digits, StatusOf;
      var id, side := EventOrderID(e), ToLower(TrimSpace(e.side));
      var p, q := ParseDecimal(e.price), ParseDecimal(e.quantity);
      if (side == "buy" || side == "sell") && p.Some? && q.Some? && IsPositive(p.value) && IsPositive(q.value) {
        resting := resting[id := RestingOrder(id, e.clientOrderID, side, p.value, q.value, q.value)];
      } else {
        StoreSame(resting, id);
      }
    }

    method ApplyChanged(e: OrderEvent)
      requires e.orderID > 0 && StatusOf(e.orderStatus).Changed?
      modifies this
      ensures resting == old(After(Decode(e), EventOrderID(e)))
    {
      hide ParseDecimal, Cmp, ToLower, ToUpper, TrimSpace, Digits, StatusOf;
      var id, side := EventOrderID(e), ToLower(TrimSpace(e.side));
      StoreSame(resting, id);
      var p, original := ParseDecimal(e.price), ParseDecimal(e.quantity);
      if p.Some? && original.Some? && IsPositive(p.value) && IsPositive(original.value) {
        var remaining := original.value;
        if TrimSpace(e.remainingQty) != "" {
          var parsed := ParseDecimal(e.remainingQty);
          if parsed.None? || Cmp(parsed.value, original.value) > 0 {
            return;
          }
          if !IsPositive(parsed.value) {
            resting := resting - {id};
            return;
          }
          remaining := parsed.value;
        }
        if id in resting {
          if e.side != "" && side != "buy" && side != "sell" {
            return;
          }
          var current := resting[id].(price := p.value, amount := remaining, originalAmount := original.value);
          if e.clientOrderID != "" {
            current := current.(clientOrderID := e.clientOrderID);
          }
          if e.side != "" {
            current := current.(side := side);
          }
          resting := resting[id := current];
        } else if side == "buy" || side == "sell" {
          SideGiven(e);
          resting := resting[id := RestingOrder(id, e.clientOrderID, side, p.value, remaining, original.value)];
        }
      }
    }

    method ApplyPartialFill(e: OrderEvent)
      requires e.orderID > 0 && StatusOf(e.orderStatus).PartlyFilled?
      modifies this
      ensures resting == old(After(Decode(e), EventOrderID(e)))
    {
      hide ParseDecimal, Cmp, ToLower, ToUpper, TrimSpace, Digits, StatusOf;
      var id, side := EventOrderID(e), ToLower(TrimSpace(e.side));
      StoreSame(resting, id);
      var rem := ParseDecimal(e.remainingQty);
      if rem.Some? && IsPositive(rem.value) {
        if id in resting {
          if Cmp(rem.value, resting[id].originalAmount) > 0 {
            return;
          }
          resting := resting[id := resting[id].(amount := rem.value)];
        } else {
          var p, q := ParseDecimal(e.price), ParseDecimal(e.quantity);
          if p.None? || !IsPositive(p.value) || (side != "buy" && side != "sell") {
            return;
          }
          var original := rem.value;
          if q.Some? && IsPositive(q.value) {
            if Cmp(q.value, rem.value) < 0 {
              return;
            }
            original := q.value;
          } else {
            CmpSelf(rem.value);
          }
          resting := resting[id := RestingOrder(id, e.clientOrderID, side, p.value, rem.value, original)];
        }
      } else if rem.Some? {
        resting := resting - {id};
      }
    }

    /** Replaces the ledger by the exchange's open orders; without a reply nothing changes. */
    method Hydrate(reply: Option<seq<ListedOrder>>) returns (ok: bool)
      requires Valid()
      modifies this
      ensures Valid() && ok == reply.Some?
      ensures resting == if ok then Snapshot(config.symbol, reply.value) else old(resting)
    {
      hide ParseDecimal, Cmp, Sub, ToLower, ToUpper, TrimSpace, GoodLedger;
      if reply.None? {
        return false;
      }
      var orders := reply.value;
      SnapshotIsGood(config.symbol, orders);
      resting := map[];
      for i := 0 to |orders|
        invariant resting == Snapshot(config.symbol, orders[..i])
      {
        assert orders[..i + 1][..i] == orders[..i];
        var o := orders[i];
        if o.symbol.Some? && ToUpper(TrimSpace(o.symbol.value)) != config.symbol {
          continue;
        }
        if o.orderID.None? || o.price.None? || o.originalAmount.None? {
          continue;
        }
        var p, a := ParseDecimal(o.price.value), ParseDecimal(o.originalAmount.value);
        if p.None? || a.None? {
          continue;
        }
        var amount := a.value;
        if o.executedAmount.Some? {
          var done := ParseDecimal(o.executedAmount.value);
          if done.Some? && IsPositive(done.value) {
            amount := Sub(amount, done.value);
          }
        }
        if !IsPositive(amount) {
          continue;
        }
        var side := "";
        if o.side == Some(BuySide) {
          side := "buy";
        } else if o.side == Some(SellSide) {
          side := "sell";
        }
        if side == "" {
          continue;
        }
        var client := if o.clientOrderID.Some? then o.clientOrderID.value else "";
        resting := resting[o.orderID.value := RestingOrder(o.orderID.value, client, side, p.value, amount, a.value)];
      }
      assert orders[..|orders|] == orders;
      return true;
    }

    /** The diff of `Sync`: which orders stay, which are cancelled, and which targets are placed. */
    method Diff(targets: seq<Quote>)
      returns (restingByAge: seq<RestingOrder>, toCancel: seq<RestingOrder>, toPlace: seq<Quote>, kept: nat)
      requires Valid()
      ensures var keeps := Assign(config.tolerance, restingByAge, targets);
              var plan := Plan(resting, restingByAge, targets, keeps, toCancel, Unserved(keeps));
              IsPlan(config.tolerance, plan) && toPlace == QuotesToPlace(plan) && kept == Kept(keeps)
      ensures |resting| == kept + |toCancel| && |targets| == kept + |toPlace|
      ensures forall j, k | 0 <= j < |toCancel| && 0 <= k < |toPlace| ::
                var o, t := toCancel[j], toPlace[k];
                !(o.side == t.side && Cmp(o.amount, t.amount) == 0
                  && (Cmp(o.price, t.price) == 0 || Within(config.tolerance, o.price, t.price)))
    {
      hide Older, Compatible, Assign, FirstFree, KeptIDs, Served, Unserved, IsPlan, Cmp, Within;
      restingByAge := RestingOrdersByAge(resting);
      var matchedResting: set<string>, matchedTargets: set<int>;
      matchedResting, matchedTargets, kept := Match(restingByAge, targets);
      ghost var keeps := Assign(config.tolerance, restingByAge, targets);
      toCancel := Unmatched(restingByAge, matchedResting, keeps);
      toPlace := UnmatchedTargets(targets, matchedTargets, keeps);
      ghost var plan := Plan(resting, restingByAge, targets, keeps, toCancel, Unserved(keeps));
      PlanAssembled(config.tolerance, plan);
      PlacesUnserved(plan, toPlace);
      PlanBalances(config.tolerance, plan);
      forall j: nat, k: nat | j < |toCancel| && k < |toPlace|
        ensures var o, t := toCancel[j], toPlace[k];
                !(o.side == t.side && Cmp(o.amount, t.amount) == 0
                  && (Cmp(o.price, t.price) == 0 || Within(config.tolerance, o.price, t.price)))
      {
        CancelledFitsNone(config.tolerance, plan, toCancel[j], k);
      }
    }

    /** Each target in turn takes the oldest unmatched order that fits it. */
    method Match(restingByAge: seq<RestingOrder>, targets: seq<Quote>)
      returns (matchedResting: set<string>, matchedTargets: set<int>, kept: nat)
      requires ListsByAge(resting, restingByAge)
      ensures var keeps := Assign(config.tolerance, restingByAge, targets);
              && matchedResting == KeptIDs(restingByAge, keeps)
              && matchedTargets == Served(keeps)
              && kept == Kept(keeps)
    {
      hide Older, Compatible, Assign, FirstFree, KeptIDs, Served, Kept, ListsByAge;
      ListsByAgeLists(resting, restingByAge);
      hide Lists;
      matchedResting, matchedTargets, kept := {}, {}, 0;
      ghost var keeps: Assignment := [];
      NothingMatched(config.tolerance, restingByAge, targets);
      for t := 0 to |targets|
        invariant keeps == Assign(config.tolerance, restingByAge, targets[..t]) && |keeps| == t
        invariant matchedResting == KeptIDs(restingByAge, keeps) && matchedTargets == Served(keeps) && kept == Kept(keeps)
      {
        var target := targets[t];
        ghost var free := FirstFree(config.tolerance, restingByAge, keeps, target, 0);
        ghost var taken := -1;
        for i := 0 to |restingByAge|
          invariant taken == -1
          invariant free == FirstFree(config.tolerance, restingByAge, keeps, target, i)
          invariant matchedResting == KeptIDs(restingByAge, keeps) && matchedTargets == Served(keeps) && kept == Kept(keeps)
        {
          var ord := restingByAge[i];
          KeptIDsMeanUsed(resting, restingByAge, keeps, i);
          FirstFreeStep(config.tolerance, restingByAge, keeps, target, i);
          if ord.orderID in matchedResting {
            continue;
          }
          var fits := FitsTarget(ord, target);
          if fits {
            matchedResting := matchedResting + {ord.orderID};
            matchedTargets := matchedTargets + {t};
            kept := kept + 1;
            taken := i;
            break;
          }
        }
        FirstFreeEnd(config.tolerance, restingByAge, keeps, target);
        AssignSnoc(config.tolerance, restingByAge, targets, t);
        KeptIDsSnoc(restingByAge, keeps, taken);
        KeptOneMore(keeps, taken);
        keeps := keeps + [taken];
      }
      assert targets[..|targets|] == targets;
    }

    /** Same side, a price that is equal or within the tolerance, and an equal amount. */
    method FitsTarget(ord: RestingOrder, target: Quote) returns (fits: bool)
      ensures fits <==>
        && ord.side == target.side && Cmp(ord.amount, target.amount) == 0
        && (Cmp(ord.price, target.price) == 0 || Within(config.tolerance, ord.price, target.price))
      ensures fits == Compatible(config.tolerance, ord, target)
    {
      CompatibleMeans(config.tolerance, ord, target);
      hide Cmp, Div, Sub, Mul, Within;
      if ord.side != target.side {
        return false;
      }
      var priceMatch := false;
      if Cmp(ord.price, target.price) == 0 {
        priceMatch := true;
      } else if IsPositive(config.tolerance) {
        var diff := BpsDiff(ord.price, target.price);
        if diff.Some? && Cmp(AbsOf(diff.value), config.tolerance) <= 0 {
          priceMatch := true;
        }
      }
      var amountMatch := Cmp(ord.amount, target.amount) == 0;
      return priceMatch && amountMatch;
    }

    /** The orders to cancel, in the map's arbitrary order. */
    method Unmatched(restingByAge: seq<RestingOrder>, matched: set<string>, ghost keeps: Assignment) returns (os: seq<RestingOrder>)
      requires ListsByAge(resting, restingByAge) && matched == KeptIDs(restingByAge, keeps)
      ensures CancelsUnused(resting, restingByAge, keeps, os)
    {
      hide Older, KeptIDs;
      os := [];
      var left := resting.Keys;
      while left != {}
        invariant left <= resting.Keys
        invariant forall k | 0 <= k < |os| :: os[k].orderID in resting.Keys - left && resting[os[k].orderID] == os[k]
        invariant forall k, m | 0 <= k < m < |os| :: os[k].orderID != os[m].orderID
        invariant forall k | 0 <= k < |os| :: os[k].orderID !in matched
        invariant forall id | id in resting.Keys - left && id !in matched :: resting[id] in os
      {
        var id :| id in left;
        left := left - {id};
        if id !in matched {
          os := os + [resting[id]];
        }
      }
      forall j | 0 <= j < |restingByAge|
        ensures restingByAge[j] in os <==> !Uses(keeps, j)
      {
        KeptIDsMeanUsed(resting, restingByAge, keeps, j);
      }
    }

    /** The targets to place, in their order. */
    method UnmatchedTargets(targets: seq<Quote>, matched: set<int>, ghost keeps: Assignment) returns (quotes: seq<Quote>)
      requires |keeps| == |targets| && matched == Served(keeps)
      ensures |quotes| == |Unserved(keeps)|
      ensures forall k | 0 <= k < |quotes| :: quotes[k] == targets[Unserved(keeps)[k]]
    {
      hide Unserved;
      quotes := [];
      ghost var unserved: seq<nat> := [];
      assert Unserved(keeps[..0]) == [] by { UnservedNone(keeps[..0]); }
      for t := 0 to |targets|
        invariant unserved == Unserved(keeps[..t]) && |quotes| == |unserved|
        invariant forall k | 0 <= k < |quotes| :: unserved[k] < t && quotes[k] == targets[unserved[k]]
      {
        UnservedSnoc(keeps, t);
        if t !in matched {
          quotes := quotes + [targets[t]];
          unserved := unserved + [t];
        }
      }
      assert keeps[..|targets|] == keeps;
    }

    /** Applies successful cancellations. */
    method CommitCancels(cancelled: seq<RestingOrder>)
      requires Valid()
      modifies this
      ensures Valid() && resting == DeleteAll(old(resting), cancelled)
    {
      hide GoodLedger, SameOrder;
      DeleteAllKeepsGood(resting, cancelled);
      for i := 0 to |cancelled|
        invariant resting == DeleteAll(old(resting), cancelled[..i])
      {
        assert cancelled[..i + 1][..i] == cancelled[..i];
        var expected := cancelled[i];
        if expected.orderID !in resting || !SameOrder(resting[expected.orderID], expected) {
          continue;
        }
        resting := resting - {expected.orderID};
      }
      assert cancelled[..|cancelled|] == cancelled;
    }

    /** Applies successful placements without replacing any entry. */
    method CommitPlacements(ghost plan: Plan, placed: seq<RestingOrder>)
      requires Valid() && GoodTargets(plan.targets) && forall k | 0 <= k < |placed| :: FromTarget(plan, placed[k])
      modifies this
      ensures Valid() && resting == AddAbsent(old(resting), placed)
    {
      hide GoodLedger, FromTarget, GoodTargets;
      AddAbsentKeepsGood(plan, resting, placed);
      for i := 0 to |placed|
        invariant resting == AddAbsent(old(resting), placed[..i])
      {
        assert placed[..i + 1][..i] == placed[..i];
        var p := placed[i];
        if p.orderID !in resting {
          resting := resting[p.orderID := p];
        }
      }
      assert placed[..|placed|] == placed;
    }
  }

  /** What the workers of one cycle record: shared slices and counters, appended to under a mutex. */
  class CycleRecord {
    var cancelledOrders: seq<RestingOrder>
    var placedOrders: seq<RestingOrder>
    var cancelledCount: nat
    var placedCount: nat
    var errors: nat

    /** The record of a cycle in state `c`. */
    ghost predicate Represents(c: Cycle)
      reads this
    {
      && cancelledOrders == c.cancelled && cancelledCount == |c.cancelled|
      && placedOrders == c.placed && placedCount == |c.placed|
      && errors == c.errors
    }

    constructor (ghost plan: Plan, ghost max: int, ghost cancelledContext: bool)
      ensures Represents(Begin(plan, max, cancelledContext))
    {
      cancelledOrders, placedOrders, cancelledCount, placedCount, errors := [], [], 0, 0, 0;
    }

    /** A cancel request has returned. */
    method FinishCancel(ghost symbol: string, ghost c: Cycle, ghost w: nat, o: RestingOrder, reply: CancelReply)
      requires Represents(c) && Enabled(c, CancelReturns(w, reply)) && o == c.plan.toCancel[c.pool.workers[w].item]
      modifies this
      ensures Represents(Next(symbol, c, CancelReturns(w, reply)))
      ensures var dead := reply.CancelReply? &&
                          (reply.isLive == Some(false) || (reply.isLive.None? && reply.isCancelled == Some(true)));
              && cancelledOrders == old(cancelledOrders) + (if dead && ParseUint64(o.orderID).Some? then [o] else [])
              && errors == old(errors) + (if dead && ParseUint64(o.orderID).Some? then 0 else 1)
    {
      var id := ParseUint64(o.orderID);
      if id.None? {
        errors := errors + 1;
        return;
      }
      var gone := ValidateCancelResponse(reply);
      if !gone {
        errors := errors + 1;
      } else {
        cancelledOrders := cancelledOrders + [o];
        cancelledCount := cancelledCount + 1;
      }
    }

    /** A placement request has returned. */
    method FinishPlacement(ghost symbol: string, ghost c: Cycle, ghost w: nat, t: Quote, reply: PlaceReply)
      requires Represents(c) && Enabled(c, PlaceReturns(w, reply)) && t == TargetOf(c.plan, c.pool.workers[w].item)
      modifies this
      ensures Represents(Next(symbol, c, PlaceReturns(w, reply)))
      ensures var made := && reply.PlaceReply? && reply.orderID.Some? && TrimSpace(reply.orderID.value) != ""
                          && reply.isCancelled != Some(true) && reply.isLive != Some(false);
              && errors == old(errors) + (if made then 0 else 1)
              && placedOrders == old(placedOrders) +
                 if made then [RestingOrder(reply.orderID.value, t.clientOrderID, t.side, t.price, t.amount, t.amount)] else []
    {
      hide TrimSpace, TargetOf;
      if reply.PlaceFailed? {
        errors := errors + 1;
      } else if reply.PlaceReply? && (reply.isCancelled == Some(true) || reply.isLive == Some(false)) {
        errors := errors + 1;
      } else if reply.EmptyPlaceReply? || reply.orderID.None? || TrimSpace(reply.orderID.value) == "" {
        errors := errors + 1;
      } else {
        placedCount := placedCount + 1;
        placedOrders := placedOrders + [RestingOrder(reply.orderID.value, t.clientOrderID, t.side, t.price, t.amount, t.amount)];
      }
    }
  }

  /** Whether a cancel reply proves that the order is no longer live; liveness, when reported, decides. */
  method ValidateCancelResponse(reply: CancelReply) returns (gone: bool)
    ensures gone <==> reply.CancelReply? && (reply.isLive == Some(false) || (reply.isLive.None? && reply.isCancelled == Some(true)))
    ensures gone == ProvesNotLive(reply)
  {
    if !reply.CancelReply? {
      return false;
    }
    if reply.isLive.Some? {
      if reply.isLive.value {
        return false;
      }
      return true;
    }
    if reply.isCancelled.Some? && reply.isCancelled.value {
      return true;
    }
    return false;
  }

  // ---- what the methods rest on ----

  lemma StoreSame(r: Resting, id: string)
    ensures Store(r, id, Lookup(r, id)) == r
    ensures r - {id} == Store(r, id, None)
  {
  }

  lemma DecodeEnded(e: OrderEvent)
    requires e.orderID > 0 && StatusOf(e.orderStatus).Ended?
    ensures forall current :: Effect(Decode(e), EventOrderID(e), current) == None
  {
  }

  lemma DecodeOther(e: OrderEvent)
    requires e.orderID > 0 && StatusOf(e.orderStatus).OtherStatus?
    ensures forall r: Resting :: Store(r, EventOrderID(e), Effect(Decode(e), EventOrderID(e), Lookup(r, EventOrderID(e)))) == r
  {
  }

  /** A text with a valid side is not empty. */
  lemma SideGiven(e: OrderEvent)
    requires ValidSide(EventSide(e))
    ensures e.side != ""
  {
    assert TrimSpace("") == "" && ToLower("") == "";
  }

  lemma NothingMatched(tolerance: Decimal, ordered: seq<RestingOrder>, targets: seq<Quote>)
    ensures Assign(tolerance, ordered, targets[..0]) == [] && KeptIDs(ordered, []) == {} && Served([]) == {} && Kept([]) == 0
  {
  }

  lemma UnservedNone(a: Assignment)
    requires a == []
    ensures Unserved(a) == []
  {
  }

  lemma FirstFreeStep(tolerance: Decimal, ordered: seq<RestingOrder>, used: Assignment, t: Quote, i: nat)
    requires i < |ordered|
    ensures FirstFree(tolerance, ordered, used, t, i) ==
            if !Uses(used, i) && Compatible(tolerance, ordered[i], t) then i else FirstFree(tolerance, ordered, used, t, i + 1)
  {
  }

  lemma FirstFreeEnd(tolerance: Decimal, ordered: seq<RestingOrder>, used: Assignment, t: Quote)
    ensures FirstFree(tolerance, ordered, used, t, |ordered|) == -1
  {
  }

  ghost predicate CancelsUnused(r: Resting, ordered: seq<RestingOrder>, keeps: Assignment, os: seq<RestingOrder>) {
    && (forall k | 0 <= k < |os| :: os[k].orderID in r && r[os[k].orderID] == os[k])
    && (forall k, m | 0 <= k < m < |os| :: os[k].orderID != os[m].orderID)
    && (forall j | 0 <= j < |ordered| :: ordered[j] in os <==> !Uses(keeps, j))
  }

  lemma PlanAssembled(tolerance: Decimal, p: Plan)
    requires ListsByAge(p.ledger, p.ordered) && p.keeps == Assign(tolerance, p.ordered, p.targets)
    requires p.unserved == Unserved(p.keeps) && CancelsUnused(p.ledger, p.ordered, p.keeps, p.toCancel)
    ensures IsPlan(tolerance, p)
  {
    hide ListsByAge, Assign, Unserved;
  }

  /** No order to cancel would do for a target to place. */
  lemma CancelledFitsNone(tolerance: Decimal, p: Plan, o: RestingOrder, k: nat)
    requires IsPlan(tolerance, p) && o in p.toCancel && k < |p.unserved|
    ensures var t := TargetOf(p, k);
            !(o.side == t.side && Cmp(o.amount, t.amount) == 0 && (Cmp(o.price, t.price) == 0 || Within(tolerance, o.price, t.price)))
  {
    hide Cmp, Within, Compatible, Assign, Older;
    CancelledIsUnused(tolerance, p, o);
    var j :| 0 <= j < |p.ordered| && p.ordered[j] == o && !Uses(p.keeps, j);
    NoFitLeftOver(tolerance, p.ordered, p.targets, p.unserved[k], j);
  }

  lemma PlacesUnserved(p: Plan, quotes: seq<Quote>)
    requires p.unserved == Unserved(p.keeps) && |p.keeps| == |p.targets|
    requires |quotes| == |p.unserved| && forall k | 0 <= k < |quotes| :: quotes[k] == p.targets[p.unserved[k]]
    ensures quotes == QuotesToPlace(p)
  {
  }
}
