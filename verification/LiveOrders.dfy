/** The exchange's own book during a `Sync` cycle. It may accept any placement that was issued, at any time after, and may drop
    any live order at any time; its replies may fail in any way, but a reply that proves an order dead is true. */
module LiveOrders {
  import opened Wrappers
  import opened Decimals
  import opened Text
  import opened Ledger
  import opened QuoteDiff
  import opened SyncCycle
  import opened Counting
  import BW = BoundedWorkers

  /** A cycle and the orders that really are live. */
  datatype World = World(cycle: Cycle, live: set<Exposure>)

  datatype WorldStep = Do(step: Step) | Accept(item: nat) | Drop(x: Exposure)

  /** A reply to a cancel request that reports the order dead, or cancelled without a word on liveness, is true. */
  predicate Truthful(w: World, step: Step)
    requires Enabled(w.cycle, step)
  {
    step.CancelReturns? && step.ack.CancelReply? ==>
      var o := w.cycle.plan.toCancel[w.cycle.pool.workers[step.w].item];
      step.ack.isLive == Some(false) || (step.ack.isLive.None? && step.ack.isCancelled == Some(true)) ==>
        Old(o.orderID) !in w.live
  }

  lemma TruthfulMeans(w: World, step: Step)
    requires Enabled(w.cycle, step) && Truthful(w, step)
    ensures step.CancelReturns? ==>
              var o := w.cycle.plan.toCancel[w.cycle.pool.workers[step.w].item];
              CancelSucceeds(o, step.ack) ==> Old(o.orderID) !in w.live
  {
  }

  ghost predicate CanHappen(w: World, step: WorldStep) {
    match step
    case Do(s) => Enabled(w.cycle, s) && Truthful(w, s)
    case Accept(item) => item < Issued(w.cycle)
    case Drop(x) => x in w.live
  }

  ghost function After(symbol: string, w: World, step: WorldStep): World
    requires CanHappen(w, step)
  {
    match step
    case Do(s) => w.(cycle := Next(symbol, w.cycle, s))
    case Accept(item) => w.(live := w.live + {New(item)})
    case Drop(x) => w.(live := w.live - {x})
  }

  ghost predicate Bounded(tolerance: Decimal, w: World) {
    Inv(tolerance, w.cycle) && w.live <= PossiblyLive(w.cycle)
  }

  lemma IssuedGrows(symbol: string, c: Cycle, step: Step)
    requires Enabled(c, step)
    ensures Issued(c) <= Issued(Next(symbol, c, step))
    ensures Next(symbol, c, step).plan == c.plan
  {
    hide DeleteAll, AddAbsent, ApplyEvent, CancelSucceeds, PlacedID, TargetOf;
  }

  lemma OnlyProvedDead(symbol: string, c: Cycle, step: Step, id: string)
    requires Enabled(c, step) && id !in IDs(c.cancelled)
    requires step.CancelReturns? && CancelSucceeds(c.plan.toCancel[c.pool.workers[step.w].item], step.ack) ==>
               id != c.plan.toCancel[c.pool.workers[step.w].item].orderID
    ensures id !in IDs(Next(symbol, c, step).cancelled)
  {
    hide DeleteAll, AddAbsent, ApplyEvent, CancelSucceeds, PlacedID, TargetOf;
  }

  /** What is possibly live only shrinks by an order proved dead. */
  lemma PossiblyLiveKeeps(symbol: string, c: Cycle, step: Step, x: Exposure)
    requires Enabled(c, step) && x in PossiblyLive(c)
    requires step.CancelReturns? && CancelSucceeds(c.plan.toCancel[c.pool.workers[step.w].item], step.ack) ==>
               x != Old(c.plan.toCancel[c.pool.workers[step.w].item].orderID)
    ensures x in PossiblyLive(Next(symbol, c, step))
  {
    hide Next, Issued, IDs, CancelSucceeds, BW.Enabled;
    var d := Next(symbol, c, step);
    IssuedGrows(symbol, c, step);
    match x
    case Old(id) =>
      OnlyProvedDead(symbol, c, step, id);
      assert id in d.plan.ledger.Keys - IDs(d.cancelled);
    case New(item) =>
      assert item in Below(Issued(c));
      assert item in Below(Issued(d));
  }

  lemma StepKeepsBounded(tolerance: Decimal, symbol: string, w: World, step: WorldStep)
    requires Bounded(tolerance, w) && CanHappen(w, step)
    ensures Bounded(tolerance, After(symbol, w, step))
    ensures After(symbol, w, step).cycle.plan == w.cycle.plan
  {
    hide Inv, PossiblyLive, CancelSucceeds, Next, Truthful;
    match step
    case Do(s) =>
      NextKeeps(tolerance, symbol, w.cycle, s);
      TruthfulMeans(w, s);
      forall x | x in w.live
        ensures x in PossiblyLive(Next(symbol, w.cycle, s))
      {
        PossiblyLiveKeeps(symbol, w.cycle, s, x);
      }
    case Accept(item) => IssuedPossiblyLive(w.cycle, item);
    case Drop(_) =>
  }

  lemma IssuedPossiblyLive(c: Cycle, item: nat)
    requires item < Issued(c)
    ensures New(item) in PossiblyLive(c)
  {
    assert item in Below(Issued(c));
  }

  // ---- runs ----

  ghost predicate ValidHistory(symbol: string, w: World, steps: seq<WorldStep>)
    decreases |steps|
  {
    steps == [] || (CanHappen(w, steps[0]) && ValidHistory(symbol, After(symbol, w, steps[0]), steps[1..]))
  }

  ghost function Outcome(symbol: string, w: World, steps: seq<WorldStep>): World
    requires ValidHistory(symbol, w, steps)
    decreases |steps|
  {
    if steps == [] then w else Outcome(symbol, After(symbol, w, steps[0]), steps[1..])
  }

  lemma {:induction false} HistoryKeepsBounded(tolerance: Decimal, symbol: string, w: World, steps: seq<WorldStep>)
    requires Bounded(tolerance, w) && ValidHistory(symbol, w, steps)
    ensures Bounded(tolerance, Outcome(symbol, w, steps)) && Outcome(symbol, w, steps).cycle.plan == w.cycle.plan
    decreases |steps|
  {
    hide Bounded, CanHappen, After;
    if steps != [] {
      StepKeepsBounded(tolerance, symbol, w, steps[0]);
      HistoryKeepsBounded(tolerance, symbol, After(symbol, w, steps[0]), steps[1..]);
    }
  }

  /** In every history that begins with nothing live beyond the ledger's orders: the orders that are really live never
      outnumber both the initial ledger and the targets, and no placement is live unless every diffed-out order is dead. */
  lemma LiveNeverExceeds(tolerance: Decimal, symbol: string, plan: Plan, max: int, cancelledContext: bool,
                         live: set<Exposure>, steps: seq<WorldStep>)
    requires IsPlan(tolerance, plan) && forall x | x in live :: x.Old? && x.id in plan.ledger
    requires ValidHistory(symbol, World(Begin(plan, max, cancelledContext), live), steps)
    ensures var w := Outcome(symbol, World(Begin(plan, max, cancelledContext), live), steps);
            && |w.live| <= (if |plan.ledger| > |plan.targets| then |plan.ledger| else |plan.targets|)
            && ((exists item :: New(item) in w.live) ==>
              forall k | 0 <= k < |plan.toCancel| :: Old(plan.toCancel[k].orderID) !in w.live)
  {
    hide IsPlan, BW.Inv;
    var w := World(Begin(plan, max, cancelledContext), live);
    BeginHolds(tolerance, plan, max, cancelledContext);
    assert IDs([]) == {};
    assert live <= PossiblyLive(w.cycle);
    HistoryKeepsBounded(tolerance, symbol, w, steps);
    var u := Outcome(symbol, w, steps);
    ExposureBound(tolerance, u.cycle);
    SubsetSize(u.live, PossiblyLive(u.cycle));
    if item :| New(item) in u.live {
      NewMeansIssued(u.cycle, item);
      forall k | 0 <= k < |plan.toCancel|
        ensures Old(plan.toCancel[k].orderID) !in u.live
      {
        CancelledNotLive(u.cycle, plan.toCancel[k]);
      }
    }
  }

  lemma NewMeansIssued(c: Cycle, item: int)
    requires New(item) in PossiblyLive(c)
    ensures Issued(c) > 0
  {
  }

  lemma CancelledNotLive(c: Cycle, o: RestingOrder)
    requires o in c.cancelled
    ensures Old(o.orderID) !in PossiblyLive(c)
  {
    var k :| 0 <= k < |c.cancelled| && c.cancelled[k] == o;
    assert o.orderID in IDs(c.cancelled);
  }
}
