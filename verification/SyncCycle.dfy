/** A whole `Sync` cycle: the diff, a concurrent cancel phase, and a concurrent placement phase that only follows a clean
    cancel phase. Replies of the exchange, worker schedules, cancellation of the context and order events arriving in between
    are all arbitrary. */
module SyncCycle {
  import opened Wrappers
  import opened Decimals
  import opened Text
  import opened Ledger
  import opened QuoteDiff
  import opened Counting
  import BW = BoundedWorkers

  // ---- commits to the ledger ----

  predicate SameOrder(a: RestingOrder, b: RestingOrder) {
    && a.orderID == b.orderID && a.clientOrderID == b.clientOrderID && a.side == b.side
    && Cmp(a.price, b.price) == 0 && Cmp(a.amount, b.amount) == 0 && Cmp(a.originalAmount, b.originalAmount) == 0
  }

  /** `deleteRestingIfUnchanged`. */
  function DeleteIfUnchanged(r: Resting, expected: RestingOrder): Resting {
    if expected.orderID in r && SameOrder(r[expected.orderID], expected) then r - {expected.orderID} else r
  }

  function DeleteAll(r: Resting, cancelled: seq<RestingOrder>): Resting {
    if cancelled == [] then r
    else DeleteIfUnchanged(DeleteAll(r, cancelled[..|cancelled| - 1]), cancelled[|cancelled| - 1])
  }

  function AddAbsent(r: Resting, placed: seq<RestingOrder>): Resting {
    if placed == [] then r
    else
      var s, p := AddAbsent(r, placed[..|placed| - 1]), placed[|placed| - 1];
      if p.orderID in s then s else s[p.orderID := p]
  }

  /** Committing cancellations removes only entries that still equal what was cancelled, and changes none. */
  lemma {:induction false} DeleteAllOnlyUnchanged(r: Resting, cancelled: seq<RestingOrder>, id: string)
    ensures id in DeleteAll(r, cancelled) ==> id in r && DeleteAll(r, cancelled)[id] == r[id]
    ensures id in r && id !in DeleteAll(r, cancelled) ==>
      exists k :: 0 <= k < |cancelled| && cancelled[k].orderID == id && SameOrder(r[id], cancelled[k])
    ensures id in r && (exists k :: 0 <= k < |cancelled| && cancelled[k].orderID == id && SameOrder(r[id], cancelled[k]))
      ==> id !in DeleteAll(r, cancelled)
  {
    hide SameOrder;
    if cancelled != [] {
      var init := cancelled[..|cancelled| - 1];
      DeleteAllOnlyUnchanged(r, init, id);
      assert forall k | 0 <= k < |init| :: init[k] == cancelled[k];
    }
  }

  /** Position `k` is the first under the ID. */
  ghost predicate FirstUnder(placed: seq<RestingOrder>, k: nat, id: string) {
    k < |placed| && placed[k].orderID == id && forall j | 0 <= j < k :: placed[j].orderID != id
  }

  /** Committing placements adds only absent keys: whatever was in the ledger stays as it is. */
  lemma {:induction false} AddAbsentOnlyAdds(r: Resting, placed: seq<RestingOrder>, id: string)
    ensures id in r ==> id in AddAbsent(r, placed) && AddAbsent(r, placed)[id] == r[id]
    ensures id !in r ==>
      (id in AddAbsent(r, placed) <==> exists k :: 0 <= k < |placed| && placed[k].orderID == id)
    ensures id !in r && id in AddAbsent(r, placed) ==> AddAbsent(r, placed)[id] in placed && AddAbsent(r, placed)[id].orderID == id
    ensures forall k | 0 <= k < |placed| ::
              FirstUnder(placed, k, id) && id !in r ==> id in AddAbsent(r, placed) && AddAbsent(r, placed)[id] == placed[k]
  {
    if placed != [] {
      var init := placed[..|placed| - 1];
      AddAbsentOnlyAdds(r, init, id);
      assert forall k | 0 <= k < |init| :: init[k] == placed[k];
    }
  }

  // ---- the exchange's replies ----

  datatype CancelReply = CancelFailed | EmptyCancelReply | CancelReply(isLive: Option<bool>, isCancelled: Option<bool>)

  /** `validateCancelResponse`: the reply proves that the order is no longer live. */
  predicate ProvesNotLive(reply: CancelReply) {
    reply.CancelReply? && (if reply.isLive.Some? then !reply.isLive.value else reply.isCancelled == Some(true))
  }

  datatype PlaceReply =
    | PlaceFailed
    | EmptyPlaceReply
    | PlaceReply(orderID: Option<string>, isLive: Option<bool>, isCancelled: Option<bool>)

  /** The order ID of a placement that counts as made. */
  function PlacedID(reply: PlaceReply): Option<string> {
    if !reply.PlaceReply? || reply.isCancelled == Some(true) || reply.isLive == Some(false) then None
    else if reply.orderID.None? || TrimSpace(reply.orderID.value) == "" then None
    else reply.orderID
  }

  function PlacedOrder(t: Quote, id: string): RestingOrder {
    RestingOrder(id, t.clientOrderID, t.side, t.price, t.amount, t.amount)
  }

  // ---- the plan ----

  /** The diff of one cycle. `unserved` lists the targets without a kept order. */
  datatype Plan = Plan(
    ledger: Resting,
    ordered: seq<RestingOrder>,
    targets: seq<Quote>,
    keeps: Assignment,
    toCancel: seq<RestingOrder>,
    unserved: seq<nat>)

  /** The targets without a kept order, in their order. */
  function Unserved(a: Assignment): (u: seq<nat>)
    ensures forall k | 0 <= k < |u| :: u[k] < |a| && a[u[k]] < 0
    ensures forall i | 0 <= i < |a| && a[i] < 0 :: i in u
  {
    if a == [] then []
    else
      var init := Unserved(a[..|a| - 1]);
      if a[|a| - 1] < 0 then init + [|a| - 1] else init
  }

  lemma {:induction false} UnservedCount(a: Assignment)
    ensures |Unserved(a)| == |a| - Kept(a)
    ensures forall k, m | 0 <= k < m < |Unserved(a)| :: Unserved(a)[k] < Unserved(a)[m]
  {
    if a != [] {
      var init := a[..|a| - 1];
      UnservedCount(init);
      KeptSnoc(a);
    }
  }

  lemma KeptSnoc(a: Assignment)
    requires a != []
    ensures Kept(a) == Kept(a[..|a| - 1]) + (if a[|a| - 1] < 0 then 0 else 1)
  {
    var n := |a| - 1;
    var s := Served(a[..n]);
    if a[n] < 0 {
      assert Served(a) == s;
    } else {
      assert Served(a) == s + {n};
      assert n !in s;
    }
  }

  /** What the diff of a ledger against targets must be; the cancel list may come in any order. */
  ghost predicate IsPlan(tolerance: Decimal, p: Plan) {
    && ListsByAge(p.ledger, p.ordered)
    && p.keeps == Assign(tolerance, p.ordered, p.targets)
    && p.unserved == Unserved(p.keeps)
    && (forall k | 0 <= k < |p.toCancel| :: p.toCancel[k].orderID in p.ledger && p.ledger[p.toCancel[k].orderID] == p.toCancel[k])
    && (forall k, m | 0 <= k < m < |p.toCancel| :: p.toCancel[k].orderID != p.toCancel[m].orderID)
    && (forall j | 0 <= j < |p.ordered| :: p.ordered[j] in p.toCancel <==> !Uses(p.keeps, j))
  }

  ghost function IDs(os: seq<RestingOrder>): set<string> {
    set k | 0 <= k < |os| :: os[k].orderID
  }

  lemma {:induction false} IDsSize(os: seq<RestingOrder>)
    requires forall k, m | 0 <= k < m < |os| :: os[k].orderID != os[m].orderID
    ensures |IDs(os)| == |os|
  {
    if os != [] {
      var init, o := os[..|os| - 1], os[|os| - 1];
      IDsSize(init);
      assert IDs(os) == IDs(init) + {o.orderID};
      assert o.orderID !in IDs(init);
    }
  }

  lemma ListingSize(r: Resting, ordered: seq<RestingOrder>)
    requires Lists(r, ordered)
    ensures |ordered| == |r| && IDs(ordered) == r.Keys
  {
    IDsSize(ordered);
    forall id | id in r
      ensures id in IDs(ordered)
    {
      var k :| 0 <= k < |ordered| && ordered[k] == r[id];
      assert ordered[k].orderID == id;
    }
    assert IDs(ordered) == r.Keys;
    assert |r| == |r.Keys|;
  }

  /** Orders kept and orders cancelled make up the ledger; targets served and targets placed make up the targets. */
  lemma PlanBalances(tolerance: Decimal, p: Plan)
    requires IsPlan(tolerance, p)
    ensures |p.ledger| == Kept(p.keeps) + |p.toCancel|
    ensures |p.targets| == Kept(p.keeps) + |p.unserved|
  {
    hide Compatible;
    hide Assign;
    hide ListsByAge;
    AssignIsMatching(tolerance, p.ordered, p.targets);
    UsedSize(tolerance, p.ordered, p.targets, p.keeps);
    ListsByAgeLists(p.ledger, p.ordered);
    UnservedCount(p.keeps);
    ListingSize(p.ledger, p.ordered);
    IDsSize(p.toCancel);
    CancelledPositions(tolerance, p);
  }

  lemma CancelledPositions(tolerance: Decimal, p: Plan)
    requires IsPlan(tolerance, p) && IsMatching(tolerance, p.ordered, p.targets, p.keeps)
    ensures |p.ordered| == |UsedOrders(p.keeps)| + |p.toCancel|
  {
    hide Compatible;
    hide Assign;
    var used := UsedOrders(p.keeps);
    var free := Below(|p.ordered|) - used;
    assert Below(|p.ordered|) == used + free;
    assert |used + free| == |used| + |free|;
    FreeAtMost(tolerance, p, free);
    FreeAtLeast(tolerance, p, free);
  }

  lemma FreeAtMost(tolerance: Decimal, p: Plan, free: set<int>)
    requires IsPlan(tolerance, p) && free == Below(|p.ordered|) - UsedOrders(p.keeps)
    ensures |free| <= |p.toCancel|
  {
    hide Compatible;
    hide Assign;
    hide Older;
    IDsSize(p.toCancel);
    forall j | j in free
      ensures IDAt(p.ordered, j) in IDs(p.toCancel)
    {
      FreeIsCancelled(tolerance, p, j);
    }
    DistinctIDs(p.ledger, p.ordered);
    ImageSize(free, j => IDAt(p.ordered, j), IDs(p.toCancel));
  }

  ghost function IDAt(ordered: seq<RestingOrder>, j: int): string {
    if 0 <= j < |ordered| then ordered[j].orderID else ""
  }

  lemma DistinctIDs(r: Resting, ordered: seq<RestingOrder>)
    requires ListsByAge(r, ordered)
    ensures forall i, j | 0 <= i < |ordered| && 0 <= j < |ordered| && i != j :: IDAt(ordered, i) != IDAt(ordered, j)
  {
  }

  lemma FreeIsCancelled(tolerance: Decimal, p: Plan, j: int)
    requires IsPlan(tolerance, p) && 0 <= j < |p.ordered| && j !in UsedOrders(p.keeps)
    ensures IDAt(p.ordered, j) in IDs(p.toCancel)
  {
    hide Compatible;
    hide Assign;
    hide ListsByAge;
    assert !Uses(p.keeps, j);
    var k :| 0 <= k < |p.toCancel| && p.toCancel[k] == p.ordered[j];
  }

  lemma FreeAtLeast(tolerance: Decimal, p: Plan, free: set<int>)
    requires IsPlan(tolerance, p) && free == Below(|p.ordered|) - UsedOrders(p.keeps)
    ensures |p.toCancel| <= |free|
  {
    hide Compatible;
    hide Assign;
    hide PositionOf;
    var ids := IDs(p.toCancel);
    IDsSize(p.toCancel);
    forall id | id in ids
      ensures PositionOf(p.ordered, id) in free && p.ordered[PositionOf(p.ordered, id)].orderID == id
    {
      CancelledPosition(tolerance, p, id);
    }
    ImageSize(ids, id => PositionOf(p.ordered, id), free);
  }

  lemma CancelledPosition(tolerance: Decimal, p: Plan, id: string)
    requires IsPlan(tolerance, p) && id in IDs(p.toCancel)
    ensures var j := PositionOf(p.ordered, id);
            0 <= j < |p.ordered| && p.ordered[j].orderID == id && !Uses(p.keeps, j)
  {
    hide Compatible;
    hide Assign;
    var k :| 0 <= k < |p.toCancel| && p.toCancel[k].orderID == id;
    assert p.ledger[id] in p.ordered;
    var j := PositionOf(p.ordered, id);
    assert p.ordered[j] == p.toCancel[k];
  }

  ghost function PositionOf(ordered: seq<RestingOrder>, id: string): int {
    if exists j :: 0 <= j < |ordered| && ordered[j].orderID == id
    then var j :| 0 <= j < |ordered| && ordered[j].orderID == id; j
    else -1
  }

  /** With IDs free of leading zeros, the diff is a function of the ledger's contents and the targets: whatever order the map
      yields, the same orders are kept, cancelled and placed. */
  lemma DiffIsDetermined(tolerance: Decimal, p: Plan, q: Plan)
    requires IsPlan(tolerance, p) && IsPlan(tolerance, q) && p.ledger == q.ledger && p.targets == q.targets
    requires forall id | id in p.ledger :: CanonicalID(id)
    ensures p.ordered == q.ordered && p.keeps == q.keeps && p.unserved == q.unserved
    ensures forall o :: o in p.toCancel <==> o in q.toCancel
  {
    hide CanonicalID, Older, Compatible, Assign, Unserved;
    AgeListingUnique(p.ledger, p.ordered, q.ordered);
    forall o
      ensures o in p.toCancel <==> o in q.toCancel
    {
      CancelledIsUnused(tolerance, p, o);
      CancelledIsUnused(tolerance, q, o);
    }
  }

  ghost predicate UnusedIn(p: Plan, o: RestingOrder) {
    exists j :: 0 <= j < |p.ordered| && p.ordered[j] == o && !Uses(p.keeps, j)
  }

  lemma CancelledIsUnused(tolerance: Decimal, p: Plan, o: RestingOrder)
    requires IsPlan(tolerance, p)
    ensures o in p.toCancel <==> UnusedIn(p, o)
  {
    hide CanonicalID, Older, Compatible, Assign, Unserved;
    if o in p.toCancel {
      assert p.ledger[o.orderID] in p.ordered;
      var j :| 0 <= j < |p.ordered| && p.ordered[j] == o;
      assert !Uses(p.keeps, j);
    }
  }

  // ---- the cycle ----

  datatype Phase = Cancelling | Placing | Aborted | Completed

  /** `cancelled` and `placed` hold what the workers appended, `errors` counts the recorded errors. */
  datatype Cycle = Cycle(
    plan: Plan,
    max: int,
    phase: Phase,
    pool: BW.Pool,
    cancelled: seq<RestingOrder>,
    placed: seq<RestingOrder>,
    errors: nat,
    resting: Resting)

  datatype Step =
    | Schedule(step: BW.Step)
    | CancelReturns(w: nat, ack: CancelReply)
    | PlaceReturns(w: nat, reply: PlaceReply)
    | SkipCancelled(w: nat)
    | EndCancelPhase
    | EndPlacePhase
    | LedgerEvent(e: OrderEvent)

  function Begin(plan: Plan, max: int, cancelledContext: bool): Cycle {
    Cycle(plan, max, Cancelling, BW.Start(max, |plan.toCancel|, cancelledContext), [], [], 0, plan.ledger)
  }

  predicate Enabled(c: Cycle, step: Step) {
    match step
    case Schedule(s) => (c.phase.Cancelling? || c.phase.Placing?) && !s.Return? && BW.Enabled(c.pool, s)
    case CancelReturns(w, _) => c.phase.Cancelling? && BW.Enabled(c.pool, BW.Return(w)) && c.pool.workers[w].item < |c.plan.toCancel|
    case PlaceReturns(w, _) => c.phase.Placing? && BW.Enabled(c.pool, BW.Return(w)) && c.pool.workers[w].item < |c.plan.unserved|
    case SkipCancelled(w) => (c.phase.Cancelling? || c.phase.Placing?) && c.pool.cancelled && BW.Enabled(c.pool, BW.Return(w))
    case EndCancelPhase => c.phase.Cancelling? && BW.Done(c.pool)
    case EndPlacePhase => c.phase.Placing? && BW.Done(c.pool)
    case LedgerEvent(_) => true
  }

  /** The cancel of an order succeeds when its ID is a number and the reply proves that it is not live. */
  predicate CancelSucceeds(o: RestingOrder, reply: CancelReply) {
    ParseUint64(o.orderID).Some? && ProvesNotLive(reply)
  }

  /** A phase that the context cut short counts as one more error. */
  function PhaseErrors(c: Cycle): nat {
    c.errors + (if BW.ReturnsNil(c.pool) then 0 else 1)
  }

  function TargetOf(p: Plan, item: nat): Quote {
    if item < |p.unserved| && p.unserved[item] < |p.targets| then p.targets[p.unserved[item]] else Quote("", ZERO, ZERO, "")
  }

  function Next(symbol: string, c: Cycle, step: Step): Cycle
    requires Enabled(c, step)
  {
    match step
    case Schedule(s) => c.(pool := BW.Next(c.pool, s))
    case CancelReturns(w, reply) =>
      var o := c.plan.toCancel[c.pool.workers[w].item];
      var d := c.(pool := BW.Next(c.pool, BW.Return(w)));
      if CancelSucceeds(o, reply) then d.(cancelled := c.cancelled + [o]) else d.(errors := c.errors + 1)
    case PlaceReturns(w, reply) =>
      var t := TargetOf(c.plan, c.pool.workers[w].item);
      var d := c.(pool := BW.Next(c.pool, BW.Return(w)));
      (match PlacedID(reply)
       case Some(id) => d.(placed := c.placed + [PlacedOrder(t, id)])
       case None => d.(errors := c.errors + 1))
    case SkipCancelled(w) => c.(pool := BW.Next(c.pool, BW.Return(w)), errors := c.errors + 1)
    case EndCancelPhase =>
      var d := c.(resting := DeleteAll(c.resting, c.cancelled), errors := PhaseErrors(c));
      if d.errors > 0 then d.(phase := Aborted)
      else d.(phase := Placing, pool := BW.Start(c.max, |c.plan.unserved|, c.pool.cancelled))
    case EndPlacePhase =>
      c.(phase := Completed, errors := PhaseErrors(c), resting := AddAbsent(c.resting, c.placed))
    case LedgerEvent(e) => c.(resting := ApplyEvent(symbol, c.resting, e))
  }

  // ---- what every step keeps ----

  /** With no error so far, the phase's results are its finished items, one for one and in the order they finished. */
  ghost predicate CancelsRecorded(c: Cycle) {
    c.phase.Cancelling? && c.errors == 0 ==>
      && |c.cancelled| == |c.pool.finished|
      && forall k | 0 <= k < |c.cancelled| ::
           c.pool.finished[k] < |c.plan.toCancel| && c.cancelled[k] == c.plan.toCancel[c.pool.finished[k]]
  }

  ghost predicate PlacementsRecorded(c: Cycle) {
    c.phase.Placing? || c.phase.Completed? ==>
      && (forall k | 0 <= k < |c.placed| :: FromTarget(c.plan, c.placed[k]))
      && (c.errors == 0 ==>
        && |c.placed| == |c.pool.finished|
        && forall k | 0 <= k < |c.placed| ::
             c.placed[k] == PlacedOrder(TargetOf(c.plan, c.pool.finished[k]), c.placed[k].orderID))
  }

  ghost predicate FromTarget(p: Plan, o: RestingOrder) {
    exists t | t in p.targets :: o == PlacedOrder(t, o.orderID)
  }

  /** Placing only after every diffed-out order was proved not live. */
  ghost predicate AllCancelled(c: Cycle) {
    forall k | 0 <= k < |c.plan.toCancel| :: c.plan.toCancel[k] in c.cancelled
  }

  ghost predicate Inv(tolerance: Decimal, c: Cycle) {
    && IsPlan(tolerance, c.plan)
    && BW.Inv(c.pool)
    && (c.pool.items > 0 ==> c.pool.workers != [])
    && (c.phase.Cancelling? ==> c.pool.items == |c.plan.toCancel|)
    && (c.phase.Placing? || c.phase.Completed? ==> c.pool.items == |c.plan.unserved| && AllCancelled(c))
    && (c.phase.Cancelling? || c.phase.Aborted? ==> c.placed == [])
    && (c.phase.Completed? ==> BW.Done(c.pool) && (c.errors == 0 ==> BW.ReturnsNil(c.pool)))
    && CancelsRecorded(c) && PlacementsRecorded(c)
  }

  lemma BeginHolds(tolerance: Decimal, plan: Plan, max: int, cancelledContext: bool)
    requires IsPlan(tolerance, plan)
    ensures Inv(tolerance, Begin(plan, max, cancelledContext))
  {
    hide IsPlan;
    BW.StartHolds(max, |plan.toCancel|, cancelledContext);
  }

  lemma ScheduleKeeps(tolerance: Decimal, symbol: string, c: Cycle, s: BW.Step)
    requires Inv(tolerance, c) && Enabled(c, Schedule(s))
    ensures Inv(tolerance, Next(symbol, c, Schedule(s)))
  {
    hide IsPlan;
    hide BW.Inv;
    BW.NextKeeps(c.pool, s);
  }

  lemma CancelReturnsKeeps(tolerance: Decimal, symbol: string, c: Cycle, w: nat, reply: CancelReply)
    requires Inv(tolerance, c) && Enabled(c, CancelReturns(w, reply))
    ensures Inv(tolerance, Next(symbol, c, CancelReturns(w, reply)))
  {
    hide IsPlan;
    hide BW.Inv;
    hide CancelSucceeds;
    BW.NextKeeps(c.pool, BW.Return(w));
  }

  lemma TargetOfPlan(tolerance: Decimal, p: Plan, item: nat)
    requires IsPlan(tolerance, p) && item < |p.unserved|
    ensures TargetOf(p, item) in p.targets
  {
    hide ListsByAge;
    hide Compatible;
  }

  lemma PlaceReturnsKeeps(tolerance: Decimal, symbol: string, c: Cycle, w: nat, reply: PlaceReply)
    requires Inv(tolerance, c) && Enabled(c, PlaceReturns(w, reply))
    ensures Inv(tolerance, Next(symbol, c, PlaceReturns(w, reply)))
  {
    hide IsPlan;
    hide BW.Inv;
    hide TargetOf;
    hide PlacedID;
    BW.NextKeeps(c.pool, BW.Return(w));
    var t := TargetOf(c.plan, c.pool.workers[w].item);
    TargetOfPlan(tolerance, c.plan, c.pool.workers[w].item);
    if PlacedID(reply).Some? {
      var o := PlacedOrder(t, PlacedID(reply).value);
      assert o == PlacedOrder(t, o.orderID);
      assert FromTarget(c.plan, o);
    }
  }

  lemma SkipKeeps(tolerance: Decimal, symbol: string, c: Cycle, w: nat)
    requires Inv(tolerance, c) && Enabled(c, SkipCancelled(w))
    ensures Inv(tolerance, Next(symbol, c, SkipCancelled(w)))
  {
    hide IsPlan;
    hide BW.Inv;
    BW.NextKeeps(c.pool, BW.Return(w));
  }

  lemma EndCancelKeeps(tolerance: Decimal, symbol: string, c: Cycle)
    requires Inv(tolerance, c) && Enabled(c, EndCancelPhase)
    ensures Inv(tolerance, Next(symbol, c, EndCancelPhase))
  {
    hide IsPlan;
    hide BW.Inv;
    hide DeleteAll;
    BW.StartHolds(c.max, |c.plan.unserved|, c.pool.cancelled);
    if PhaseErrors(c) == 0 {
      BW.NilMeansAllRan(c.pool);
      forall k: nat | k < |c.plan.toCancel|
        ensures c.plan.toCancel[k] in c.cancelled
      {
        assert k in c.pool.finished;
        var m :| 0 <= m < |c.pool.finished| && c.pool.finished[m] == k;
        assert c.cancelled[m] == c.plan.toCancel[k];
      }
    }
  }

  lemma NextKeeps(tolerance: Decimal, symbol: string, c: Cycle, step: Step)
    requires Inv(tolerance, c) && Enabled(c, step)
    ensures Inv(tolerance, Next(symbol, c, step))
    ensures Next(symbol, c, step).plan == c.plan
  {
    hide IsPlan;
    hide BW.Inv;
    hide DeleteAll;
    hide AddAbsent;
    hide ApplyEvent;
    match step
    case Schedule(s) => ScheduleKeeps(tolerance, symbol, c, s);
    case CancelReturns(w, reply) => CancelReturnsKeeps(tolerance, symbol, c, w, reply);
    case PlaceReturns(w, reply) => PlaceReturnsKeeps(tolerance, symbol, c, w, reply);
    case SkipCancelled(w) => SkipKeeps(tolerance, symbol, c, w);
    case EndCancelPhase => EndCancelKeeps(tolerance, symbol, c);
    case EndPlacePhase =>
    case LedgerEvent(_) =>
  }

  // ---- runs ----

  ghost predicate ValidRun(symbol: string, c: Cycle, steps: seq<Step>)
    decreases |steps|
  {
    steps == [] || (Enabled(c, steps[0]) && ValidRun(symbol, Next(symbol, c, steps[0]), steps[1..]))
  }

  ghost function Run(symbol: string, c: Cycle, steps: seq<Step>): Cycle
    requires ValidRun(symbol, c, steps)
    decreases |steps|
  {
    if steps == [] then c else Run(symbol, Next(symbol, c, steps[0]), steps[1..])
  }

  lemma {:induction false} RunKeeps(tolerance: Decimal, symbol: string, c: Cycle, steps: seq<Step>)
    requires Inv(tolerance, c) && ValidRun(symbol, c, steps)
    ensures Inv(tolerance, Run(symbol, c, steps)) && Run(symbol, c, steps).plan == c.plan
    decreases |steps|
  {
    hide Inv;
    hide Next;
    if steps != [] {
      NextKeeps(tolerance, symbol, c, steps[0]);
      RunKeeps(tolerance, symbol, Next(symbol, c, steps[0]), steps[1..]);
    }
  }

  // ---- exposure ----

  /** An order the exchange may hold: one of the ledger's, by ID, or a placement, by its position among the unserved. */
  datatype Exposure = Old(id: string) | New(item: int)

  /** Placements whose request may have been sent. */
  ghost function Issued(c: Cycle): nat {
    if c.phase.Placing? || c.phase.Completed? then (if c.pool.next < |c.plan.unserved| then c.pool.next else |c.plan.unserved|) else 0
  }

  /** Everything that may be live: the ledger's orders not proved dead, and every issued placement. */
  ghost function PossiblyLive(c: Cycle): set<Exposure> {
    (set id | id in c.plan.ledger.Keys - IDs(c.cancelled) :: Old(id)) + (set i | i in Below(Issued(c)) :: New(i))
  }

  lemma OldSize(ids: set<string>)
    ensures |set id | id in ids :: Old(id)| <= |ids|
  {
    var os := set id | id in ids :: Old(id);
    ImageSize(os, (x: Exposure) => if x.Old? then x.id else "", ids);
  }

  lemma NewSize(n: nat)
    ensures |set i | i in Below(n) :: New(i)| <= n
  {
    var ns := set i | i in Below(n) :: New(i);
    ImageSize(ns, (x: Exposure) => if x.New? then x.item else 0, Below(n));
  }

  lemma UnprovedSize(tolerance: Decimal, c: Cycle)
    requires Inv(tolerance, c)
    ensures |c.plan.ledger.Keys - IDs(c.cancelled)| <= |c.plan.ledger|
    ensures AllCancelled(c) ==> |c.plan.ledger.Keys - IDs(c.cancelled)| <= |c.plan.ledger| - |c.plan.toCancel|
  {
    hide ListsByAge;
    hide Compatible;
    hide BW.Inv;
    var ids := IDs(c.plan.toCancel);
    IDsSize(c.plan.toCancel);
    SubsetSize(c.plan.ledger.Keys - IDs(c.cancelled), c.plan.ledger.Keys);
    if AllCancelled(c) {
      assert ids <= IDs(c.cancelled) by {
        forall id | id in ids
          ensures id in IDs(c.cancelled)
        {
          var k :| 0 <= k < |c.plan.toCancel| && c.plan.toCancel[k].orderID == id;
          assert c.plan.toCancel[k] in c.cancelled;
        }
      }
      assert ids <= c.plan.ledger.Keys;
      assert c.plan.ledger.Keys == ids + (c.plan.ledger.Keys - ids);
      assert |ids + (c.plan.ledger.Keys - ids)| == |ids| + |c.plan.ledger.Keys - ids|;
      SubsetSize(c.plan.ledger.Keys - IDs(c.cancelled), c.plan.ledger.Keys - ids);
    }
  }

  lemma ExposureBound(tolerance: Decimal, c: Cycle)
    requires Inv(tolerance, c)
    ensures |PossiblyLive(c)| <= if |c.plan.ledger| > |c.plan.targets| then |c.plan.ledger| else |c.plan.targets|
  {
    hide IsPlan;
    hide BW.Inv;
    var olds := set id | id in c.plan.ledger.Keys - IDs(c.cancelled) :: Old(id);
    var news := set i | i in Below(Issued(c)) :: New(i);
    OldSize(c.plan.ledger.Keys - IDs(c.cancelled));
    NewSize(Issued(c));
    UnprovedSize(tolerance, c);
    PlanBalances(tolerance, c.plan);
    UnionSize(PossiblyLive(c), olds, news);
  }

  /** In every run, with any replies, failures, schedule, cancellation and interleaved order events: no placement is issued
      unless every diffed-out order was acknowledged as not live, and the orders possibly live never outnumber both the
      initial ledger and the targets. */
  lemma ExposureSafe(tolerance: Decimal, symbol: string, plan: Plan, max: int, cancelledContext: bool, steps: seq<Step>)
    requires IsPlan(tolerance, plan)
    requires ValidRun(symbol, Begin(plan, max, cancelledContext), steps)
    ensures var c := Run(symbol, Begin(plan, max, cancelledContext), steps);
            && (Issued(c) > 0 || c.placed != [] ==> forall k | 0 <= k < |plan.toCancel| :: plan.toCancel[k] in c.cancelled)
            && |PossiblyLive(c)| <= if |plan.ledger| > |plan.targets| then |plan.ledger| else |plan.targets|
  {
    hide IsPlan;
    hide PossiblyLive;
    hide BW.Inv;
    BeginHolds(tolerance, plan, max, cancelledContext);
    RunKeeps(tolerance, symbol, Begin(plan, max, cancelledContext), steps);
    ExposureBound(tolerance, Run(symbol, Begin(plan, max, cancelledContext), steps));
  }
}
