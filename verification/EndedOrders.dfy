/** Orders that end while their placement is under way. A terminal event takes an order out of the ledger; the commit of the
    placements, which adds every absent ID, can put it back. */
module EndedOrders {
  import opened Wrappers
  import opened Decimals
  import opened Text
  import opened Ledger
  import opened QuoteDiff
  import opened SyncCycle
  import opened SyncOutcome
  import BW = BoundedWorkers

  ghost predicate About(symbol: string, id: string, step: Step) {
    step.LedgerEvent? && Concerns(symbol, step.e) && EventOrderID(step.e) == id
  }

  ghost predicate NothingMoreAbout(symbol: string, id: string, steps: seq<Step>) {
    forall k | 0 <= k < |steps| :: !About(symbol, id, steps[k])
  }

  ghost predicate Named(id: string, placed: seq<RestingOrder>) {
    exists k :: 0 <= k < |placed| && placed[k].orderID == id
  }

  /** Whether the commit has put the ID back since a state in which the cycle was or was not completed. */
  ghost predicate BackIff(id: string, committedBefore: bool, c: Cycle) {
    && (committedBefore ==> c.phase.Completed?)
    && (id in c.resting <==> c.phase.Completed? && !committedBefore && Named(id, c.placed))
  }

  lemma OtherEvent(symbol: string, r: Resting, e: OrderEvent, id: string)
    requires !(Concerns(symbol, e) && EventOrderID(e) == id)
    ensures id in ApplyEvent(symbol, r, e) <==> id in r
  {
    hide Decode, Effect, EventOrderID;
    assert Lookup(ApplyEvent(symbol, r, e), id) == Lookup(r, id);
  }

  lemma NextBack(symbol: string, id: string, committedBefore: bool, c: Cycle, step: Step)
    requires BackIff(id, committedBefore, c) && Enabled(c, step) && !About(symbol, id, step)
    ensures BackIff(id, committedBefore, Next(symbol, c, step))
  {
    hide DeleteAll, AddAbsent, ApplyEvent, CancelSucceeds, PlacedID, TargetOf;
    match step
    case EndCancelPhase => DeleteAllOnlyUnchanged(c.resting, c.cancelled, id);
    case EndPlacePhase => AddAbsentOnlyAdds(c.resting, c.placed, id);
    case LedgerEvent(e) => OtherEvent(symbol, c.resting, e, id);
    case Schedule(_) =>
    case CancelReturns(_, _) =>
    case PlaceReturns(_, _) =>
    case SkipCancelled(_) =>
  }

  lemma {:induction false} RunBack(symbol: string, id: string, committedBefore: bool, c: Cycle, steps: seq<Step>)
    requires BackIff(id, committedBefore, c) && ValidRun(symbol, c, steps) && NothingMoreAbout(symbol, id, steps)
    ensures BackIff(id, committedBefore, Run(symbol, c, steps))
    decreases |steps|
  {
    hide BackIff, Next, About;
    if steps != [] {
      NextBack(symbol, id, committedBefore, c, steps[0]);
      assert forall k | 0 <= k < |steps[1..]| :: steps[1..][k] == steps[k + 1];
      RunBack(symbol, id, committedBefore, Next(symbol, c, steps[0]), steps[1..]);
    }
  }

  lemma EndedIsGone(symbol: string, c: Cycle, e: OrderEvent)
    requires Concerns(symbol, e) && StatusOf(e.orderStatus).Ended?
    ensures EventOrderID(e) !in ApplyEvent(symbol, c.resting, e)
  {
    hide StatusOf, EventOrderID;
    assert Lookup(ApplyEvent(symbol, c.resting, e), EventOrderID(e)).None?;
  }

  lemma {:induction false} RunSplit(symbol: string, c: Cycle, a: seq<Step>, b: seq<Step>)
    requires ValidRun(symbol, c, a + b)
    ensures ValidRun(symbol, c, a) && ValidRun(symbol, Run(symbol, c, a), b)
    ensures Run(symbol, c, a + b) == Run(symbol, Run(symbol, c, a), b)
    decreases |a|
  {
    hide Next, Enabled;
    if a == [] {
      assert a + b == b;
    } else {
      assert (a + b)[0] == a[0] && (a + b)[1..] == a[1..] + b;
      RunSplit(symbol, Next(symbol, c, a[0]), a[1..], b);
    }
  }

  /** In every run of a cycle: an order whose last event was terminal is in the ledger exactly when the placements have been
      committed, the event came before the commit, and a placement recorded in this cycle names it. */
  lemma EndedOrderBackIff(symbol: string, plan: Plan, max: int, cancelledContext: bool,
                          before: seq<Step>, e: OrderEvent, after: seq<Step>)
    requires Concerns(symbol, e) && StatusOf(e.orderStatus).Ended? && NothingMoreAbout(symbol, EventOrderID(e), after)
    requires ValidRun(symbol, Begin(plan, max, cancelledContext), before + ([LedgerEvent(e)] + after))
    ensures ValidRun(symbol, Begin(plan, max, cancelledContext), before)
    ensures var s := Run(symbol, Begin(plan, max, cancelledContext), before);
            var c := Run(symbol, Begin(plan, max, cancelledContext), before + ([LedgerEvent(e)] + after));
            EventOrderID(e) in c.resting <==>
            c.phase.Completed? && !s.phase.Completed? && Named(EventOrderID(e), c.placed)
  {
    hide StatusOf, EventOrderID, ApplyEvent;
    var rest := [LedgerEvent(e)] + after;
    RunSplit(symbol, Begin(plan, max, cancelledContext), before, rest);
    var s := Run(symbol, Begin(plan, max, cancelledContext), before);
    assert rest[0] == LedgerEvent(e) && rest[1..] == after;
    EndedIsGone(symbol, s, e);
    RunBack(symbol, EventOrderID(e), s.phase.Completed?, Next(symbol, s, LedgerEvent(e)), after);
  }

  // ---- it happens ----

  /** A cycle over an empty ledger with one target. */
  function LonePlan(t: Quote): Plan {
    Plan(map[], [], [t], [-1], [], [0])
  }

  lemma NothingToKeep(tolerance: Decimal, t: Quote)
    ensures Assign(tolerance, [], [t]) == [-1]
  {
    hide Compatible;
    assert [t][..0] == [];
    assert FirstFree(tolerance, [], [], t, 0) == -1;
  }

  lemma OneUnserved()
    ensures Unserved([-1]) == [0]
  {
    var a: Assignment := [-1];
    assert a[..0] == [];
    assert Unserved(a[..0]) == [];
  }

  lemma LonePlanIsPlan(tolerance: Decimal, t: Quote)
    ensures IsPlan(tolerance, LonePlan(t))
  {
    hide Compatible, Older, Assign, Unserved;
    NothingToKeep(tolerance, t);
    OneUnserved();
  }

  /** The order is placed, its terminal event arrives, and only then the placement's own reply. */
  function LateReplySteps(e: OrderEvent): seq<Step>
    requires e.orderID > 0
  {
    [EndCancelPhase, Schedule(BW.Check(0)), Schedule(BW.Claim(0)), LedgerEvent(e),
     PlaceReturns(0, PlaceReply(Some(EventOrderID(e)), Some(true), None)),
     Schedule(BW.Check(0)), Schedule(BW.Claim(0)), EndPlacePhase]
  }

  lemma IDNotBlank(e: OrderEvent)
    requires e.orderID > 0
    ensures TrimSpace(EventOrderID(e)) != ""
  {
    hide TrimSpace;
    var id := EventOrderID(e);
    assert IsDigit(id[0]) && IsDigit(id[|id| - 1]);
    NothingToTrim(id);
  }

  lemma RunCons(symbol: string, c: Cycle, step: Step, steps: seq<Step>)
    requires Enabled(c, step) && ValidRun(symbol, Next(symbol, c, step), steps)
    ensures ValidRun(symbol, c, [step] + steps)
    ensures Run(symbol, c, [step] + steps) == Run(symbol, Next(symbol, c, step), steps)
  {
    hide Next, Enabled;
    assert ([step] + steps)[1..] == steps;
  }

  function PoolOf(w: BW.Worker, next: nat, finished: seq<nat>): BW.Pool {
    BW.Pool(1, [w], next, false, finished)
  }

  function CycleAt(t: Quote, phase: Phase, pool: BW.Pool, placed: seq<RestingOrder>, resting: Resting): Cycle {
    Cycle(LonePlan(t), 1, phase, pool, [], placed, 0, resting)
  }

  lemma LoneBegins(symbol: string, t: Quote)
    ensures var c := Begin(LonePlan(t), 1, false);
            Enabled(c, EndCancelPhase)
            && Next(symbol, c, EndCancelPhase) == CycleAt(t, Placing, PoolOf(BW.Ready, 0, []), [], map[])
  {
    assert seq(1, i => BW.Ready) == [BW.Ready];
    assert seq(0, i => BW.Ready) == [];
  }

  lemma LoneWorks(symbol: string, t: Quote, next: nat, finished: seq<nat>, placed: seq<RestingOrder>)
    ensures var c := CycleAt(t, Placing, PoolOf(BW.Ready, next, finished), placed, map[]);
            var d := CycleAt(t, Placing, PoolOf(BW.Claiming, next, finished), placed, map[]);
            && Enabled(c, Schedule(BW.Check(0))) && Next(symbol, c, Schedule(BW.Check(0))) == d
            && Enabled(d, Schedule(BW.Claim(0)))
            && Next(symbol, d, Schedule(BW.Claim(0))) ==
               CycleAt(t, Placing, PoolOf(if next >= 1 then BW.Exited else BW.Running(next), next + 1, finished), placed, map[])
  {
  }

  lemma LoneReply(symbol: string, t: Quote, e: OrderEvent)
    requires Concerns(symbol, e) && StatusOf(e.orderStatus).Ended?
    ensures var c := CycleAt(t, Placing, PoolOf(BW.Running(0), 1, []), [], map[]);
            var reply := PlaceReply(Some(EventOrderID(e)), Some(true), None);
            && Enabled(c, LedgerEvent(e)) && Next(symbol, c, LedgerEvent(e)) == c
            && Enabled(c, PlaceReturns(0, reply))
            && Next(symbol, c, PlaceReturns(0, reply)) ==
               CycleAt(t, Placing, PoolOf(BW.Ready, 1, [0]), [PlacedOrder(t, EventOrderID(e))], map[])
  {
    hide TrimSpace, Digits, StatusOf;
    IDNotBlank(e);
    var empty: Resting := map[];
    assert empty - {EventOrderID(e)} == empty;
    assert Store(empty, EventOrderID(e), None) == empty;
  }

  lemma LoneEnds(symbol: string, t: Quote, o: RestingOrder)
    ensures var c := CycleAt(t, Placing, PoolOf(BW.Exited, 2, [0]), [o], map[]);
            && Enabled(c, EndPlacePhase)
            && Next(symbol, c, EndPlacePhase) == CycleAt(t, Completed, PoolOf(BW.Exited, 2, [0]), [o], map[o.orderID := o])
  {
    assert [o][..0] == [];
    assert AddAbsent(map[], []) == map[];
  }

  /** For every terminal event and every target, such a run: the cycle completes without an error, with the ended order in the
      ledger. */
  lemma EndedOrderReinserted(tolerance: Decimal, symbol: string, e: OrderEvent, t: Quote)
    requires Concerns(symbol, e) && StatusOf(e.orderStatus).Ended?
    ensures IsPlan(tolerance, LonePlan(t)) && ValidRun(symbol, Begin(LonePlan(t), 1, false), LateReplySteps(e))
    ensures var c := Run(symbol, Begin(LonePlan(t), 1, false), LateReplySteps(e));
            && c.phase.Completed? && c.errors == 0
            && c.resting == map[EventOrderID(e) := PlacedOrder(t, EventOrderID(e))]
  {
    hide Next, Enabled, StatusOf, EventOrderID, IsPlan, BW.Inv;
    LonePlanIsPlan(tolerance, t);
    var o := PlacedOrder(t, EventOrderID(e));
    var reply := PlaceReply(Some(EventOrderID(e)), Some(true), None);
    LoneBegins(symbol, t);
    LoneWorks(symbol, t, 0, [], []);
    LoneReply(symbol, t, e);
    LoneWorks(symbol, t, 1, [0], [o]);
    LoneEnds(symbol, t, o);
    LoneChain(symbol, t, e, o, reply);
  }

  lemma LoneChain(symbol: string, t: Quote, e: OrderEvent, o: RestingOrder, reply: PlaceReply)
    requires Concerns(symbol, e) && reply == PlaceReply(Some(EventOrderID(e)), Some(true), None)
    requires var c0 := Begin(LonePlan(t), 1, false);
             var c1 := CycleAt(t, Placing, PoolOf(BW.Ready, 0, []), [], map[]);
             var c2 := CycleAt(t, Placing, PoolOf(BW.Claiming, 0, []), [], map[]);
             var c3 := CycleAt(t, Placing, PoolOf(BW.Running(0), 1, []), [], map[]);
             var c4 := CycleAt(t, Placing, PoolOf(BW.Ready, 1, [0]), [o], map[]);
             var c5 := CycleAt(t, Placing, PoolOf(BW.Claiming, 1, [0]), [o], map[]);
             var c6 := CycleAt(t, Placing, PoolOf(BW.Exited, 2, [0]), [o], map[]);
             && Enabled(c0, EndCancelPhase) && Next(symbol, c0, EndCancelPhase) == c1
             && Enabled(c1, Schedule(BW.Check(0))) && Next(symbol, c1, Schedule(BW.Check(0))) == c2
             && Enabled(c2, Schedule(BW.Claim(0))) && Next(symbol, c2, Schedule(BW.Claim(0))) == c3
             && Enabled(c3, LedgerEvent(e)) && Next(symbol, c3, LedgerEvent(e)) == c3
             && Enabled(c3, PlaceReturns(0, reply)) && Next(symbol, c3, PlaceReturns(0, reply)) == c4
             && Enabled(c4, Schedule(BW.Check(0))) && Next(symbol, c4, Schedule(BW.Check(0))) == c5
             && Enabled(c5, Schedule(BW.Claim(0))) && Next(symbol, c5, Schedule(BW.Claim(0))) == c6
             && Enabled(c6, EndPlacePhase)
             && Next(symbol, c6, EndPlacePhase) == CycleAt(t, Completed, PoolOf(BW.Exited, 2, [0]), [o], map[o.orderID := o])
    ensures ValidRun(symbol, Begin(LonePlan(t), 1, false), LateReplySteps(e))
    ensures Run(symbol, Begin(LonePlan(t), 1, false), LateReplySteps(e)) ==
            CycleAt(t, Completed, PoolOf(BW.Exited, 2, [0]), [o], map[o.orderID := o])
  {
    hide Next, Enabled, EventOrderID, CycleAt, PoolOf, Begin, LonePlan;
    var c6 := CycleAt(t, Placing, PoolOf(BW.Exited, 2, [0]), [o], map[]);
    var c7 := Next(symbol, c6, EndPlacePhase);
    assert ValidRun(symbol, c7, []) && Run(symbol, c7, []) == c7;
    var s7: seq<Step> := [EndPlacePhase] + [];
    RunCons(symbol, c6, EndPlacePhase, []);
    var s6 := [Schedule(BW.Claim(0))] + s7;
    RunCons(symbol, CycleAt(t, Placing, PoolOf(BW.Claiming, 1, [0]), [o], map[]), Schedule(BW.Claim(0)), s7);
    var s5 := [Schedule(BW.Check(0))] + s6;
    RunCons(symbol, CycleAt(t, Placing, PoolOf(BW.Ready, 1, [0]), [o], map[]), Schedule(BW.Check(0)), s6);
    var c3 := CycleAt(t, Placing, PoolOf(BW.Running(0), 1, []), [], map[]);
    var s4 := [PlaceReturns(0, reply)] + s5;
    RunCons(symbol, c3, PlaceReturns(0, reply), s5);
    var s3 := [LedgerEvent(e)] + s4;
    RunCons(symbol, c3, LedgerEvent(e), s4);
    var s2 := [Schedule(BW.Claim(0))] + s3;
    RunCons(symbol, CycleAt(t, Placing, PoolOf(BW.Claiming, 0, []), [], map[]), Schedule(BW.Claim(0)), s3);
    var s1 := [Schedule(BW.Check(0))] + s2;
    RunCons(symbol, CycleAt(t, Placing, PoolOf(BW.Ready, 0, []), [], map[]), Schedule(BW.Check(0)), s2);
    RunCons(symbol, Begin(LonePlan(t), 1, false), EndCancelPhase, s1);
    assert [EndCancelPhase] + s1 == LateReplySteps(e);
  }
}
