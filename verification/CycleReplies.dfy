/** What a `Sync` cycle records, in terms of the replies it received: which replies count as cancellations, which as
    placements, and which steps as errors, over every run. */
module CycleReplies {
  import opened Wrappers
  import opened Decimals
  import opened Text
  import opened Ledger
  import opened QuoteDiff
  import opened SyncCycle
  import opened SyncOutcome
  import BW = BoundedWorkers

  // ---- single replies ----

  /** Liveness decides when it is reported; otherwise only a confirmed cancellation will do. */
  predicate SaysDead(reply: CancelReply) {
    reply.CancelReply? && (reply.isLive == Some(false) || (reply.isLive.None? && reply.isCancelled == Some(true)))
  }

  /** The reply names an order and does not report it cancelled or dead. */
  predicate SaysPlaced(reply: PlaceReply) {
    && reply.PlaceReply? && reply.orderID.Some? && TrimSpace(reply.orderID.value) != ""
    && reply.isCancelled != Some(true) && reply.isLive != Some(false)
  }

  /** The order that a returning cancel request was for. */
  function CancelOf(c: Cycle, w: nat, reply: CancelReply): RestingOrder
    requires Enabled(c, CancelReturns(w, reply))
  {
    c.plan.toCancel[c.pool.workers[w].item]
  }

  /** The step is a reply that proves the order dead, and the order's ID is a number. */
  predicate Kills(c: Cycle, step: Step, o: RestingOrder)
    requires Enabled(c, step)
  {
    step.CancelReturns? && o == CancelOf(c, step.w, step.ack) && SaysDead(step.ack) && ParseUint64(o.orderID).Some?
  }

  /** The ledger entry for the target that a returning placement request was for. */
  function EntryFor(c: Cycle, w: nat, reply: PlaceReply): RestingOrder
    requires Enabled(c, PlaceReturns(w, reply)) && SaysPlaced(reply)
  {
    var i := c.plan.unserved[c.pool.workers[w].item];
    if i < |c.plan.targets| then
      var t := c.plan.targets[i];
      RestingOrder(reply.orderID.value, t.clientOrderID, t.side, t.price, t.amount, t.amount)
    else RestingOrder(reply.orderID.value, "", "", ZERO, ZERO, ZERO)
  }

  // ---- what a step adds to the record ----

  function DeadAt(c: Cycle, step: Step): seq<RestingOrder>
    requires Enabled(c, step)
  {
    if step.CancelReturns? && Kills(c, step, CancelOf(c, step.w, step.ack)) then [CancelOf(c, step.w, step.ack)] else []
  }

  function PlacedAt(c: Cycle, step: Step): seq<RestingOrder>
    requires Enabled(c, step)
  {
    if step.PlaceReturns? && SaysPlaced(step.reply) then [EntryFor(c, step.w, step.reply)] else []
  }

  /** A request that failed, a request skipped after cancellation, or a phase with items that the context cut short. */
  function FailuresAt(c: Cycle, step: Step): nat
    requires Enabled(c, step)
  {
    if || (step.CancelReturns? && DeadAt(c, step) == [])
       || (step.PlaceReturns? && PlacedAt(c, step) == [])
       || step.SkipCancelled?
       || ((step.EndCancelPhase? || step.EndPlacePhase?) && c.pool.items > 0 && c.pool.cancelled)
    then 1 else 0
  }

  lemma StepRecords(symbol: string, c: Cycle, step: Step)
    requires Enabled(c, step)
    ensures var d := Next(symbol, c, step);
            && d.cancelled == c.cancelled + DeadAt(c, step)
            && d.placed == c.placed + PlacedAt(c, step)
            && d.errors == c.errors + FailuresAt(c, step)
  {
    hide DeleteAll, AddAbsent, ApplyEvent, TrimSpace, ParseUint64, BW.Next;
  }

  /** How a phase ends: placements follow exactly when nothing failed and the context did not cut the cancels short. */
  lemma PhaseEnds(symbol: string, c: Cycle, step: Step)
    requires Enabled(c, step) && (step.EndCancelPhase? || step.EndPlacePhase?)
    ensures Next(symbol, c, step).phase ==
            if step.EndPlacePhase? then Completed
            else if c.errors == 0 && (c.pool.items == 0 || !c.pool.cancelled) then Placing else Aborted
  {
    hide DeleteAll, AddAbsent;
  }

  // ---- runs ----

  /** The state before step `k`. */
  ghost function Before(symbol: string, c: Cycle, steps: seq<Step>, k: nat): (d: Cycle)
    requires ValidRun(symbol, c, steps) && k < |steps|
    ensures Enabled(d, steps[k])
    decreases |steps|
  {
    if k == 0 then c else Before(symbol, Next(symbol, c, steps[0]), steps[1..], k - 1)
  }

  ghost function Deaths(symbol: string, c: Cycle, steps: seq<Step>): seq<RestingOrder>
    requires ValidRun(symbol, c, steps)
    decreases |steps|
  {
    if steps == [] then [] else DeadAt(c, steps[0]) + Deaths(symbol, Next(symbol, c, steps[0]), steps[1..])
  }

  ghost function Placements(symbol: string, c: Cycle, steps: seq<Step>): seq<RestingOrder>
    requires ValidRun(symbol, c, steps)
    decreases |steps|
  {
    if steps == [] then [] else PlacedAt(c, steps[0]) + Placements(symbol, Next(symbol, c, steps[0]), steps[1..])
  }

  ghost function Failures(symbol: string, c: Cycle, steps: seq<Step>): nat
    requires ValidRun(symbol, c, steps)
    decreases |steps|
  {
    if steps == [] then 0 else FailuresAt(c, steps[0]) + Failures(symbol, Next(symbol, c, steps[0]), steps[1..])
  }

  /** Every run records the replies that prove an order dead, the replies that leave an order placed, and one error for
      everything else that came back, in their order. */
  lemma {:induction false} RunRecords(symbol: string, c: Cycle, steps: seq<Step>)
    requires ValidRun(symbol, c, steps)
    ensures var d := Run(symbol, c, steps);
            && d.cancelled == c.cancelled + Deaths(symbol, c, steps)
            && d.placed == c.placed + Placements(symbol, c, steps)
            && d.errors == c.errors + Failures(symbol, c, steps)
    decreases |steps|
  {
    hide Next, DeadAt, PlacedAt, FailuresAt, Enabled;
    if steps != [] {
      StepRecords(symbol, c, steps[0]);
      RunRecords(symbol, Next(symbol, c, steps[0]), steps[1..]);
    }
  }

  ghost predicate KilledAt(symbol: string, c: Cycle, steps: seq<Step>, k: nat, o: RestingOrder)
    requires ValidRun(symbol, c, steps)
  {
    k < |steps| && Kills(Before(symbol, c, steps, k), steps[k], o)
  }

  lemma {:induction false} DeathsMean(symbol: string, c: Cycle, steps: seq<Step>, o: RestingOrder)
    requires ValidRun(symbol, c, steps)
    ensures o in Deaths(symbol, c, steps) <==> exists k: nat :: KilledAt(symbol, c, steps, k, o)
    decreases |steps|
  {
    hide Next, Kills, Enabled;
    if steps != [] {
      var d, rest := Next(symbol, c, steps[0]), steps[1..];
      DeathsMean(symbol, d, rest, o);
      DeadAtMeans(c, steps[0], o);
      if o in DeadAt(c, steps[0]) {
        assert KilledAt(symbol, c, steps, 0, o);
      }
      if o in Deaths(symbol, d, rest) {
        var k: nat :| KilledAt(symbol, d, rest, k, o);
        assert KilledAt(symbol, c, steps, k + 1, o);
      }
      if k: nat :| KilledAt(symbol, c, steps, k, o) {
        if k > 0 {
          assert KilledAt(symbol, d, rest, k - 1, o);
        }
      }
    }
  }

  lemma DeadAtMeans(c: Cycle, step: Step, o: RestingOrder)
    requires Enabled(c, step)
    ensures o in DeadAt(c, step) <==> Kills(c, step, o)
  {
  }

  /** In every run from the beginning of a cycle, an order is recorded as cancelled exactly when some reply to its own cancel
      request reports it dead, or reports it cancelled and says nothing about liveness, and its ID is a number. */
  lemma CancelledIffKilled(symbol: string, plan: Plan, max: int, cancelledContext: bool, steps: seq<Step>, o: RestingOrder)
    requires ValidRun(symbol, Begin(plan, max, cancelledContext), steps)
    ensures o in Run(symbol, Begin(plan, max, cancelledContext), steps).cancelled <==>
      exists k: nat :: KilledAt(symbol, Begin(plan, max, cancelledContext), steps, k, o)
  {
    RunRecords(symbol, Begin(plan, max, cancelledContext), steps);
    DeathsMean(symbol, Begin(plan, max, cancelledContext), steps, o);
  }

  /** So no placement is issued unless each order to cancel was reported dead in this very run. */
  lemma PlacesOnlyAfterDeaths(tolerance: Decimal, symbol: string, plan: Plan, max: int, cancelledContext: bool,
                              steps: seq<Step>, o: RestingOrder)
    requires IsPlan(tolerance, plan) && o in plan.toCancel
    requires ValidRun(symbol, Begin(plan, max, cancelledContext), steps)
    requires Issued(Run(symbol, Begin(plan, max, cancelledContext), steps)) > 0
    ensures exists k: nat :: KilledAt(symbol, Begin(plan, max, cancelledContext), steps, k, o)
  {
    hide IsPlan, KilledAt, Issued;
    ExposureSafe(tolerance, symbol, plan, max, cancelledContext, steps);
    CancelledIffKilled(symbol, plan, max, cancelledContext, steps, o);
  }

  // ---- when everything succeeds ----

  /** Every cancel is answered with the order's death, every placement leaves an order, and the context stays alive. */
  ghost predicate AllGood(steps: seq<Step>) {
    forall k | 0 <= k < |steps| :: GoodStep(steps[k])
  }

  predicate GoodStep(step: Step) {
    && (step.CancelReturns? ==> SaysDead(step.ack))
    && (step.PlaceReturns? ==> SaysPlaced(step.reply))
    && !step.SkipCancelled? && step != Schedule(BW.Cancel)
  }

  ghost predicate NumericIDs(os: seq<RestingOrder>) {
    forall k | 0 <= k < |os| :: ParseUint64(os[k].orderID).Some?
  }

  lemma GoodStepClean(symbol: string, c: Cycle, step: Step)
    requires Enabled(c, step) && GoodStep(step) && NumericIDs(c.plan.toCancel) && !c.pool.cancelled
    ensures FailuresAt(c, step) == 0
    ensures var d := Next(symbol, c, step); d.plan == c.plan && !d.pool.cancelled
  {
    hide DeleteAll, AddAbsent, ApplyEvent, TrimSpace, ParseUint64, TargetOf;
  }

  lemma {:induction false} GoodRunClean(symbol: string, c: Cycle, steps: seq<Step>)
    requires ValidRun(symbol, c, steps) && AllGood(steps) && NumericIDs(c.plan.toCancel) && !c.pool.cancelled
    ensures Failures(symbol, c, steps) == 0
    decreases |steps|
  {
    hide Next, FailuresAt, Enabled, GoodStep, NumericIDs;
    if steps != [] {
      GoodStepClean(symbol, c, steps[0]);
      GoodRunClean(symbol, Next(symbol, c, steps[0]), steps[1..]);
    }
  }

  /** When every reply is good and the IDs to cancel are numbers, no error is recorded. */
  lemma GoodRepliesNoErrors(symbol: string, plan: Plan, max: int, steps: seq<Step>)
    requires ValidRun(symbol, Begin(plan, max, false), steps) && AllGood(steps) && NumericIDs(plan.toCancel)
    ensures Run(symbol, Begin(plan, max, false), steps).errors == 0
  {
    RunRecords(symbol, Begin(plan, max, false), steps);
    GoodRunClean(symbol, Begin(plan, max, false), steps);
  }

  /** The placement replies name new orders, each its own. */
  ghost predicate NewNames(r: Resting, steps: seq<Step>) {
    && (forall k | 0 <= k < |steps| :: Named(steps[k]).Some? ==> Named(steps[k]).value !in r)
    && (forall j, k | 0 <= j < k < |steps| :: Named(steps[j]).Some? ==> Named(steps[j]) != Named(steps[k]))
  }

  function Named(step: Step): Option<string> {
    if step.PlaceReturns? && SaysPlaced(step.reply) then step.reply.orderID else None
  }

  lemma {:induction false} PlacementIsNamed(symbol: string, c: Cycle, steps: seq<Step>, m: nat)
    requires ValidRun(symbol, c, steps) && m < |Placements(symbol, c, steps)|
    ensures exists k :: 0 <= k < |steps| && Named(steps[k]) == Some(Placements(symbol, c, steps)[m].orderID)
    decreases |steps|
  {
    hide Next, Enabled, TrimSpace;
    var n := |PlacedAt(c, steps[0])|;
    if m < n {
      assert Named(steps[0]) == Some(Placements(symbol, c, steps)[m].orderID);
    } else {
      var d, rest := Next(symbol, c, steps[0]), steps[1..];
      PlacementIsNamed(symbol, d, rest, m - n);
      var k :| 0 <= k < |rest| && Named(rest[k]) == Some(Placements(symbol, d, rest)[m - n].orderID);
      assert steps[k + 1] == rest[k];
    }
  }

  lemma {:induction false} PlacementsDiffer(symbol: string, c: Cycle, steps: seq<Step>, r: Resting)
    requires ValidRun(symbol, c, steps) && NewNames(r, steps)
    ensures forall k | 0 <= k < |Placements(symbol, c, steps)| :: Placements(symbol, c, steps)[k].orderID !in r
    ensures forall j, k | 0 <= j < k < |Placements(symbol, c, steps)| ::
              Placements(symbol, c, steps)[j].orderID != Placements(symbol, c, steps)[k].orderID
    decreases |steps|
  {
    hide Next, Enabled, TrimSpace;
    if steps != [] {
      var d, rest := Next(symbol, c, steps[0]), steps[1..];
      var first, later := PlacedAt(c, steps[0]), Placements(symbol, d, rest);
      RestNew(r, steps);
      PlacementsDiffer(symbol, d, rest, r);
      if first != [] {
        forall k: nat | k < |later|
          ensures later[k].orderID != first[0].orderID
        {
          PlacementIsNamed(symbol, d, rest, k);
          var m :| 0 <= m < |rest| && Named(rest[m]) == Some(later[k].orderID);
          assert steps[m + 1] == rest[m];
          assert Named(steps[0]) == Some(first[0].orderID);
        }
        assert Named(steps[0]) == Some(first[0].orderID);
      }
    }
  }

  lemma RestNew(r: Resting, steps: seq<Step>)
    requires steps != [] && NewNames(r, steps)
    ensures NewNames(r, steps[1..])
  {
    hide Named;
    var rest := steps[1..];
    assert forall k | 0 <= k < |rest| :: rest[k] == steps[k + 1];
  }

  /** The replies of a whole successful cycle, as a condition a caller can check on what came back. */
  ghost predicate GoodReplies(plan: Plan, steps: seq<Step>) {
    AllGood(steps) && NumericIDs(plan.toCancel) && NewNames(plan.ledger, steps)
  }

  lemma GoodRepliesSucceed(symbol: string, plan: Plan, max: int, steps: seq<Step>)
    requires ValidRun(symbol, Begin(plan, max, false), steps) && GoodReplies(plan, steps)
    ensures var c := Run(symbol, Begin(plan, max, false), steps);
            && c.errors == 0
            && (forall k | 0 <= k < |c.placed| :: c.placed[k].orderID !in plan.ledger)
            && (forall k, m | 0 <= k < m < |c.placed| :: c.placed[k].orderID != c.placed[m].orderID)
  {
    hide AllGood, NumericIDs, NewNames;
    GoodRepliesNoErrors(symbol, plan, max, steps);
    RunRecords(symbol, Begin(plan, max, false), steps);
    PlacementsDiffer(symbol, Begin(plan, max, false), steps, plan.ledger);
  }

  /** The run includes the end of the placement phase. */
  ghost predicate ReachesEnd(steps: seq<Step>) {
    exists k :: 0 <= k < |steps| && steps[k].EndPlacePhase?
  }

  lemma CompletedStays(symbol: string, c: Cycle, step: Step)
    requires Enabled(c, step) && (c.phase.Completed? || step.EndPlacePhase?)
    ensures Next(symbol, c, step).phase.Completed?
  {
    hide AddAbsent, ApplyEvent;
  }

  lemma {:induction false} EndCompletes(symbol: string, c: Cycle, steps: seq<Step>)
    requires ValidRun(symbol, c, steps) && (c.phase.Completed? || ReachesEnd(steps))
    ensures Run(symbol, c, steps).phase.Completed?
    decreases |steps|
  {
    hide Next, Enabled;
    if steps != [] {
      var d, rest := Next(symbol, c, steps[0]), steps[1..];
      assert forall k | 0 <= k < |rest| :: rest[k] == steps[k + 1];
      if c.phase.Completed? || steps[0].EndPlacePhase? {
        CompletedStays(symbol, c, steps[0]);
      } else {
        var k :| 0 <= k < |steps| && steps[k].EndPlacePhase?;
        assert rest[k - 1].EndPlacePhase?;
      }
      EndCompletes(symbol, d, rest);
    }
  }

  /** One order per target and nothing else: each equal to its target in side, price and amount. */
  ghost predicate ExactlyTargets(r: Resting, targets: seq<Quote>, ids: seq<string>) {
    && |ids| == |targets|
    && (forall i | 0 <= i < |ids| ::
         && ids[i] in r && r[ids[i]].side == targets[i].side
         && Cmp(r[ids[i]].price, targets[i].price) == 0 && Cmp(r[ids[i]].amount, targets[i].amount) == 0)
    && (forall i, j | 0 <= i < j < |ids| :: ids[i] != ids[j])
    && (forall id | id in r :: id in ids)
  }

  /** An undisturbed cycle with exact prices whose replies are all good and that runs to its end leaves exactly the targets. */
  lemma GoodRepliesRealizeTargets(symbol: string, plan: Plan, max: int, steps: seq<Step>) returns (ids: seq<string>)
    requires IsPlan(EXACT, plan) && ValidRun(symbol, Begin(plan, max, false), steps) && Quiet(steps) && GoodReplies(plan, steps)
    requires ReachesEnd(steps)
    ensures ExactlyTargets(Run(symbol, Begin(plan, max, false), steps).resting, plan.targets, ids)
  {
    hide IsPlan, Quiet, GoodReplies, RealizedBy, ExactlyTargets, BW.Inv, ReachesEnd;
    BeginHolds(EXACT, plan, max, false);
    RunKeeps(EXACT, symbol, Begin(plan, max, false), steps);
    GoodRepliesSucceed(symbol, plan, max, steps);
    EndCompletes(symbol, Begin(plan, max, false), steps);
    ids := SyncRealizesTargets(symbol, plan, max, steps);
    RealizedMeans(Run(symbol, Begin(plan, max, false), steps).resting, plan.targets, ids);
  }

  lemma RealizedMeans(r: Resting, targets: seq<Quote>, ids: seq<string>)
    requires RealizedBy(r, targets, ids)
    ensures ExactlyTargets(r, targets, ids)
  {
    hide Cmp;
  }

  /** And a second cycle over the same targets has nothing to do. */
  lemma GoodRepliesThenIdle(symbol: string, plan: Plan, max: int, steps: seq<Step>, again: Plan)
    requires IsPlan(EXACT, plan) && ValidRun(symbol, Begin(plan, max, false), steps) && Quiet(steps) && GoodReplies(plan, steps)
    requires ReachesEnd(steps)
    requires IsPlan(EXACT, again) && AllFit(again.ordered, again.targets) && again.targets == plan.targets
    requires again.ledger == Run(symbol, Begin(plan, max, false), steps).resting
    ensures again.toCancel == [] && again.unserved == []
  {
    hide IsPlan, Quiet, GoodReplies, AllFit, BW.Inv, ReachesEnd;
    BeginHolds(EXACT, plan, max, false);
    RunKeeps(EXACT, symbol, Begin(plan, max, false), steps);
    GoodRepliesSucceed(symbol, plan, max, steps);
    EndCompletes(symbol, Begin(plan, max, false), steps);
    SecondSyncIsIdle(symbol, plan, max, steps, again);
  }

  /** `CancelAll`: when every reply is good, the end of the cancel phase leaves an undisturbed ledger empty. */
  lemma GoodPurgeEmpties(symbol: string, plan: Plan, max: int, steps: seq<Step>)
    requires IsPlan(EXACT, plan) && plan.targets == []
    requires ValidRun(symbol, Begin(plan, max, false), steps) && Quiet(steps) && GoodReplies(plan, steps)
    requires Run(symbol, Begin(plan, max, false), steps).phase != Cancelling && !ReachesEnd(steps)
    ensures Run(symbol, Begin(plan, max, false), steps).resting == map[]
  {
    hide IsPlan, Quiet, GoodReplies;
    GoodRepliesSucceed(symbol, plan, max, steps);
    PlacingNext(symbol, Begin(plan, max, false), steps);
    PurgeEmpties(symbol, plan, max, steps);
  }

  /** Without errors a cycle is only ever cancelling, placing, or at its end. */
  lemma {:induction false} PlacingNext(symbol: string, c: Cycle, steps: seq<Step>)
    requires ValidRun(symbol, c, steps) && Run(symbol, c, steps).errors == 0 && !ReachesEnd(steps)
    requires c.phase.Cancelling? || c.phase.Placing?
    ensures Run(symbol, c, steps).phase.Cancelling? || Run(symbol, c, steps).phase.Placing?
    decreases |steps|
  {
    hide Next, Enabled, FailuresAt, DeadAt, PlacedAt;
    if steps != [] {
      var d, rest := Next(symbol, c, steps[0]), steps[1..];
      RunRecords(symbol, d, rest);
      assert forall k | 0 <= k < |rest| :: rest[k] == steps[k + 1];
      NoErrorStep(symbol, c, steps[0]);
      PlacingNext(symbol, d, rest);
    }
  }

  lemma NoErrorStep(symbol: string, c: Cycle, step: Step)
    requires Enabled(c, step) && !step.EndPlacePhase? && Next(symbol, c, step).errors == 0
    requires c.phase.Cancelling? || c.phase.Placing?
    ensures Next(symbol, c, step).phase.Cancelling? || Next(symbol, c, step).phase.Placing?
  {
    hide DeleteAll, AddAbsent, ApplyEvent, CancelSucceeds, PlacedID, TargetOf;
  }

  // ---- the commits ----

  /** The two orders agree in every field the source compares before it deletes. */
  predicate Unchanged(a: RestingOrder, b: RestingOrder) {
    && a.orderID == b.orderID && a.clientOrderID == b.clientOrderID && a.side == b.side
    && Cmp(a.price, b.price) == 0 && Cmp(a.amount, b.amount) == 0 && Cmp(a.originalAmount, b.originalAmount) == 0
  }

  /** At the end of the cancel phase an entry stays exactly when no cancelled order is the entry unchanged; at the end of the
      placement phase exactly the first placed orders under absent IDs are new. Every entry that stays keeps its contents. */
  lemma CommitMeaning(symbol: string, c: Cycle, step: Step, id: string)
    requires Enabled(c, step) && (step.EndCancelPhase? || step.EndPlacePhase?)
    requires id in c.resting ==> c.resting[id].orderID == id
    ensures var r := Next(symbol, c, step).resting;
            && (step.EndCancelPhase? ==>
              (id in r <==> id in c.resting && !exists k :: 0 <= k < |c.cancelled| && Unchanged(c.resting[id], c.cancelled[k])))
            && (step.EndPlacePhase? ==>
              && (id in r <==> id in c.resting || exists k :: 0 <= k < |c.placed| && c.placed[k].orderID == id)
              && (forall k | 0 <= k < |c.placed| :: FirstUnder(c.placed, k, id) && id !in c.resting ==> r[id] == c.placed[k]))
            && (id in c.resting && id in r ==> r[id] == c.resting[id])
  {
    hide DeleteAll, AddAbsent, Cmp;
    DeleteAllOnlyUnchanged(c.resting, c.cancelled, id);
    AddAbsentOnlyAdds(c.resting, c.placed, id);
  }
}
