/** When a hydration is safe to begin. Two hydrations can be due: the initial one, and one by the reader after a reconnect. The
    first of them hands the stream off; where both are due in one generation, the other one then comes too late. */
module HandoffTiming {
  import opened Wrappers
  import opened Decimals
  import opened Text
  import opened DecimalText
  import opened Ledger
  import opened Convergence
  import opened Handoff

  /** However the run goes on, the ledger is right whenever the handoff is done. */
  ghost predicate SafeAfter(symbol: string, s: State) {
    forall steps | ValidRun(symbol, s, steps) && !Run(symbol, s, steps).control.hydrating ::
      HandedOff(symbol, Run(symbol, s, steps))
  }

  // ---- runs put together ----

  lemma {:induction false} RunAppend(symbol: string, s: State, a: seq<Step>, b: seq<Step>)
    requires ValidRun(symbol, s, a) && ValidRun(symbol, Run(symbol, s, a), b)
    ensures ValidRun(symbol, s, a + b) && Run(symbol, s, a + b) == Run(symbol, Run(symbol, s, a), b)
    decreases |a|
  {
    hide Next, Enabled;
    if a == [] {
      assert a + b == b;
    } else {
      RunAppend(symbol, Next(symbol, s, a[0]), a[1..], b);
      assert (a + b)[0] == a[0] && (a + b)[1..] == a[1..] + b;
    }
  }

  lemma RunOne(symbol: string, s: State, step: Step)
    requires Enabled(s, step)
    ensures ValidRun(symbol, s, [step]) && Run(symbol, s, [step]) == Next(symbol, s, step)
  {
    hide Next, Enabled;
    assert [step][1..] == [];
    var t := Next(symbol, s, step);
    assert ValidRun(symbol, t, []) && Run(symbol, t, []) == t;
  }

  /** One more step at the end of a run. */
  lemma RunSnoc(symbol: string, s: State, steps: seq<Step>, step: Step)
    requires ValidRun(symbol, s, steps) && Enabled(Run(symbol, s, steps), step)
    ensures ValidRun(symbol, s, steps + [step])
    ensures Run(symbol, s, steps + [step]) == Next(symbol, Run(symbol, s, steps), step)
  {
    hide Next, Enabled;
    RunOne(symbol, Run(symbol, s, steps), step);
    RunAppend(symbol, s, steps, [step]);
  }

  lemma RunNone(symbol: string, s: State)
    ensures ValidRun(symbol, s, []) && Run(symbol, s, []) == s
  {
  }

  // ---- a late hydration by the reader ----

  /** The reader takes no events during its own hydration, so a late one leaves exactly its snapshot. The ledger is then right
      exactly when the snapshot reflects all the generation's events already. */
  lemma LateReaderLeavesSnapshot(symbol: string, s: State, orders: Resting)
    requires Inv(symbol, s) && Enabled(s, Begin(true)) && !s.control.hydrating
    ensures var steps := [Begin(true), Install(orders), Swap];
            && ValidRun(symbol, s, steps)
            && var u := Run(symbol, s, steps);
               && !u.control.hydrating && !u.recovering && u.phase.Idle? && u.ledger == orders
               && (HandedOff(symbol, u) <==> ApplyEvents(symbol, orders, Events(s.history)) == orders)
  {
    hide Events, ApplyEvents;
    var a, b, c := Begin(true), Install(orders), Swap;
    RunOne(symbol, s, a);
    RunSnoc(symbol, s, [a], b);
    RunSnoc(symbol, s, [a] + [b], c);
    assert [a] + [b] + [c] == [a, b, c];
    EventsFrom(s.history, orders, |Events(s.history)|);
  }

  // ---- what keeps the ledger right ----

  /** The initial hydration has begun, and no hydration will be late: one that runs is the only one due, or runs over a snapshot
      that reflects all of the generation's events whatever it is. */
  ghost predicate Calm(symbol: string, s: State) {
    && Inv(symbol, s) && !s.initialPending
    && (s.control.hydrating ==> s.phase.Idle? || s.byReader || !Current(s) || !s.recovering)
    && (!s.control.hydrating ==>
      && HandedOff(symbol, s)
      && (s.stopped || (s.phase.Idle? && !s.recovering) || (!s.phase.Idle? && s.byReader && AllInert(symbol, Events(s.history)))))
  }

  lemma ReceiveCalm(symbol: string, s: State, e: OrderEvent)
    requires Calm(symbol, s) && Enabled(s, Receive(e))
    ensures Calm(symbol, Next(symbol, s, Receive(e)))
  {
    hide ApplyEvents, ApplyEvent, AllInert, QueueAgrees, LedgerAgrees, DoneAgrees, Events;
    NextKeeps(symbol, s, Receive(e));
    if !s.control.hydrating {
      DirectEvent(s.history, e);
      ApplySnoc(symbol, s.history.snapshot, Events(s.history), e);
    }
  }

  lemma DirectEvent(h: History, e: OrderEvent)
    ensures Events(h.(direct := h.direct + [e])) == Events(h) + [e]
  {
    hide FirstOccurrences;
  }

  lemma InstallCalm(symbol: string, s: State, orders: Resting)
    requires Calm(symbol, s) && Enabled(s, Install(orders))
    ensures Calm(symbol, Next(symbol, s, Install(orders)))
  {
    hide ApplyEvents, AllInert, QueueAgrees, LedgerAgrees, DoneAgrees, Events;
    NextKeeps(symbol, s, Install(orders));
    EventsFrom(s.history, orders, |Events(s.history)|);
    if !s.control.hydrating {
      InertDoNothing(symbol, orders, Events(s.history));
    }
  }

  lemma SwapCalm(symbol: string, s: State)
    requires Calm(symbol, s) && Enabled(s, Swap)
    ensures Calm(symbol, Next(symbol, s, Swap))
  {
    hide ApplyEvents, AllInert, FirstOccurrences;
    NextKeeps(symbol, s, Swap);
    if s.control.hydrating && SwapOutcome(s.control, s.phase.g).CaughtUp? {
      assert s.history.taken + s.control.pending == s.history.taken;
      assert Events(s.history) == s.history.taken;
    }
  }

  lemma OtherCalm(symbol: string, s: State, step: Step)
    requires Calm(symbol, s) && Enabled(s, step)
    requires step.Reconnecting? || step.Begin? || step.FetchFails? || step.ReplayOne?
    ensures Calm(symbol, Next(symbol, s, step))
  {
    hide ApplyEvents, ApplyEvent, AllInert, Events;
    NextKeeps(symbol, s, step);
    hide QueueAgrees, LedgerAgrees, DoneAgrees;
  }

  lemma NextCalm(symbol: string, s: State, step: Step)
    requires Calm(symbol, s) && Enabled(s, step)
    ensures Calm(symbol, Next(symbol, s, step))
  {
    hide Calm, Next;
    match step
    case Receive(e) => ReceiveCalm(symbol, s, e);
    case Install(orders) => InstallCalm(symbol, s, orders);
    case Swap => SwapCalm(symbol, s);
    case ReplayOne => OtherCalm(symbol, s, step);
    case Reconnecting => OtherCalm(symbol, s, step);
    case Begin(_) => OtherCalm(symbol, s, step);
    case FetchFails => OtherCalm(symbol, s, step);
  }

  lemma {:induction false} CalmIsSafe(symbol: string, s: State, steps: seq<Step>)
    requires Calm(symbol, s) && ValidRun(symbol, s, steps)
    ensures !Run(symbol, s, steps).control.hydrating ==> HandedOff(symbol, Run(symbol, s, steps))
    decreases |steps|
  {
    hide Inv, Next, AllInert, HandedOff, Events;
    if steps != [] {
      NextCalm(symbol, s, steps[0]);
      CalmIsSafe(symbol, Next(symbol, s, steps[0]), steps[1..]);
    }
  }

  /** After an overflow the hydrations that are due end the stream. */
  ghost predicate Doomed(s: State) {
    s.control.hydrating && s.control.overflowed && s.recovering && (!s.phase.Idle? ==> Current(s))
  }

  lemma {:induction false} DoomedNeverDone(symbol: string, s: State, steps: seq<Step>)
    requires Doomed(s) && ValidRun(symbol, s, steps)
    ensures Run(symbol, s, steps).control.hydrating
    decreases |steps|
  {
    hide ApplyEvent, Events;
    if steps != [] {
      DoomedNeverDone(symbol, Next(symbol, s, steps[0]), steps[1..]);
    }
  }

  // ---- what loses an event ----

  lemma EventReachesLedger(symbol: string, r: Resting, es: seq<OrderEvent>, e: OrderEvent)
    requires e == PartialFillOf(1, "1")
    ensures ApplyEvents(symbol, r, es + [e]) != map[]
  {
    hide ApplyEvents, Decode, ParseDecimal;
    ApplySnoc(symbol, r, es, e);
    SmallNumbers();
    PartialFillDecoded(1, "1", Decimal(1, 0));
    var before := ApplyEvents(symbol, r, es);
    var after := ApplyEvent(symbol, before, e);
    assert Lookup(after, EventOrderID(e)).Some?;
    assert EventOrderID(e) in after;
  }

  /** Where a hydration is fetching although the stream was handed off with some event, an empty snapshot loses it. */
  lemma EmptySnapshotLoses(symbol: string, s: State, es: seq<OrderEvent>)
    requires s.phase.Fetching? && !s.stopped && Current(s) && !s.control.hydrating
    requires Events(s.history) == es + [PartialFillOf(1, "1")]
    ensures Enabled(s, Install(map[]))
    ensures var t := Next(symbol, s, Install(map[])); !t.control.hydrating && !HandedOff(symbol, t)
  {
    hide ApplyEvents, Events;
    EventsFrom(s.history, map[], |Events(s.history)|);
    EventReachesLedger(symbol, map[], es, PartialFillOf(1, "1"));
  }

  /** A late initial hydration loses an event that is applied directly while it fetches. */
  lemma LateBeginLoses(symbol: string, s: State)
    requires Inv(symbol, s) && Enabled(s, Begin(false)) && !s.control.hydrating
    ensures !SafeAfter(symbol, Next(symbol, s, Begin(false)))
  {
    hide ApplyEvents, ApplyEvent, Events, HandedOff;
    var e, b := PartialFillOf(1, "1"), Next(symbol, s, Begin(false));
    var t := Next(symbol, b, Receive(e));
    DirectEvent(b.history, e);
    EmptySnapshotLoses(symbol, t, Events(b.history));
    RunOne(symbol, b, Receive(e));
    RunSnoc(symbol, b, [Receive(e)], Install(map[]));
  }

  /** Once the stream is handed off and another hydration is due, an event taken before it begins can be lost. */
  lemma DueLoses(symbol: string, s: State, byReader: bool) returns (steps: seq<Step>)
    requires Inv(symbol, s) && Enabled(s, Begin(byReader)) && !s.control.hydrating
    ensures ValidRun(symbol, s, steps)
    ensures var u := Run(symbol, s, steps); !u.control.hydrating && !HandedOff(symbol, u)
  {
    hide ApplyEvents, ApplyEvent, Events, HandedOff;
    var e := PartialFillOf(1, "1");
    var t := Next(symbol, s, Receive(e));
    var b := Next(symbol, t, Begin(byReader));
    DirectEvent(s.history, e);
    EmptySnapshotLoses(symbol, b, Events(s.history));
    RunOne(symbol, s, Receive(e));
    RunSnoc(symbol, s, [Receive(e)], Begin(byReader));
    RunSnoc(symbol, s, [Receive(e)] + [Begin(byReader)], Install(map[]));
    steps := [Receive(e)] + [Begin(byReader)] + [Install(map[])];
  }

  /** The batch of a hydration can be replayed to its end. */
  lemma {:induction false} ReplayToEnd(symbol: string, s: State) returns (steps: seq<Step>)
    requires s.phase.Replaying? && !s.stopped
    ensures ValidRun(symbol, s, steps)
    ensures var u := Run(symbol, s, steps); u == s.(phase := Draining(s.phase.g), ledger := u.ledger)
    decreases |s.phase.batch|
  {
    hide ApplyEvent;
    var t := Next(symbol, s, ReplayOne);
    if s.phase.batch == [] {
      RunOne(symbol, s, ReplayOne);
      steps := [ReplayOne];
    } else {
      var rest := ReplayToEnd(symbol, t);
      RunOne(symbol, s, ReplayOne);
      RunAppend(symbol, s, [ReplayOne], rest);
      steps := [ReplayOne] + rest;
    }
  }

  /** A hydration on time can finish and hand the stream off. */
  lemma CanFinish(symbol: string, s: State) returns (steps: seq<Step>)
    requires Inv(symbol, s) && s.phase.Fetching? && !s.stopped && Current(s) && s.control.hydrating && !s.control.overflowed
    ensures ValidRun(symbol, s, steps)
    ensures var u := Run(symbol, s, steps);
            && !u.control.hydrating && u.phase.Idle? && !u.stopped
            && u.initialPending == s.initialPending && u.recovering == (s.recovering && !s.byReader)
  {
    hide ApplyEvent, Inv, Events;
    var t := Next(symbol, s, Install(map[]));
    RunOne(symbol, s, Install(map[]));
    if s.control.pending == [] {
      RunSnoc(symbol, s, [Install(map[])], Swap);
      steps := [Install(map[])] + [Swap];
    } else {
      var b := Next(symbol, t, Swap);
      RunSnoc(symbol, s, [Install(map[])], Swap);
      var rest := ReplayToEnd(symbol, b);
      RunAppend(symbol, s, [Install(map[])] + [Swap], rest);
      RunSnoc(symbol, s, [Install(map[])] + [Swap] + rest, Swap);
      steps := [Install(map[])] + [Swap] + rest + [Swap];
    }
  }

  /** Where both hydrations are due in one generation, the second one can lose an event. */
  lemma BothDueLoses(symbol: string, s: State, byReader: bool)
    requires Inv(symbol, s) && Enabled(s, Begin(byReader)) && s.control.hydrating && !s.control.overflowed
    requires s.recovering && s.initialPending
    ensures !SafeAfter(symbol, Next(symbol, s, Begin(byReader)))
  {
    hide Inv, HandedOff, Events;
    var b := Next(symbol, s, Begin(byReader));
    NextKeeps(symbol, s, Begin(byReader));
    var first := CanFinish(symbol, b);
    RunKeeps(symbol, b, first);
    var u := Run(symbol, b, first);
    var second := DueLoses(symbol, u, !byReader);
    RunAppend(symbol, b, first, second);
  }

  /** A late hydration by the reader loses what its snapshot does not reflect. */
  lemma LateReaderLoses(symbol: string, s: State)
    requires Inv(symbol, s) && Enabled(s, Begin(true)) && !s.control.hydrating && !AllInert(symbol, Events(s.history))
    ensures !SafeAfter(symbol, Next(symbol, s, Begin(true)))
  {
    hide ApplyEvents, Events, AllInert;
    var b := Next(symbol, s, Begin(true));
    var orders := NotInertChanges(symbol, Events(s.history));
    EventsFrom(s.history, orders, |Events(s.history)|);
    RunOne(symbol, b, Install(orders));
  }

  /** What to know before a hydration begins. */
  ghost predicate MayBegin(symbol: string, s: State, byReader: bool) {
    if s.control.hydrating then s.control.overflowed || !(s.recovering && s.initialPending)
    else byReader && AllInert(symbol, Events(s.history))
  }

  lemma MayBeginIsSafe(symbol: string, s: State, byReader: bool)
    requires Inv(symbol, s) && Enabled(s, Begin(byReader)) && MayBegin(symbol, s, byReader)
    ensures SafeAfter(symbol, Next(symbol, s, Begin(byReader)))
  {
    hide AllInert, HandedOff, Events, ApplyEvents;
    var b := Next(symbol, s, Begin(byReader));
    if s.control.hydrating && s.recovering && s.initialPending {
      forall steps | ValidRun(symbol, b, steps)
        ensures Run(symbol, b, steps).control.hydrating
      {
        DoomedNeverDone(symbol, b, steps);
      }
    } else {
      BeginIsCalm(symbol, s, byReader);
      forall steps | ValidRun(symbol, b, steps) && !Run(symbol, b, steps).control.hydrating
        ensures HandedOff(symbol, Run(symbol, b, steps))
      {
        CalmIsSafe(symbol, b, steps);
      }
    }
  }

  lemma BeginIsCalm(symbol: string, s: State, byReader: bool)
    requires Inv(symbol, s) && Enabled(s, Begin(byReader)) && MayBegin(symbol, s, byReader)
    requires s.control.hydrating ==> !(s.recovering && s.initialPending)
    ensures Calm(symbol, Next(symbol, s, Begin(byReader)))
  {
    hide AllInert, ApplyEvents, Events;
    NextKeeps(symbol, s, Begin(byReader));
    if !s.control.hydrating {
      assert s.history.missed == 0;
      assert Events(s.history)[0..] == Events(s.history);
    }
  }

  /** In every reachable state, and for both kinds of hydration: however the run goes on, beginning one is safe exactly when
      the stream is not handed off yet and the other kind is not due as well (or the queue has overflowed, which ends the
      stream), or when the reader begins it late over nothing but inert events. */
  lemma BeginSafeIff(symbol: string, s: State, byReader: bool)
    requires Inv(symbol, s) && Enabled(s, Begin(byReader))
    ensures SafeAfter(symbol, Next(symbol, s, Begin(byReader))) <==> MayBegin(symbol, s, byReader)
  {
    hide Inv, SafeAfter, AllInert, Events;
    if MayBegin(symbol, s, byReader) {
      MayBeginIsSafe(symbol, s, byReader);
    } else if s.control.hydrating {
      BothDueLoses(symbol, s, byReader);
    } else if byReader {
      LateReaderLoses(symbol, s);
    } else {
      LateBeginLoses(symbol, s);
    }
  }

  // ---- both orders happen ----

  /** The reader can see the connection drop and return, and finish a whole hydration, before the initial one takes its lock;
      and the initial one can finish a hydration of the reader's generation before the reader sees the connection return. In
      both cases the other hydration is still to come, in the same generation, with the stream handed off. */
  lemma EitherCanBeOvertaken(symbol: string, orders: Resting, first: bool)
    ensures var steps := [Reconnecting, Begin(first), Install(orders), Swap];
            && ValidRun(symbol, Init(), steps)
            && !Run(symbol, Init(), steps).control.hydrating
            && Enabled(Run(symbol, Init(), steps), Begin(!first))
  {
    hide ApplyEvents;
    var a, b, c, d := Reconnecting, Begin(first), Install(orders), Swap;
    RunOne(symbol, Init(), a);
    RunSnoc(symbol, Init(), [a], b);
    RunSnoc(symbol, Init(), [a] + [b], c);
    RunSnoc(symbol, Init(), [a] + [b] + [c], d);
    assert [a] + [b] + [c] + [d] == [a, b, c, d];
  }
}
