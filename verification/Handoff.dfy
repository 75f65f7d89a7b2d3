/** The handoff between fetching the open orders and following the order stream.

    A reader takes events from the stream. While `hydrating` is set it queues them; otherwise it applies them to the ledger.
    A hydration fetches the open orders, replaces the ledger, and then swaps out and applies the queued events batch by batch
    until it finds the queue empty. A reconnect starts a new generation, which makes a hydration of an older one stale.
    Each section the source runs under its handoff lock is one step here. */
module Handoff {
  import opened Wrappers
  import opened Decimals
  import opened Text
  import opened DecimalText
  import opened Ledger
  import opened Convergence

  const MAX_PENDING: nat := 4096

  // ---- the variables guarded by the handoff lock ----

  datatype Control = Control(
    generation: nat,
    hydrating: bool,
    pending: seq<OrderEvent>,
    keys: set<OrderEvent>,
    overflowed: bool)

  /** `enqueuePendingOrderEvent`: the queue and the keys afterwards, and whether the event was taken. */
  function Enqueue(pending: seq<OrderEvent>, keys: set<OrderEvent>, e: OrderEvent): (seq<OrderEvent>, set<OrderEvent>, bool) {
    if e in keys then (pending, keys, true)
    else if |pending| >= MAX_PENDING then (pending, keys, false)
    else (pending + [e], keys + {e}, true)
  }

  /** The reader takes an event while hydrating. */
  function Queue(c: Control, e: OrderEvent): Control {
    var (pending, keys, queued) := Enqueue(c.pending, c.keys, e);
    c.(pending := pending, keys := keys, overflowed := c.overflowed || !queued)
  }

  /** The reader sees the connection drop. */
  function NewGeneration(c: Control): Control {
    Control(c.generation + 1, true, [], {}, false)
  }

  datatype Swapped = Stale | Overflowed | CaughtUp | Batch(events: seq<OrderEvent>)

  /** A hydration of generation `g` looks at the queue. */
  function SwapOutcome(c: Control, g: nat): Swapped {
    if g != c.generation then Stale
    else if c.overflowed then Overflowed
    else if c.pending == [] then CaughtUp
    else Batch(c.pending)
  }

  function AfterSwap(c: Control, g: nat): Control {
    match SwapOutcome(c, g)
    case Stale => c
    case Overflowed => c
    case CaughtUp => c.(keys := {}, hydrating := false)
    case Batch(_) => c.(pending := [])
  }

  // ---- the protocol ----

  datatype Phase = Idle | Fetching(g: nat) | Draining(g: nat) | Replaying(g: nat, batch: seq<OrderEvent>)

  /** What really happened in the current generation: the events received while hydrating, those of them already swapped out,
      the snapshot, the events applied directly after the handoff, and how many of the generation's events had been applied
      before the snapshot replaced the ledger. */
  datatype History = History(
    received: seq<OrderEvent>,
    taken: seq<OrderEvent>,
    snapshot: Resting,
    direct: seq<OrderEvent>,
    missed: nat)

  function FirstOccurrences(es: seq<OrderEvent>): seq<OrderEvent> {
    if es == [] then []
    else
      var init, e := FirstOccurrences(es[..|es| - 1]), es[|es| - 1];
      if e in es[..|es| - 1] then init else init + [e]
  }

  /** The events of the generation that the ledger is to reflect: those received while hydrating, first occurrences only and in
      arrival order, and those applied directly since. */
  function Events(h: History): seq<OrderEvent> {
    FirstOccurrences(h.received) + h.direct
  }

  datatype State = State(
    control: Control,
    recovering: bool,
    ledger: Resting,
    phase: Phase,
    byReader: bool,
    initialPending: bool,
    stopped: bool,
    history: History)

  datatype Step =
    | Receive(e: OrderEvent)
    | Reconnecting
    | Begin(byReader: bool)
    | FetchFails
    | Install(orders: Resting)
    | Swap
    | ReplayOne

  function Init(): State {
    State(Control(0, true, [], {}, false), false, map[], Idle, false, true, false, History([], [], map[], [], 0))
  }

  /** The reader runs its own hydrations, so it takes no events during one; the hydration lock lets one run at a time. */
  predicate Enabled(s: State, step: Step) {
    !s.stopped &&
    match step
    case Receive(_) => s.phase.Idle? || !s.byReader
    case Reconnecting => s.phase.Idle? || !s.byReader
    case Begin(byReader) => s.phase.Idle? && (if byReader then s.recovering else s.initialPending)
    case FetchFails => s.phase.Fetching?
    case Install(_) => s.phase.Fetching?
    case Swap => s.phase.Draining?
    case ReplayOne => s.phase.Replaying?
  }

  function Finish(s: State): State {
    s.(phase := Idle, recovering := s.recovering && !s.byReader)
  }

  function Next(symbol: string, s: State, step: Step): State
    requires Enabled(s, step)
  {
    match step
    case Receive(e) =>
      if s.control.hydrating then
        s.(control := Queue(s.control, e), history := s.history.(received := s.history.received + [e]))
      else
        s.(ledger := ApplyEvent(symbol, s.ledger, e), history := s.history.(direct := s.history.direct + [e]))
    case Reconnecting =>
      if s.recovering then s
      else s.(control := NewGeneration(s.control), recovering := true,
              history := s.history.(received := [], taken := [], direct := [], missed := 0))
    case Begin(byReader) =>
      s.(phase := Fetching(s.control.generation), byReader := byReader, initialPending := s.initialPending && byReader)
    case FetchFails =>
      if s.phase.g != s.control.generation then Finish(s) else s.(phase := Idle, stopped := true)
    case Install(orders) =>
      s.(phase := Draining(s.phase.g), ledger := orders,
         history := if s.phase.g != s.control.generation then s.history
                    else s.history.(snapshot := orders,
                                    missed := if s.control.hydrating then 0 else |Events(s.history)|))
    case Swap =>
      var t := s.(control := AfterSwap(s.control, s.phase.g));
      (match SwapOutcome(s.control, s.phase.g)
       case Stale => Finish(t)
       case Overflowed => t.(phase := Idle, stopped := true)
       case CaughtUp => Finish(t)
       case Batch(events) =>
         t.(phase := Replaying(s.phase.g, events), history := s.history.(taken := s.history.taken + events)))
    case ReplayOne =>
      if s.phase.batch == [] then s.(phase := Draining(s.phase.g))
      else s.(phase := Replaying(s.phase.g, s.phase.batch[1..]), ledger := ApplyEvent(symbol, s.ledger, s.phase.batch[0]))
  }

  // ---- what is promised ----

  function Elements(es: seq<OrderEvent>): set<OrderEvent> {
    set e | e in es
  }

  /** The ledger is the generation's snapshot with all the generation's events applied, each once. */
  ghost predicate HandedOff(symbol: string, s: State) {
    s.ledger == ApplyEvents(symbol, s.history.snapshot, Events(s.history))
  }

  ghost predicate Current(s: State) {
    !s.phase.Idle? && s.phase.g == s.control.generation
  }

  ghost predicate QueueAgrees(s: State) {
    && (s.control.hydrating ==> s.history.missed == 0)
    && (s.control.hydrating && !s.control.overflowed ==>
      && FirstOccurrences(s.history.received) == s.history.taken + s.control.pending
      && s.control.keys == Elements(s.history.received)
      && s.history.direct == [])
    && (s.control.hydrating && (!Current(s) || s.phase.Fetching?) && !s.stopped ==> s.history.taken == [])
  }

  ghost predicate ReplayedSoFar(symbol: string, s: State, done: seq<OrderEvent>)
    requires s.phase.Replaying?
  {
    s.history.taken == done + s.phase.batch && s.ledger == ApplyEvents(symbol, s.history.snapshot, done)
  }

  ghost predicate LedgerAgrees(symbol: string, s: State) {
    && (Current(s) && s.control.hydrating && s.phase.Draining? ==>
      s.ledger == ApplyEvents(symbol, s.history.snapshot, s.history.taken))
    && (Current(s) && s.phase.Replaying? ==> s.control.hydrating && exists done :: ReplayedSoFar(symbol, s, done))
  }

  /** Once handed off, the ledger is the snapshot with the events that came after it: all of them, unless the snapshot was
      installed late. */
  ghost predicate DoneAgrees(symbol: string, s: State) {
    !s.control.hydrating ==>
      && s.control.pending == [] && !s.control.overflowed
      && s.history.missed <= |Events(s.history)|
      && s.ledger == ApplyEvents(symbol, s.history.snapshot, Events(s.history)[s.history.missed..])
  }

  /** Which hydrations can still come or run. Only one of the two can come late, and after it none is due. */
  ghost predicate PhaseAgrees(s: State) {
    && (!s.phase.Idle? ==> s.phase.g <= s.control.generation && (s.control.hydrating || Current(s)))
    && (!s.phase.Idle? ==> if s.byReader then Current(s) && s.recovering else !s.initialPending)
    && (s.stopped ==> s.phase.Idle?)
    && (!s.control.hydrating ==> !(s.recovering && s.initialPending))
    && (!s.control.hydrating && !s.phase.Idle? ==> !s.initialPending && (s.recovering ==> s.byReader))
    && (s.history.missed > 0 ==> !s.initialPending && (s.recovering ==> s.stopped || (!s.phase.Idle? && s.byReader)))
  }

  ghost predicate Inv(symbol: string, s: State) {
    QueueAgrees(s) && LedgerAgrees(symbol, s) && DoneAgrees(symbol, s) && PhaseAgrees(s)
  }

  lemma InitHolds(symbol: string)
    ensures Inv(symbol, Init())
  {
  }

  lemma FirstOccurrencesSnoc(es: seq<OrderEvent>, e: OrderEvent)
    ensures FirstOccurrences(es + [e]) == if e in es then FirstOccurrences(es) else FirstOccurrences(es) + [e]
    ensures Elements(es + [e]) == Elements(es) + {e}
    ensures e in Elements(es) <==> e in es
  {
    assert (es + [e])[..|es|] == es;
  }

  lemma ApplySnoc(symbol: string, r: Resting, es: seq<OrderEvent>, e: OrderEvent)
    ensures ApplyEvents(symbol, r, es + [e]) == ApplyEvent(symbol, ApplyEvents(symbol, r, es), e)
  {
    hide ApplyEvent;
    assert (es + [e])[..|es|] == es;
  }

  lemma ReceiveKeeps(symbol: string, s: State, e: OrderEvent)
    requires Inv(symbol, s) && Enabled(s, Receive(e))
    ensures Inv(symbol, Next(symbol, s, Receive(e)))
  {
    hide ApplyEvent, ApplyEvents, FirstOccurrences, Elements;
    var h := s.history;
    if s.control.hydrating {
      FirstOccurrencesSnoc(h.received, e);
      assert h.taken + (s.control.pending + [e]) == (h.taken + s.control.pending) + [e];
      if Current(s) && s.phase.Replaying? {
        var done :| ReplayedSoFar(symbol, s, done);
        assert ReplayedSoFar(symbol, Next(symbol, s, Receive(e)), done);
      }
    } else {
      EventsSnoc(h, e);
      ApplySnoc(symbol, h.snapshot, Events(h)[h.missed..], e);
    }
  }

  /** One more direct event. */
  lemma EventsSnoc(h: History, e: OrderEvent)
    requires h.missed <= |Events(h)|
    ensures var n := h.(direct := h.direct + [e]);
            && Events(n) == Events(h) + [e]
            && Events(n)[n.missed..] == Events(h)[h.missed..] + [e]
  {
    hide FirstOccurrences;
  }

  lemma SwapKeeps(symbol: string, s: State)
    requires Inv(symbol, s) && Enabled(s, Swap)
    ensures Inv(symbol, Next(symbol, s, Swap))
  {
    hide ApplyEvents, FirstOccurrences, Elements;
    var h := s.history;
    match SwapOutcome(s.control, s.phase.g)
    case Stale =>
    case Overflowed =>
    case CaughtUp =>
      if s.control.hydrating {
        assert h.taken + s.control.pending == h.taken;
        assert Events(h)[0..] == h.taken;
      }
    case Batch(events) =>
      var t := Next(symbol, s, Swap);
      assert (h.taken + events) + [] == h.taken + events;
      assert Current(s) && ReplayedSoFar(symbol, t, h.taken);
  }

  lemma ReplayKeeps(symbol: string, s: State)
    requires Inv(symbol, s) && Enabled(s, ReplayOne)
    ensures Inv(symbol, Next(symbol, s, ReplayOne))
  {
    hide ApplyEvent, ApplyEvents, FirstOccurrences, Elements, Events;
    var h, batch := s.history, s.phase.batch;
    var t := Next(symbol, s, ReplayOne);
    if Current(s) {
      var done :| ReplayedSoFar(symbol, s, done);
      if batch == [] {
        assert h.taken == done;
      } else {
        ApplySnoc(symbol, h.snapshot, done, batch[0]);
        assert h.taken == (done + [batch[0]]) + batch[1..];
        assert ReplayedSoFar(symbol, t, done + [batch[0]]);
      }
    }
  }

  lemma InstallKeeps(symbol: string, s: State, orders: Resting)
    requires Inv(symbol, s) && Enabled(s, Install(orders))
    ensures Inv(symbol, Next(symbol, s, Install(orders)))
  {
    hide FirstOccurrences, Elements, Events;
    assert ApplyEvents(symbol, orders, []) == orders;
    assert Events(s.history)[|Events(s.history)|..] == [];
    EventsFrom(s.history, orders, |Events(s.history)|);
    EventsFrom(s.history, orders, 0);
  }

  /** The events of a generation do not depend on its snapshot. */
  lemma EventsFrom(h: History, orders: Resting, missed: nat)
    ensures Events(h.(snapshot := orders, missed := missed)) == Events(h)
  {
  }

  lemma OtherKeeps(symbol: string, s: State, step: Step)
    requires Inv(symbol, s) && Enabled(s, step) && (step.Reconnecting? || step.Begin? || step.FetchFails?)
    ensures Inv(symbol, Next(symbol, s, step))
  {
  }

  lemma NextKeeps(symbol: string, s: State, step: Step)
    requires Inv(symbol, s) && Enabled(s, step)
    ensures Inv(symbol, Next(symbol, s, step))
  {
    hide Inv, Next;
    match step
    case Receive(e) => ReceiveKeeps(symbol, s, e);
    case Install(orders) => InstallKeeps(symbol, s, orders);
    case Swap => SwapKeeps(symbol, s);
    case ReplayOne => ReplayKeeps(symbol, s);
    case Reconnecting => OtherKeeps(symbol, s, step);
    case Begin(_) => OtherKeeps(symbol, s, step);
    case FetchFails => OtherKeeps(symbol, s, step);
  }

  // ---- runs ----

  ghost predicate ValidRun(symbol: string, s: State, steps: seq<Step>)
    decreases |steps|
  {
    steps == [] || (Enabled(s, steps[0]) && ValidRun(symbol, Next(symbol, s, steps[0]), steps[1..]))
  }

  ghost function Run(symbol: string, s: State, steps: seq<Step>): State
    requires ValidRun(symbol, s, steps)
    decreases |steps|
  {
    if steps == [] then s else Run(symbol, Next(symbol, s, steps[0]), steps[1..])
  }

  lemma {:induction false} RunKeeps(symbol: string, s: State, steps: seq<Step>)
    requires Inv(symbol, s) && ValidRun(symbol, s, steps)
    ensures Inv(symbol, Run(symbol, s, steps))
    decreases |steps|
  {
    hide Inv, Next;
    if steps != [] {
      NextKeeps(symbol, s, steps[0]);
      RunKeeps(symbol, Next(symbol, s, steps[0]), steps[1..]);
    }
  }

  /** The hydrations of the run begin while hydrating. */
  ghost predicate AllOnTime(symbol: string, s: State, steps: seq<Step>)
    requires ValidRun(symbol, s, steps)
    decreases |steps|
  {
    steps == []
    || ((steps[0].Begin? ==> s.control.hydrating) && AllOnTime(symbol, Next(symbol, s, steps[0]), steps[1..]))
  }

  ghost predicate NoneLate(s: State) {
    s.history.missed == 0 && (!s.phase.Idle? ==> s.control.hydrating)
  }

  lemma {:induction false} OnTimeMissesNothing(symbol: string, s: State, steps: seq<Step>)
    requires Inv(symbol, s) && NoneLate(s) && ValidRun(symbol, s, steps) && AllOnTime(symbol, s, steps)
    ensures NoneLate(Run(symbol, s, steps))
    decreases |steps|
  {
    hide QueueAgrees, LedgerAgrees, DoneAgrees, ApplyEvent, Events;
    if steps != [] {
      NextKeeps(symbol, s, steps[0]);
      OnTimeMissesNothing(symbol, Next(symbol, s, steps[0]), steps[1..]);
    }
  }

  /** In every interleaving of reader, hydrations and reconnects: once the handoff is done, no event was dropped and the ledger
      is this generation's snapshot with the generation's events applied, each once, first occurrences in arrival order, except
      those that had been applied before the snapshot was installed. A hydration that begins while hydrating misses none; a
      ledger that misses some is right exactly when its snapshot already reflects them. */
  lemma HandoffIsExact(symbol: string, steps: seq<Step>)
    requires ValidRun(symbol, Init(), steps)
    ensures var s := Run(symbol, Init(), steps);
            !s.control.hydrating ==>
              && !s.control.overflowed && s.control.pending == [] && s.history.missed <= |Events(s.history)|
              && s.ledger == ApplyEvents(symbol, s.history.snapshot, Events(s.history)[s.history.missed..])
              && (AllOnTime(symbol, Init(), steps) ==> s.history.missed == 0 && HandedOff(symbol, s))
              && (HandedOff(symbol, s) <==>
                ApplyEvents(symbol, s.history.snapshot, Events(s.history)[s.history.missed..]) ==
                ApplyEvents(symbol, s.history.snapshot, Events(s.history)))
  {
    hide Events, ApplyEvents, Next;
    InitHolds(symbol);
    RunKeeps(symbol, Init(), steps);
    var s := Run(symbol, Init(), steps);
    if AllOnTime(symbol, Init(), steps) {
      OnTimeMissesNothing(symbol, Init(), steps);
      assert Events(s.history)[0..] == Events(s.history);
    }
  }

  /** With sided events, and a snapshot that reflects any prefix of the generation's events that includes those it missed, the
      ledger is the subscription-time one with the whole stream applied. */
  lemma HandoffFollowsStream(symbol: string, s: State, subscribed: Resting, k: nat)
    requires Inv(symbol, s) && !s.control.hydrating
    requires s.history.missed <= k <= |Events(s.history)| && AllSided(symbol, Events(s.history))
    requires s.history.snapshot == ApplyEvents(symbol, subscribed, Events(s.history)[..k])
    ensures s.ledger == ApplyEvents(symbol, subscribed, Events(s.history)) && HandedOff(symbol, s)
  {
    hide ApplyEvents, Events;
    var es, m := Events(s.history), s.history.missed;
    var base := ApplyEvents(symbol, subscribed, es[..m]);
    assert es[..k] == es[..m] + es[m..][..k - m];
    ApplyConcat(symbol, subscribed, es[..m], es[m..][..k - m]);
    HydrationConverges(symbol, base, es[m..], k - m);
    assert es == es[..m] + es[m..];
    ApplyConcat(symbol, subscribed, es[..m], es[m..]);
    HydrationConverges(symbol, subscribed, es, k);
  }
}
