/** Delivery of connection events: to independent subscribers, each with a bounded channel that is closed rather than skipped
    when it is full, and to one shared channel that a pump feeds with the latest event once it is full. An event is written
    as its number in the order of publication. States before `Close` only. */
module EventPump {
  import opened Wrappers

  const CHANNEL_CAPACITY: nat := 32

  /** A subscriber's channel: it was registered when `first` events had been published. */
  datatype Channel = Channel(first: nat, capacity: nat, buffer: seq<nat>, taken: seq<nat>)

  /** What the event mutex guards, with the channels closed so far. */
  datatype Hub = Hub(
    eventChan: seq<nat>,
    pending: Option<nat>,
    pumpRunning: bool,
    subscribers: map<nat, Channel>,
    closed: map<nat, Channel>,
    lastID: nat)

  predicate HasRoom(c: Channel) {
    |c.buffer| < c.capacity
  }

  function Push(c: Channel, event: nat): Channel {
    c.(buffer := c.buffer + [event])
  }

  /** Every subscriber with room gets the event; the others are closed and forgotten. */
  function Offer(h: Hub, event: nat): (o: Hub)
    ensures o == h.(subscribers := o.subscribers, closed := o.closed)
  {
    h.(subscribers := map id | id in h.subscribers && HasRoom(h.subscribers[id]) :: Push(h.subscribers[id], event),
       closed := h.closed + map id | id in h.subscribers && !HasRoom(h.subscribers[id]) :: h.subscribers[id])
  }

  function Publish(h: Hub, event: nat): Hub {
    var o := Offer(h, event);
    if h.pumpRunning then o.(pending := Some(event))
    else if |h.eventChan| < CHANNEL_CAPACITY then o.(eventChan := h.eventChan + [event])
    else o.(pending := Some(event), pumpRunning := true)
  }

  function Register(h: Hub, published: nat, buffer: int): Hub {
    h.(lastID := h.lastID + 1,
       subscribers := h.subscribers[h.lastID + 1 := Channel(published, if buffer < 1 then 1 else buffer, [], [])])
  }

  function Unregister(h: Hub, id: nat): Hub {
    if id in h.subscribers
    then h.(subscribers := h.subscribers - {id}, closed := h.closed[id := h.subscribers[id]])
    else h
  }

  /** The pump takes the pending event, or stops. */
  function TakePending(h: Hub): Hub {
    if h.pending.None? then h.(pumpRunning := false) else h.(pending := None)
  }

  // ---- the protocol ----

  datatype Pump = Stopped | Checking | Sending(event: nat)

  datatype State = State(hub: Hub, pump: Pump, delivered: seq<nat>, published: nat)

  datatype Step =
    | PublishNext
    | PumpChecks | PumpSends
    | ReaderTakes
    | Subscribe(buffer: int) | Unsubscribe(id: nat) | SubscriberTakes(id: nat) | RemainderTaken(id: nat)

  function Init(): State {
    State(Hub([], None, false, map[], map[], 0), Stopped, [], 0)
  }

  predicate Enabled(s: State, step: Step) {
    match step
    case PublishNext => true
    case PumpChecks => s.pump.Checking?
    case PumpSends => s.pump.Sending? && |s.hub.eventChan| < CHANNEL_CAPACITY
    case ReaderTakes => s.hub.eventChan != []
    case Subscribe(_) => true
    case Unsubscribe(_) => true
    case SubscriberTakes(id) => id in s.hub.subscribers && s.hub.subscribers[id].buffer != []
    case RemainderTaken(id) => id in s.hub.closed && s.hub.closed[id].buffer != []
  }

  function TakeOne(c: Channel): Channel
    requires c.buffer != []
  {
    c.(buffer := c.buffer[1..], taken := c.taken + [c.buffer[0]])
  }

  function Next(s: State, step: Step): State
    requires Enabled(s, step)
  {
    var h := s.hub;
    match step
    case PublishNext =>
      var p := Publish(h, s.published);
      s.(hub := p, published := s.published + 1, pump := if p.pumpRunning && !h.pumpRunning then Checking else s.pump)
    case PumpChecks =>
      s.(hub := TakePending(h), pump := if h.pending.None? then Stopped else Sending(h.pending.value))
    case PumpSends => s.(hub := h.(eventChan := h.eventChan + [s.pump.event]), pump := Checking)
    case ReaderTakes => s.(hub := h.(eventChan := h.eventChan[1..]), delivered := s.delivered + [h.eventChan[0]])
    case Subscribe(buffer) => s.(hub := Register(h, s.published, buffer))
    case Unsubscribe(id) => s.(hub := Unregister(h, id))
    case SubscriberTakes(id) => s.(hub := h.(subscribers := h.subscribers[id := TakeOne(h.subscribers[id])]))
    case RemainderTaken(id) => s.(hub := h.(closed := h.closed[id := TakeOne(h.closed[id])]))
  }

  // ---- the shared channel ----

  function InHand(p: Pump): seq<nat> {
    if p.Sending? then [p.event] else []
  }

  function Waiting(h: Hub): seq<nat> {
    if h.pending.Some? then [h.pending.value] else []
  }

  /** Everything on its way to the reader of the shared channel, in the order it arrives. */
  function Pipeline(s: State): seq<nat> {
    s.delivered + s.hub.eventChan + InHand(s.pump) + Waiting(s.hub)
  }

  ghost predicate Increasing(es: seq<nat>) {
    forall i, j | 0 <= i < j < |es| :: es[i] < es[j]
  }

  ghost predicate PipelineAgrees(s: State) {
    && Increasing(Pipeline(s))
    && (forall i | 0 <= i < |Pipeline(s)| :: Pipeline(s)[i] < s.published)
    && (s.published > 0 ==> Pipeline(s) != [] && Pipeline(s)[|Pipeline(s)| - 1] == s.published - 1)
    && |s.hub.eventChan| <= CHANNEL_CAPACITY
    && (s.hub.pumpRunning <==> !s.pump.Stopped?)
    && (s.hub.pending.Some? ==> s.hub.pumpRunning)
  }

  // ---- the independent subscribers ----

  function Seen(c: Channel): seq<nat> {
    c.taken + c.buffer
  }

  /** What a channel got is a run without gaps from its registration on, no further than `published`. */
  ghost predicate GapFree(c: Channel, published: nat) {
    && c.first + |Seen(c)| <= published
    && (forall i | 0 <= i < |Seen(c)| :: Seen(c)[i] == c.first + i)
    && |c.buffer| <= c.capacity
  }

  ghost predicate SubscribersAgree(s: State) {
    && (forall id | id in s.hub.subscribers ::
          GapFree(s.hub.subscribers[id], s.published)
          && s.hub.subscribers[id].first + |Seen(s.hub.subscribers[id])| == s.published && id <= s.hub.lastID)
    && (forall id | id in s.hub.closed ::
          GapFree(s.hub.closed[id], s.published) && id <= s.hub.lastID && id !in s.hub.subscribers)
  }

  ghost predicate Inv(s: State) {
    PipelineAgrees(s) && SubscribersAgree(s)
  }

  lemma InitHolds()
    ensures Inv(Init())
  {
  }

  lemma PublishKeepsPipeline(s: State)
    requires PipelineAgrees(s)
    ensures PipelineAgrees(Next(s, PublishNext))
  {
    hide Offer;
    var t := Next(s, PublishNext);
    var kept := s.delivered + s.hub.eventChan + InHand(s.pump);
    assert Pipeline(s) == kept + Waiting(s.hub);
    assert Pipeline(t) == kept + [s.published];
    hide Pipeline;
    PrefixIncreases(kept, Waiting(s.hub), s.published);
  }

  lemma PrefixIncreases(kept: seq<nat>, rest: seq<nat>, published: nat)
    requires Increasing(kept + rest) && forall i | 0 <= i < |kept + rest| :: (kept + rest)[i] < published
    ensures var all := kept + [published];
            Increasing(all) && forall i | 0 <= i < |all| :: all[i] < published + 1
  {
    assert forall i | 0 <= i < |kept| :: kept[i] == (kept + rest)[i];
  }

  /** The pump and the reader only move events along. */
  lemma MoveKeepsPipeline(s: State, step: Step)
    requires PipelineAgrees(s) && Enabled(s, step) && !step.PublishNext?
    ensures PipelineAgrees(Next(s, step))
  {
    hide Increasing;
    PipelineMoves(s, step);
    hide Pipeline;
  }

  lemma PipelineMoves(s: State, step: Step)
    requires PipelineAgrees(s) && Enabled(s, step) && !step.PublishNext?
    ensures Pipeline(Next(s, step)) == Pipeline(s)
  {
    hide PipelineAgrees;
    var c := s.hub.eventChan;
    match step
    case ReaderTakes => assert s.delivered + c == (s.delivered + [c[0]]) + c[1..];
    case PumpSends => assert s.delivered + (c + [s.pump.event]) + [] == s.delivered + c + [s.pump.event];
    case PumpChecks =>
    case Subscribe(_) =>
    case Unsubscribe(_) =>
    case SubscriberTakes(_) =>
    case RemainderTaken(_) =>
  }

  lemma PushKeepsGapFree(c: Channel, published: nat)
    requires GapFree(c, published) && c.first + |Seen(c)| == published && HasRoom(c)
    ensures GapFree(Push(c, published), published + 1)
    ensures |Seen(Push(c, published))| == |Seen(c)| + 1
  {
    assert Seen(Push(c, published)) == Seen(c) + [published];
  }

  lemma TakeKeepsGapFree(c: Channel, published: nat)
    requires GapFree(c, published) && c.buffer != []
    ensures GapFree(TakeOne(c), published) && Seen(TakeOne(c)) == Seen(c)
  {
    assert c.taken + c.buffer == (c.taken + [c.buffer[0]]) + c.buffer[1..];
  }

  lemma PublishKeepsSubscribers(s: State)
    requires SubscribersAgree(s)
    ensures SubscribersAgree(Next(s, PublishNext))
  {
    hide Push, Seen;
    var t := Next(s, PublishNext);
    forall id | id in t.hub.subscribers
      ensures GapFree(t.hub.subscribers[id], t.published) && t.hub.subscribers[id].first + |Seen(t.hub.subscribers[id])| == t.published
    {
      PushKeepsGapFree(s.hub.subscribers[id], s.published);
      PushFirst(s.hub.subscribers[id], s.published);
    }
    forall id | id in t.hub.closed
      ensures GapFree(t.hub.closed[id], t.published)
    {
      GapFreeLonger(t.hub.closed[id], s.published);
    }
  }

  lemma PushFirst(c: Channel, event: nat)
    ensures Push(c, event).first == c.first
  {
  }

  lemma GapFreeLonger(c: Channel, published: nat)
    requires GapFree(c, published)
    ensures GapFree(c, published + 1)
  {
  }

  lemma NextKeepsSubscribers(s: State, step: Step)
    requires SubscribersAgree(s) && Enabled(s, step)
    ensures SubscribersAgree(Next(s, step))
  {
    hide Offer, Publish, GapFree;
    match step
    case PublishNext => PublishKeepsSubscribers(s);
    case SubscriberTakes(id) => TakeKeepsGapFree(s.hub.subscribers[id], s.published);
    case RemainderTaken(id) => TakeKeepsGapFree(s.hub.closed[id], s.published);
    case Subscribe(buffer) => NewIsGapFree(s.published, if buffer < 1 then 1 else buffer);
    case Unsubscribe(_) =>
    case PumpChecks =>
    case PumpSends =>
    case ReaderTakes =>
  }

  lemma NewIsGapFree(published: nat, capacity: nat)
    ensures var c := Channel(published, capacity, [], []); GapFree(c, published) && |Seen(c)| == 0
  {
  }

  lemma NextKeeps(s: State, step: Step)
    requires Inv(s) && Enabled(s, step)
    ensures Inv(Next(s, step))
  {
    hide PipelineAgrees, SubscribersAgree, Next;
    NextKeepsSubscribers(s, step);
    if step.PublishNext? {
      PublishKeepsPipeline(s);
    } else {
      MoveKeepsPipeline(s, step);
    }
  }

  // ---- runs ----

  ghost predicate ValidRun(s: State, steps: seq<Step>)
    decreases |steps|
  {
    steps == [] || (Enabled(s, steps[0]) && ValidRun(Next(s, steps[0]), steps[1..]))
  }

  ghost function Run(s: State, steps: seq<Step>): State
    requires ValidRun(s, steps)
    decreases |steps|
  {
    if steps == [] then s else Run(Next(s, steps[0]), steps[1..])
  }

  lemma {:induction false} RunKeeps(s: State, steps: seq<Step>)
    requires Inv(s) && ValidRun(s, steps)
    ensures Inv(Run(s, steps))
    decreases |steps|
  {
    hide Inv, Next;
    if steps != [] {
      NextKeeps(s, steps[0]);
      RunKeeps(Next(s, steps[0]), steps[1..]);
    }
  }

  /** In every run: what was delivered, is buffered, is in the pump's hand and is pending is, in this order, an increasing
      selection of the published events that ends in the latest one. */
  lemma LatestIsNeverLost(steps: seq<Step>)
    requires ValidRun(Init(), steps)
    ensures var s := Run(Init(), steps);
            && Increasing(Pipeline(s)) && |s.hub.eventChan| <= CHANNEL_CAPACITY
            && (forall i | 0 <= i < |Pipeline(s)| :: Pipeline(s)[i] < s.published)
            && (s.published > 0 ==> Pipeline(s) != [] && Pipeline(s)[|Pipeline(s)| - 1] == s.published - 1)
  {
    hide Next;
    InitHolds();
    RunKeeps(Init(), steps);
  }

  /** So a reader that has emptied the channel, with the pump at rest, has seen the latest event. */
  lemma DrainedReaderIsCurrent(s: State)
    requires Inv(s) && s.published > 0 && s.hub.eventChan == [] && s.pump.Stopped?
    ensures s.delivered != [] && s.delivered[|s.delivered| - 1] == s.published - 1
  {
    assert Pipeline(s) == s.delivered;
  }

  lemma GapFreeIsRun(c: Channel, published: nat)
    requires GapFree(c, published)
    ensures Seen(c) == seq(|Seen(c)|, (i: nat) => c.first + i)
  {
  }

  lemma GapFreeEnds(c: Channel, published: nat)
    requires GapFree(c, published)
    ensures c.first + |Seen(c)| <= published
  {
  }

  /** In every run each subscriber has got every event published from its registration on, in order; a closed one has got a
      prefix of them. */
  lemma SubscribersMissNothing(steps: seq<Step>, id: nat)
    requires ValidRun(Init(), steps)
    ensures var s := Run(Init(), steps);
            && (id in s.hub.subscribers ==>
              Seen(s.hub.subscribers[id]) == seq(|Seen(s.hub.subscribers[id])|, (i: nat) => s.hub.subscribers[id].first + i)
              && s.hub.subscribers[id].first + |Seen(s.hub.subscribers[id])| == s.published)
            && (id in s.hub.closed ==>
              Seen(s.hub.closed[id]) == seq(|Seen(s.hub.closed[id])|, (i: nat) => s.hub.closed[id].first + i)
              && s.hub.closed[id].first + |Seen(s.hub.closed[id])| <= s.published)
  {
    hide Next, Seen, GapFree, PipelineAgrees;
    InitHolds();
    RunKeeps(Init(), steps);
    var s := Run(Init(), steps);
    if id in s.hub.subscribers {
      GapFreeIsRun(s.hub.subscribers[id], s.published);
    }
    if id in s.hub.closed {
      GapFreeIsRun(s.hub.closed[id], s.published);
      GapFreeEnds(s.hub.closed[id], s.published);
    }
  }

  // ---- the hub as the object the client updates ----

  /** The subscribers and the closed channels while those in `left` have not been offered the event yet. */
  ghost predicate OfferedTo(before: map<nat, Channel>, gone: map<nat, Channel>, event: nat, left: set<nat>,
                            now: map<nat, Channel>, closed: map<nat, Channel>) {
    && (forall id :: id in now <==> id in before && (id in left || HasRoom(before[id])))
    && (forall id | id in now :: now[id] == if id in left then before[id] else Push(before[id], event))
    && (forall id :: id in closed <==> id in gone || (id in before && id !in left && !HasRoom(before[id])))
    && (forall id | id in closed ::
          closed[id] == if id in before && id !in left && !HasRoom(before[id]) then before[id] else gone[id])
  }

  lemma StartOffering(h: Hub, event: nat)
    ensures OfferedTo(h.subscribers, h.closed, event, h.subscribers.Keys, h.subscribers, h.closed)
  {
  }

  lemma OfferOne(before: map<nat, Channel>, gone: map<nat, Channel>, event: nat, left: set<nat>,
                 now: map<nat, Channel>, closed: map<nat, Channel>, id: nat)
    requires OfferedTo(before, gone, event, left, now, closed) && id in left && id in now
    ensures now[id] == before[id]
    ensures if HasRoom(now[id]) then OfferedTo(before, gone, event, left - {id}, now[id := Push(now[id], event)], closed)
            else OfferedTo(before, gone, event, left - {id}, now - {id}, closed[id := now[id]])
  {
    hide Push, HasRoom;
  }

  lemma AllOffered(h: Hub, event: nat, now: map<nat, Channel>, closed: map<nat, Channel>)
    requires OfferedTo(h.subscribers, h.closed, event, {}, now, closed)
    ensures Offer(h, event) == h.(subscribers := now, closed := closed)
  {
    hide Push, HasRoom;
    assert now == Offer(h, event).subscribers;
    assert closed == Offer(h, event).closed;
  }

  /** A subscriber whose channel has a free place gets the event at the end of its channel and stays as it is otherwise; one
      whose channel is full is forgotten. */
  ghost predicate OfferedAll(before: map<nat, Channel>, event: nat, now: map<nat, Channel>) {
    && (forall id :: id in now <==> id in before && |before[id].buffer| < before[id].capacity)
    && (forall id | id in now ::
          now[id] == Channel(before[id].first, before[id].capacity, before[id].buffer + [event], before[id].taken))
  }

  lemma OfferedMeans(before: map<nat, Channel>, gone: map<nat, Channel>, event: nat, now: map<nat, Channel>, closed: map<nat, Channel>)
    requires OfferedTo(before, gone, event, {}, now, closed)
    ensures OfferedAll(before, event, now)
  {
  }

  /** Publishing an event ends exactly the subscriptions whose channels are full; any other step ends at most the one that is
      given up. */
  lemma OnlyFullAreClosed(s: State, step: Step, id: nat)
    requires Inv(s) && Enabled(s, step) && id in s.hub.subscribers
    ensures id !in Next(s, step).hub.subscribers <==>
      step == Unsubscribe(id) || (step.PublishNext? && |s.hub.subscribers[id].buffer| == s.hub.subscribers[id].capacity)
  {
    hide PipelineAgrees;
    assert GapFree(s.hub.subscribers[id], s.published);
  }

  class EventHub {
    var eventChan: seq<nat>
    var pendingEvent: Option<nat>
    var eventPumpRunning: bool
    var eventSubscribers: map<nat, Channel>
    var nextEventSubscriber: nat
    ghost var closed: map<nat, Channel>

    ghost function View(): Hub
      reads this
    {
      Hub(eventChan, pendingEvent, eventPumpRunning, eventSubscribers, closed, nextEventSubscriber)
    }

    constructor ()
      ensures View() == Hub([], None, false, map[], map[], 0)
    {
      eventChan, pendingEvent, eventPumpRunning := [], None, false;
      eventSubscribers, nextEventSubscriber, closed := map[], 0, map[];
    }

    /** Publishes an event; `started` says that a pump was started. */
    method PublishEvent(event: nat) returns (started: bool)
      modifies this
      ensures OfferedAll(old(eventSubscribers), event, eventSubscribers)
      ensures started <==> !old(eventPumpRunning) && |old(eventChan)| >= 32
      ensures eventPumpRunning == (old(eventPumpRunning) || started)
      ensures pendingEvent == if eventPumpRunning then Some(event) else old(pendingEvent)
      ensures eventChan == old(eventChan) + if eventPumpRunning then [] else [event]
      ensures View() == old(Publish(View(), event)) && started == (eventPumpRunning && !old(eventPumpRunning))
    {
      hide HasRoom, OfferedAll;
      OfferAll(event);
      if eventPumpRunning {
        pendingEvent := Some(event);
        return false;
      }
      if |eventChan| < CHANNEL_CAPACITY {
        eventChan := eventChan + [event];
        return false;
      }
      pendingEvent := Some(event);
      eventPumpRunning := true;
      return true;
    }

    method OfferAll(event: nat)
      modifies this
      ensures OfferedAll(old(eventSubscribers), event, eventSubscribers)
      ensures View() == old(Offer(View(), event))
    {
      hide Push, HasRoom, Offer, OfferedTo, OfferedAll;
      var left := eventSubscribers.Keys;
      ghost var before, gone := eventSubscribers, closed;
      StartOffering(View(), event);
      while left != {}
        invariant left <= eventSubscribers.Keys
        invariant OfferedTo(before, gone, event, left, eventSubscribers, closed)
        modifies this`eventSubscribers, this`closed
      {
        var id :| id in left;
        OfferOne(before, gone, event, left, eventSubscribers, closed, id);
        left := left - {id};
        var subscriber := eventSubscribers[id];
        if HasRoom(subscriber) {
          eventSubscribers := eventSubscribers[id := Push(subscriber, event)];
        } else {
          eventSubscribers := eventSubscribers - {id};
          closed := closed[id := subscriber];
        }
      }
      AllOffered(old(View()), event, eventSubscribers, closed);
      OfferedMeans(before, gone, event, eventSubscribers, closed);
    }

    /** The pump's turn: the event to send next, or nothing and the pump has stopped. */
    method NextPending() returns (event: Option<nat>)
      modifies this
      ensures event == old(pendingEvent) && pendingEvent == None
      ensures eventPumpRunning == (old(eventPumpRunning) && event.Some?)
      ensures View() == old(TakePending(View()))
    {
      if pendingEvent.None? {
        eventPumpRunning := false;
        return None;
      }
      event := pendingEvent;
      pendingEvent := None;
    }

    method SubscribeConnectionEvents(published: nat, buffer: int) returns (id: nat)
      modifies this
      ensures id == old(nextEventSubscriber) + 1
      ensures eventSubscribers == old(eventSubscribers)[id := Channel(published, if buffer > 1 then buffer else 1, [], [])]
      ensures View() == old(Register(View(), published, buffer)) && id == nextEventSubscriber
    {
      var capacity := if buffer < 1 then 1 else buffer;
      nextEventSubscriber := nextEventSubscriber + 1;
      id := nextEventSubscriber;
      eventSubscribers := eventSubscribers[id := Channel(published, capacity, [], [])];
    }

    method Stop(id: nat)
      modifies this
      ensures eventSubscribers == old(eventSubscribers) - {id}
      ensures closed == if id in old(eventSubscribers) then old(closed)[id := old(eventSubscribers)[id]] else old(closed)
      ensures View() == old(Unregister(View(), id))
    {
      if id in eventSubscribers {
        closed := closed[id := eventSubscribers[id]];
        eventSubscribers := eventSubscribers - {id};
      }
    }
  }
}
