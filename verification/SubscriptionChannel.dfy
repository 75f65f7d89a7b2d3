/** The handshake between senders and closers of one subscription's channel. Senders register under the mutex, send outside it
    and sign off; the one close marks the subscription closed, waits for the registered senders, and only then closes the
    channel. Each mutex section and each channel or wait-group operation is one step. */
module SubscriptionChannel {
  /** A registered sender: in the select, or past it and about to sign off. */
  datatype Sender<T> = Selecting(value: T) | Leaving

  /** How far the call that `closeOnce` lets run has come. Any other call waits for it, or returns at once when it is over. */
  datatype Closer = Unstarted | Marking | Waiting | Closing | Finished

  /** `sends` is the wait group's counter, `closed` is set together with closing `done`, `stopped` is the dispatcher's stop
      channel. `blocked` holds the
      other calls of close that wait for the one that runs. `returned`, `sent`, `received` and `closes` record what happened; `panicked` records a send on a closed channel, a second
      close, or a negative counter. */
  datatype State<T> = State(
    capacity: nat,
    closed: bool,
    sends: int,
    stopped: bool,
    channelClosed: bool,
    buffer: seq<T>,
    senders: map<nat, Sender<T>>,
    closer: Closer,
    blocked: set<nat>,
    returned: set<nat>,
    sent: seq<T>,
    received: seq<T>,
    closes: nat,
    panicked: bool)

  datatype Step<T> =
    | Enter(op: nat, value: T) | Deliver(op: nat) | Escape(op: nat) | SignOff(op: nat)
    | Receive | Stop
    | CallClose(op: nat) | ReturnClose(op: nat) | Mark | EndWait | CloseChannel

  function Init<T>(capacity: nat): State<T> {
    State(capacity, false, 0, false, false, [], map[], Unstarted, {}, {}, [], [], 0, false)
  }

  predicate Enabled<T>(s: State<T>, step: Step<T>) {
    match step
    case Enter(op, _) => op !in s.senders
    // a send proceeds when there is room, and panics on a closed channel
    case Deliver(op) => op in s.senders && s.senders[op].Selecting? && (|s.buffer| < s.capacity || s.channelClosed)
    case Escape(op) => op in s.senders && s.senders[op].Selecting? && (s.closed || s.stopped)
    case SignOff(op) => op in s.senders && s.senders[op].Leaving?
    case Receive => s.buffer != []
    case Stop => true
    case CallClose(op) => op !in s.blocked
    case ReturnClose(op) => op in s.blocked && s.closer.Finished?
    case Mark => s.closer.Marking?
    case EndWait => s.closer.Waiting? && s.sends == 0
    case CloseChannel => s.closer.Closing?
  }

  function Next<T>(s: State<T>, step: Step<T>): State<T>
    requires Enabled(s, step)
  {
    match step
    case Enter(op, value) =>
      if s.closed then s else s.(sends := s.sends + 1, senders := s.senders[op := Selecting(value)])
    case Deliver(op) =>
      if s.channelClosed then s.(panicked := true)
      else s.(buffer := s.buffer + [s.senders[op].value], sent := s.sent + [s.senders[op].value],
              senders := s.senders[op := Leaving])
    case Escape(op) => s.(senders := s.senders[op := Leaving])
    case SignOff(op) => s.(sends := s.sends - 1, senders := s.senders - {op}, panicked := s.panicked || s.sends <= 0)
    case Receive => s.(buffer := s.buffer[1..], received := s.received + [s.buffer[0]])
    case Stop => s.(stopped := true)
    case CallClose(op) =>
      if s.closer.Unstarted? then s.(closer := Marking)
      else if s.closer.Finished? then s.(returned := s.returned + {op})
      else s.(blocked := s.blocked + {op})
    case ReturnClose(op) => s.(blocked := s.blocked - {op}, returned := s.returned + {op})
    case Mark => s.(closed := true, closer := Waiting)
    case EndWait => s.(closer := Closing)
    case CloseChannel =>
      s.(channelClosed := true, closer := Finished, closes := s.closes + 1, panicked := s.panicked || s.channelClosed)
  }

  // ---- what every step keeps ----

  ghost predicate Inv<T>(s: State<T>) {
    && !s.panicked
    && s.sends == |s.senders|
    && (s.closed <==> s.closer.Waiting? || s.closer.Closing? || s.closer.Finished?)
    && (s.closer.Closing? || s.closer.Finished? ==> s.senders == map[])
    && (s.channelClosed <==> s.closer.Finished?)
    && s.closes == (if s.channelClosed then 1 else 0)
    && (s.returned != {} ==> s.channelClosed) && (s.blocked != {} ==> !s.closer.Unstarted?)
    && s.sent == s.received + s.buffer && |s.buffer| <= s.capacity
  }

  lemma EnterKeeps<T>(s: State<T>, op: nat, value: T)
    requires Inv(s) && Enabled(s, Enter(op, value))
    ensures Inv(Next(s, Enter(op, value)))
  {
    assert s.senders[op := Selecting(value)].Keys == s.senders.Keys + {op};
  }

  lemma DeliverKeeps<T>(s: State<T>, op: nat)
    requires Inv(s) && Enabled(s, Deliver(op))
    ensures Inv(Next(s, Deliver(op)))
  {
    assert s.senders[op := Leaving].Keys == s.senders.Keys;
    var v := s.senders[op].value;
    assert s.received + (s.buffer + [v]) == (s.received + s.buffer) + [v];
  }

  lemma SignOffKeeps<T>(s: State<T>, op: nat)
    requires Inv(s) && Enabled(s, SignOff(op))
    ensures Inv(Next(s, SignOff(op)))
  {
    assert (s.senders - {op}).Keys == s.senders.Keys - {op};
  }

  lemma NextKeeps<T>(s: State<T>, step: Step<T>)
    requires Inv(s) && Enabled(s, step)
    ensures Inv(Next(s, step))
  {
    match step
    case Enter(op, value) =>
      hide Inv, Next;
      EnterKeeps(s, op, value);
    case Deliver(op) =>
      hide Inv, Next;
      DeliverKeeps(s, op);
    case Escape(op) =>
      assert s.senders[op := Leaving].Keys == s.senders.Keys;
    case SignOff(op) =>
      hide Inv, Next;
      SignOffKeeps(s, op);
    case Receive =>
      assert s.buffer == [s.buffer[0]] + s.buffer[1..];
    case Stop =>
    case CallClose(_) =>
    case ReturnClose(_) =>
    case Mark =>
    case EndWait =>
      assert |s.senders| == |s.senders.Keys|;
    case CloseChannel =>
  }

  // ---- runs ----

  ghost predicate ValidRun<T>(s: State<T>, steps: seq<Step<T>>)
    decreases |steps|
  {
    steps == [] || (Enabled(s, steps[0]) && ValidRun(Next(s, steps[0]), steps[1..]))
  }

  ghost function Run<T>(s: State<T>, steps: seq<Step<T>>): State<T>
    requires ValidRun(s, steps)
    decreases |steps|
  {
    if steps == [] then s else Run(Next(s, steps[0]), steps[1..])
  }

  lemma {:induction false} RunKeeps<T>(s: State<T>, steps: seq<Step<T>>)
    requires Inv(s) && ValidRun(s, steps)
    ensures Inv(Run(s, steps))
    decreases |steps|
  {
    hide Inv, Next;
    if steps != [] {
      NextKeeps(s, steps[0]);
      RunKeeps(Next(s, steps[0]), steps[1..]);
    }
  }

  /** In every run with any number of senders and of calls of close: nothing is ever sent on the closed channel, the channel is
      closed at most once and only after every registered sender has signed off, no call of close that waited for another one
      returns before that, and the receiver gets what was sent, in order. */
  lemma HandshakeIsSafe<T>(capacity: nat, steps: seq<Step<T>>)
    requires ValidRun(Init(capacity), steps)
    ensures var s := Run(Init(capacity), steps);
            && !s.panicked && s.closes <= 1
            && (s.channelClosed ==> s.senders == map[] && s.sends == 0)
            && (s.returned != {} ==> s.channelClosed)
            && s.received + s.buffer == s.sent
  {
    RunKeeps(Init(capacity), steps);
  }

  /** A sender delivers its own value, once, and one that escapes delivers nothing; a send is refused from the marking on. */
  lemma SendersDeliverOnce<T>(s: State<T>, step: Step<T>, op: nat)
    requires Inv(s) && Enabled(s, step)
    ensures var t := Next(s, step);
            && t.sent == s.sent + (if step.Deliver? then [s.senders[step.op].value] else [])
            && (op in t.senders && t.senders[op].Selecting? ==>
                 (op in s.senders && s.senders[op] == t.senders[op]) || (step == Enter(op, t.senders[op].value) && !s.closed))
            && (step.Deliver? && step.op == op ==> t.senders[op] == Leaving)
            && (step.Enter? && s.closed ==> t == s)
  {
  }

  // ---- close terminates ----

  ghost function SelectingSet<T>(s: State<T>): set<nat> {
    set o | o in s.senders && s.senders[o].Selecting?
  }

  function CloserRank(c: Closer): nat {
    match c
    case Unstarted => 4
    case Marking => 3
    case Waiting => 2
    case Closing => 1
    case Finished => 0
  }

  ghost function Remaining<T>(s: State<T>): nat {
    |SelectingSet(s)| + |s.senders| + CloserRank(s.closer)
  }

  /** The steps of registered senders and of the call of close that runs. */
  predicate IsHandshake<T>(step: Step<T>) {
    !step.Enter? && !step.Receive? && !step.Stop? && !step.CallClose? && !step.ReturnClose?
  }

  lemma NextRemaining<T>(s: State<T>, step: Step<T>)
    requires Inv(s) && s.closed && Enabled(s, step)
    ensures Next(s, step).closed
    ensures Remaining(Next(s, step)) <= Remaining(s) - (if IsHandshake(step) then 1 else 0)
  {
    var t := Next(s, step);
    match step
    case Deliver(op) =>
      SelectingLess(s, t, op);
    case Escape(op) =>
      SelectingLess(s, t, op);
    case SignOff(op) =>
      assert SelectingSet(t) == SelectingSet(s);
      assert t.senders.Keys == s.senders.Keys - {op};
    case Enter(_, _) =>
    case Receive =>
    case Stop =>
    case CallClose(_) =>
    case ReturnClose(_) =>
    case Mark =>
    case EndWait =>
    case CloseChannel =>
  }

  lemma SelectingLess<T>(s: State<T>, t: State<T>, op: nat)
    requires op in s.senders && s.senders[op].Selecting? && t.senders == s.senders[op := Leaving]
    ensures |SelectingSet(t)| == |SelectingSet(s)| - 1 && |t.senders| == |s.senders|
  {
    assert SelectingSet(t) == SelectingSet(s) - {op};
    assert t.senders.Keys == s.senders.Keys;
  }

  ghost function Handshakes<T>(steps: seq<Step<T>>): nat
    decreases |steps|
  {
    if steps == [] then 0 else (if IsHandshake(steps[0]) then 1 else 0) + Handshakes(steps[1..])
  }

  /** Once the subscription is marked closed, senders in flight and the closer have only so many steps left, whatever new
      senders, the receiver and the dispatcher do. */
  lemma {:induction false} ClosedRunIsShort<T>(s: State<T>, steps: seq<Step<T>>)
    requires Inv(s) && s.closed && ValidRun(s, steps)
    ensures Handshakes(steps) + Remaining(Run(s, steps)) <= Remaining(s)
    decreases |steps|
  {
    hide Inv, Next, Remaining, IsHandshake;
    if steps != [] {
      NextKeeps(s, steps[0]);
      NextRemaining(s, steps[0]);
      ClosedRunIsShort(Next(s, steps[0]), steps[1..]);
    }
  }

  ghost predicate SenderCanLeave<T>(s: State<T>, op: nat) {
    Enabled(s, Escape(op)) || Enabled(s, SignOff(op))
  }

  /** And they are never stuck: every registered sender can leave without help from the receiver, and once none is left the
      closer can go on. So close terminates. */
  lemma CloseNeverStuck<T>(s: State<T>)
    requires Inv(s) && s.closed && !s.channelClosed
    ensures forall op | op in s.senders :: SenderCanLeave(s, op)
    ensures s.senders == map[] ==> Enabled(s, EndWait) || Enabled(s, CloseChannel)
  {
    assert |s.senders| == |s.senders.Keys|;
  }

  /** Once the channel is closed every call that waited can return. */
  lemma WaitingCloserReturns<T>(s: State<T>, op: nat)
    requires Inv(s) && op in s.blocked && s.channelClosed
    ensures Enabled(s, ReturnClose(op)) && op in Next(s, ReturnClose(op)).returned
  {
  }

  // ---- the subscription as the object its methods update ----

  class Subscription {
    var closed: bool
    var doneClosed: bool
    var sends: int
    var channelClosed: bool

    constructor ()
      ensures !closed && !doneClosed && sends == 0 && !channelClosed
    {
      closed, doneClosed, sends, channelClosed := false, false, 0, false;
    }

    /** `s` is this subscription's state in the protocol. */
    ghost predicate Represents<T>(s: State<T>)
      reads this
    {
      closed == s.closed && doneClosed == s.closed && sends == s.sends && channelClosed == s.channelClosed
    }

    /** The start of a send: refused once closed, otherwise registered. */
    method EnterSend<T>(ghost s: State<T>, ghost op: nat, ghost value: T) returns (registered: bool)
      requires Represents(s) && Enabled(s, Enter(op, value))
      modifies this
      ensures registered == !old(closed) && sends == old(sends) + (if registered then 1 else 0)
      ensures closed == old(closed) && doneClosed == old(doneClosed) && channelClosed == old(channelClosed)
      ensures Represents(Next(s, Enter(op, value))) && registered == !s.closed
    {
      if closed {
        return false;
      }
      sends := sends + 1;
      return true;
    }

    method EndSend<T>(ghost s: State<T>, ghost op: nat)
      requires Represents(s) && Enabled(s, SignOff(op))
      modifies this
      ensures sends == old(sends) - 1
      ensures closed == old(closed) && doneClosed == old(doneClosed) && channelClosed == old(channelClosed)
      ensures Represents(Next(s, SignOff(op)))
    {
      sends := sends - 1;
    }

    method MarkClosed<T>(ghost s: State<T>)
      requires Represents(s) && Enabled(s, Mark)
      modifies this
      ensures closed && doneClosed && sends == old(sends) && channelClosed == old(channelClosed)
      ensures Represents(Next(s, Mark))
    {
      closed := true;
      doneClosed := true;
    }

    method CloseChannel<T>(ghost s: State<T>)
      requires Represents(s) && Inv(s) && Enabled(s, Step.CloseChannel)
      modifies this
      ensures channelClosed && closed == old(closed) && doneClosed == old(doneClosed) && sends == old(sends)
      ensures Represents(Next(s, Step.CloseChannel)) && !old(channelClosed)
    {
      channelClosed := true;
    }
  }
}
