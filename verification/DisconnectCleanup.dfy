/** Whether the subscriptions of a connection that is given up are failed. A cleanup skips itself when another lifecycle has
    begun, counting on that one to take the subscriptions over; but a connect call can begin one and then fail to dial. */
module DisconnectCleanup {
  import opened Wrappers
  import opened Lifecycle

  /** Whether subscriptions of some connection may be left: it was installed after the tables were last emptied. */
  ghost function LeftAfter(s: State, left: bool, step: Step): bool
    requires Enabled(s, step)
  {
    !step.Swap? && (left || Next(s, step).client.conn.Some?)
  }

  /** The task is on its way to fail the subscriptions of the current lifecycle. */
  predicate Cleans(s: State, t: nat) {
    && At(s, t) && s.tasks[t].l == s.client.lifecycle
    && (PointOf(s, t).CleanupStart? || PointOf(s, t).CleanupWaiting? || PointOf(s, t) == Cleaning(false)
        || PointOf(s, t) == SwapChecking(false) || PointOf(s, t) == Swapping(false))
  }

  /** Nothing is left behind: a disconnected client with subscriptions left has a task that will fail them. */
  ghost predicate CleanedUp(s: State, left: bool) {
    s.client.state.Disconnected? && left ==> exists t: nat :: Cleans(s, t)
  }

  ghost predicate Cared(s: State, left: bool) {
    CleanedUp(s, left) && (s.client.state.Connecting? ==> !left)
  }

  /** A connect call begins an attempt while a cleanup is still due. */
  predicate Overtakes(s: State, left: bool, step: Step) {
    step.CheckConnect? && !step.refused && s.client.state.Disconnected? && left
  }

  // ---- single steps ----

  predicate Mine(step: Step, t: nat) {
    !step.Close? && step.t == t
  }

  /** Where a cleaner goes: on to the swap, after which nothing is left. */
  lemma CleanerMoves(s: State, left: bool, step: Step, t: nat)
    requires Inv(s) && Enabled(s, step) && Cleans(s, t) && Mine(step, t) && s.client.state.Disconnected?
    ensures Next(s, step).client == s.client
    ensures Cleans(Next(s, step), t) || !LeftAfter(s, left, step)
  {
    TaskFacts(s, t);
    hide Inv;
  }

  lemma OthersStay(s: State, step: Step, t: nat)
    requires Inv(s) && Enabled(s, step) && Cleans(s, t) && !Mine(step, t) && Next(s, step).client.lifecycle == s.client.lifecycle
    ensures Cleans(Next(s, step), t)
  {
    hide Inv;
  }

  /** How a client comes to be disconnected: a first dial fails, or the task that gives up the connection cleans up next. */
  lemma BecomesDisconnected(s: State, step: Step)
    requires Inv(s) && Enabled(s, step)
    requires Next(s, step).client.state.Disconnected?
    requires !s.client.state.Disconnected? || Next(s, step).client.lifecycle != s.client.lifecycle
    ensures step.t in s.tasks
    ensures (step.DialReturns? && s.client.state.Connecting?) || Cleans(Next(s, step), step.t)
  {
    TaskFacts(s, step.t);
    hide Inv;
  }

  lemma BecomesConnecting(s: State, step: Step)
    requires Inv(s) && Enabled(s, step) && Next(s, step).client.state.Connecting?
    ensures s.client.state.Connecting? || (step.CheckConnect? && !step.refused && s.client.state.Disconnected?)
    ensures Next(s, step).client.conn.None?
  {
    NextKeeps(s, step);
    hide Next;
    ConnectingBefore(s, step);
  }

  lemma ConnectingBefore(s: State, step: Step)
    requires Enabled(s, step) && Next(s, step).client.state.Connecting?
    ensures s.client.state.Connecting? || (step.CheckConnect? && !step.refused && s.client.state.Disconnected?)
  {
  }

  lemma StepCares(s: State, left: bool, step: Step)
    requires Inv(s) && Enabled(s, step) && Cared(s, left) && !Overtakes(s, left, step)
    ensures Cared(Next(s, step), LeftAfter(s, left, step))
  {
    hide Next, Enabled;
    var n := Next(s, step);
    NextKeeps(s, step);
    hide Inv;
    if n.client.state.Connecting? {
      BecomesConnecting(s, step);
    } else if n.client.state.Disconnected? && LeftAfter(s, left, step) {
      DisconnectedHasNone(n);
      assert left;
      if s.client.state.Disconnected? && n.client.lifecycle == s.client.lifecycle {
        var t: nat :| Cleans(s, t);
        if Mine(step, t) {
          CleanerMoves(s, left, step, t);
        } else {
          OthersStay(s, step, t);
        }
      } else {
        BecomesDisconnected(s, step);
      }
    }
  }

  lemma DisconnectedHasNone(s: State)
    requires Inv(s) && s.client.state.Disconnected?
    ensures s.client.conn.None?
  {
  }

  // ---- runs ----

  ghost function LeftOver(s: State, left: bool, steps: seq<Step>): bool
    requires ValidRun(s, steps)
    decreases |steps|
  {
    if steps == [] then left else LeftOver(Next(s, steps[0]), LeftAfter(s, left, steps[0]), steps[1..])
  }

  ghost predicate NoneOvertakes(s: State, left: bool, steps: seq<Step>)
    requires ValidRun(s, steps)
    decreases |steps|
  {
    steps == [] || (!Overtakes(s, left, steps[0]) && NoneOvertakes(Next(s, steps[0]), LeftAfter(s, left, steps[0]), steps[1..]))
  }

  lemma {:induction false} RunCares(s: State, left: bool, steps: seq<Step>)
    requires Inv(s) && Cared(s, left) && ValidRun(s, steps) && NoneOvertakes(s, left, steps)
    ensures Cared(Run(s, steps), LeftOver(s, left, steps))
    decreases |steps|
  {
    hide Inv, Cared, Next, Enabled, Overtakes, LeftAfter;
    if steps != [] {
      NextKeeps(s, steps[0]);
      StepCares(s, left, steps[0]);
      RunCares(Next(s, steps[0]), LeftAfter(s, left, steps[0]), steps[1..]);
    }
  }

  /** In every run in which no connect call begins while a cleanup is due: a disconnected client has failed the subscriptions
      of every connection it had, or a task is on its way to. */
  lemma DisconnectCleansUp(autoReconnect: bool, steps: seq<Step>)
    requires ValidRun(Init(autoReconnect), steps) && NoneOvertakes(Init(autoReconnect), false, steps)
    ensures CleanedUp(Run(Init(autoReconnect), steps), LeftOver(Init(autoReconnect), false, steps))
  {
    hide Next, Enabled, NoneOvertakes;
    InitHolds(autoReconnect);
    RunCares(Init(autoReconnect), false, steps);
  }

  // ---- what happens otherwise ----

  /** From then on, whatever fails the dial leaves the subscriptions behind: every cleanup of before is stale. */
  lemma OvertakingLeavesBehind(s: State, left: bool, t: nat, pump: nat)
    requires Inv(s) && Enabled(s, CheckConnect(t, false)) && Overtakes(s, left, CheckConnect(t, false)) && !At(s, pump)
    ensures var steps := [CheckConnect(t, false), DialReturns(t, false, pump)];
            ValidRun(s, steps) && !CleanedUp(Run(s, steps), LeftOver(s, left, steps))
  {
    var a, b := CheckConnect(t, false), DialReturns(t, false, pump);
    var steps := [a, b];
    var u := Next(s, a);
    var v := Next(u, b);
    assert steps[1..] == [b] && steps[1..][1..] == [];
    assert LeftOver(s, left, steps) && Run(s, steps) == v by {
      assert LeftAfter(s, left, a) && LeftAfter(u, true, b);
      hide Next, Enabled;
      assert ValidRun(v, []) && ValidRun(u, [b]) && ValidRun(s, steps);
      assert Run(v, []) == v && Run(u, [b]) == v && Run(s, steps) == v;
      assert LeftOver(v, true, []) && LeftOver(u, true, [b]) && LeftOver(s, left, steps);
    }
    forall x: nat
      ensures !Cleans(v, x)
    {
      if x != t && At(s, x) {
        TaskFacts(s, x);
      }
    }
  }

  // ---- a run in which it does ----

  /** A connection drops, reconnecting is given up, and before the cleanup has the gate a connect call takes it. */
  function Act(k: nat): Step {
    match k
    case 0 => StartConnect(0)
    case 1 => Acquire(0)
    case 2 => CheckConnect(0, false)
    case 3 => DialReturns(0, true, 1)
    case 4 => Release(0, false)
    case 5 => ReplayReturns(0, true)
    case 6 => ReadFails(1, false)
    case 7 => Acquire(1)
    case 8 => CheckDrop(1)
    case 9 => Release(1, false)
    case 10 => Exhausted(1)
    case 11 => GiveUp(1)
    case 12 => StartConnect(0)
    case _ => Acquire(0)
  }

  const FIRST := Client(Disconnected, None, 0, false, NoBoundary)
  const DIALING := Client(Connecting, None, 1, false, Open)
  const REPLAYING := Client(Connected, Some(1), 1, true, Open)
  const CONNECTED := Client(Connected, Some(1), 1, false, Done)
  const LOOPING := Client(Reconnecting, None, 2, false, Open)
  const GIVEN_UP := Client(Disconnected, None, 2, false, Done)

  function Trace(k: nat): State {
    match k
    case 0 => State(FIRST, None, map[], true, {}, false)
    case 1 => State(FIRST, None, map[0 := Task(ConnectWaiting, 0)], true, {}, false)
    case 2 => State(FIRST, Some(0), map[0 := Task(ConnectChecking, 0)], true, {}, false)
    case 3 => State(DIALING, Some(0), map[0 := Task(Dialing, 1)], true, {}, false)
    case 4 => State(REPLAYING, Some(0), map[0 := Task(Installed, 1), 1 := Task(Reading, 1)], true, {1}, false)
    case 5 => State(REPLAYING, None, map[0 := Task(Replaying, 1), 1 := Task(Reading, 1)], true, {1}, false)
    case 6 => State(CONNECTED, None, map[1 := Task(Reading, 1)], true, {1}, false)
    case 7 => State(CONNECTED, None, map[1 := Task(DropWaiting(false), 1)], true, {1}, false)
    case 8 => State(CONNECTED, Some(1), map[1 := Task(DropChecking(false), 1)], true, {1}, false)
    case 9 => State(LOOPING, Some(1), map[1 := Task(Releasing(true), 2)], true, {1}, false)
    case 10 => State(LOOPING, None, map[1 := Task(Backoff, 2)], true, {1}, false)
    case 11 => State(LOOPING, None, map[1 := Task(GivingUp, 2)], true, {1}, false)
    case 12 => State(GIVEN_UP, None, map[1 := Task(CleanupStart, 2)], true, {1}, false)
    case 13 => State(GIVEN_UP, None, map[1 := Task(CleanupStart, 2), 0 := Task(ConnectWaiting, 0)], true, {1}, false)
    case _ => State(GIVEN_UP, Some(0), map[1 := Task(CleanupStart, 2), 0 := Task(ConnectChecking, 0)], true, {1}, false)
  }

  lemma FirstActs(k: nat)
    requires k < 7
    ensures Enabled(Trace(k), Act(k)) && Next(Trace(k), Act(k)) == Trace(k + 1)
  {
  }

  lemma LaterActs(k: nat)
    requires 7 <= k < 14
    ensures Enabled(Trace(k), Act(k)) && Next(Trace(k), Act(k)) == Trace(k + 1)
  {
  }

  /** The acts from `k` on, and then `more`. */
  function Acts(k: nat, more: seq<Step>): seq<Step>
    requires k <= 14
    decreases 14 - k
  {
    if k == 14 then more else [Act(k)] + Acts(k + 1, more)
  }

  lemma {:induction false} ActsRun(k: nat, more: seq<Step>)
    requires k <= 14 && ValidRun(Trace(14), more)
    ensures ValidRun(Trace(k), Acts(k, more)) && Run(Trace(k), Acts(k, more)) == Run(Trace(14), more)
    ensures LeftOver(Trace(k), k >= 4, Acts(k, more)) == LeftOver(Trace(14), true, more)
    decreases 14 - k
  {
    hide Next, Enabled, Trace, Act;
    if k < 14 {
      if k < 7 {
        FirstActs(k);
      } else {
        LaterActs(k);
      }
      ActsRun(k + 1, more);
      LeftAtAct(k);
      var steps := Acts(k, more);
      assert steps[0] == Act(k) && steps[1..] == Acts(k + 1, more);
    }
  }

  lemma LeftAtAct(k: nat)
    requires k < 14 && Enabled(Trace(k), Act(k)) && Next(Trace(k), Act(k)) == Trace(k + 1)
    ensures LeftAfter(Trace(k), k >= 4, Act(k)) == (k + 1 >= 4)
  {
    hide Next, Enabled;
  }

  /** There is a run that ends disconnected with subscriptions that no task will fail. */
  lemma SubscriptionsCanBeLeft() returns (steps: seq<Step>)
    ensures ValidRun(Init(true), steps)
    ensures !CleanedUp(Run(Init(true), steps), LeftOver(Init(true), false, steps))
  {
    hide Next, Enabled, Acts;
    TraceEnds();
    hide Trace;
    ActsRun(0, []);
    InitHolds(true);
    assert ValidRun(Trace(14), []) && Run(Trace(14), []) == Trace(14);
    RunKeeps(Init(true), Acts(0, []));
    OvertakingLeavesBehind(Trace(14), true, 0, 2);
    var more := [CheckConnect(0, false), DialReturns(0, false, 2)];
    ActsRun(0, more);
    steps := Acts(0, more);
  }

  lemma TraceEnds()
    ensures Trace(0) == Init(true)
    ensures Enabled(Trace(14), CheckConnect(0, false)) && Overtakes(Trace(14), true, CheckConnect(0, false)) && !At(Trace(14), 2)
  {
  }
}
