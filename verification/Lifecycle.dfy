/** The connection lifecycle: concurrent connect calls, read pumps, reconnect loops, feed replays and cleanups around one
    connection. Each section under the client's mutex, each acquisition and release of the lifecycle gate, and each check or
    swap of the subscription tables is one step; dial results, replay results, dropped connections and the schedule are
    arbitrary. */
module Lifecycle {
  import opened Wrappers

  datatype ConnState = Disconnected | Connecting | Connected | Reconnecting | Closed

  /** `connectDone`: the channel that callers of `Connect` wait on. */
  datatype Boundary = NoBoundary | Open | Done

  /** What the client's mutex guards. A connection is named by the lifecycle that installed it. */
  datatype Client = Client(state: ConnState, conn: Option<nat>, lifecycle: nat, replay: bool, boundary: Boundary)

  // ---- the sections under the mutex ----

  function StartAttempt(c: Client): Client {
    c.(lifecycle := c.lifecycle + 1, boundary := Open)
  }

  function Broadcast(c: Client): Client {
    c.(boundary := if c.boundary.NoBoundary? then NoBoundary else Done)
  }

  predicate Stale(c: Client, l: nat) {
    c.state.Closed? || c.lifecycle != l
  }

  function Install(c: Client, l: nat): Client {
    c.(conn := Some(l), state := Connected, replay := true)
  }

  function BeginConnect(c: Client): Client {
    if c.state.Disconnected? then StartAttempt(c.(state := Connecting)) else c
  }

  function DialDone(c: Client, l: nat, ok: bool): Client {
    if c.state.Closed? then Broadcast(c)
    else if !ok then Broadcast(c.(state := Disconnected))
    else Install(c, l)
  }

  predicate LoopMayInstall(c: Client, l: nat) {
    !Stale(c, l) && !(c.state.Connected? && c.conn.Some?)
  }

  function LoopDialDone(c: Client, l: nat): Client {
    if LoopMayInstall(c, l) then Install(c, l) else c
  }

  function ReplayDone(c: Client, l: nat): Client {
    if c.state.Connected? && c.lifecycle == l then Broadcast(c.(replay := false)) else c
  }

  /** A failed feed replay invalidates its connection. */
  function FailReplay(c: Client, l: nat): Client {
    if Stale(c, l) then c
    else Broadcast(c.(replay := false, conn := None, lifecycle := c.lifecycle + 1, state := Disconnected))
  }

  predicate DropIgnored(c: Client, l: nat) {
    Stale(c, l) || (c.state.Disconnected? && c.conn.None?)
  }

  /** The read pump of lifecycle `l` lost its connection. */
  function DropConnection(c: Client, l: nat, autoReconnect: bool): Client {
    if DropIgnored(c, l) then c
    else if autoReconnect then StartAttempt(c.(conn := None, replay := false, state := Reconnecting))
    else Broadcast(c.(conn := None, replay := false, state := Disconnected, lifecycle := c.lifecycle + 1))
  }

  function GiveUpReconnecting(c: Client, l: nat): Client {
    if Stale(c, l) then c else Broadcast(c.(state := Disconnected))
  }

  function CloseClient(c: Client): Client {
    Broadcast(c.(state := Closed, conn := None))
  }

  // ---- goroutines ----

  /** Where a goroutine is: in a connect call, a feed replay and its failure handling, a reconnect loop, a cleanup of the
      subscription tables (`thenLoop`: by a read pump that starts a loop next), or a read pump. */
  datatype Point =
    | ConnectWaiting | ConnectChecking | Dialing
    | Installed | Replaying | FailWaiting | FailChecking
    | Backoff | LoopWaiting | LoopChecking | LoopDialing | LoopFailed | GivingUp
    | CleanupStart | CleanupWaiting
    | Cleaning(thenLoop: bool) | SwapChecking(thenLoop: bool) | Swapping(thenLoop: bool) | Releasing(thenLoop: bool)
    | Reading | DropWaiting(slow: bool) | DropChecking(slow: bool)

  datatype Task = Task(point: Point, l: nat)

  datatype Role = NoRole | Dialer | Looper | Replayer | Cleaner | Reader

  function RoleOf(p: Point): Role {
    match p
    case ConnectWaiting => NoRole
    case ConnectChecking => NoRole
    case Dialing => Dialer
    case Installed => Replayer
    case Replaying => Replayer
    case FailWaiting => Replayer
    case FailChecking => Replayer
    case Backoff => Looper
    case LoopWaiting => Looper
    case LoopChecking => Looper
    case LoopDialing => Looper
    case LoopFailed => Looper
    case GivingUp => Looper
    case CleanupStart => Cleaner
    case CleanupWaiting => Cleaner
    case Cleaning(thenLoop) => if thenLoop then Looper else Cleaner
    case SwapChecking(thenLoop) => if thenLoop then Looper else Cleaner
    case Swapping(thenLoop) => if thenLoop then Looper else Cleaner
    case Releasing(thenLoop) => if thenLoop then Looper else NoRole
    case Reading => Reader
    case DropWaiting(_) => Reader
    case DropChecking(_) => Reader
  }

  /** The points at which a task has the lifecycle gate. */
  predicate HoldsGate(p: Point) {
    || p.ConnectChecking? || p.Dialing? || p.Installed? || p.FailChecking? || p.LoopChecking? || p.LoopDialing?
    || p.LoopFailed? || p.Cleaning? || p.SwapChecking? || p.Swapping? || p.Releasing? || p.DropChecking?
  }

  predicate WaitsForGate(p: Point) {
    p.ConnectWaiting? || p.FailWaiting? || p.LoopWaiting? || p.CleanupWaiting? || p.DropWaiting?
  }

  function WithGate(p: Point): Point
    requires WaitsForGate(p)
  {
    match p
    case ConnectWaiting => ConnectChecking
    case FailWaiting => FailChecking
    case LoopWaiting => LoopChecking
    case CleanupWaiting => Cleaning(false)
    case DropWaiting(slow) => DropChecking(slow)
  }

  /** `installed` records the lifecycles that installed a connection, `badSwap` a table swap done for another than the current
      lifecycle or under an installed connection. */
  datatype State = State(
    client: Client,
    gate: Option<nat>,
    tasks: map<nat, Task>,
    autoReconnect: bool,
    installed: set<nat>,
    badSwap: bool)

  datatype Step =
    | StartConnect(t: nat)
    | Acquire(t: nat) | Refused(t: nat) | Release(t: nat, giveUp: bool)
    | CheckConnect(t: nat, refused: bool)
    | DialReturns(t: nat, ok: bool, pump: nat)
    | ReplayReturns(t: nat, ok: bool) | CheckFail(t: nat)
    | Exhausted(t: nat) | WakeLoop(t: nat, sawDone: bool) | CheckLoop(t: nat) | LoopDialReturns(t: nat, ok: bool, pump: nat)
    | GiveUp(t: nat)
    | CheckCleanup(t: nat) | Clean(t: nat) | CheckSwap(t: nat) | Swap(t: nat)
    | ReadFails(t: nat, slow: bool) | ReadEnds(t: nat) | CheckDrop(t: nat)
    | Close

  function Init(autoReconnect: bool): State {
    State(Client(Disconnected, None, 0, false, NoBoundary), None, map[], autoReconnect, {}, false)
  }

  predicate At(s: State, t: nat) {
    t in s.tasks
  }

  function PointOf(s: State, t: nat): Point
    requires At(s, t)
  {
    s.tasks[t].point
  }

  predicate Enabled(s: State, step: Step) {
    match step
    case StartConnect(t) => !At(s, t)
    case Acquire(t) => At(s, t) && WaitsForGate(PointOf(s, t)) && s.gate.None?
    case Refused(t) => At(s, t) && WaitsForGate(PointOf(s, t)) && (s.client.state.Closed? || PointOf(s, t).ConnectWaiting?)
    case Release(t, _) => At(s, t) && (PointOf(s, t).Installed? || PointOf(s, t).LoopFailed? || PointOf(s, t).Releasing?)
    case CheckConnect(t, _) => At(s, t) && PointOf(s, t).ConnectChecking?
    case DialReturns(t, _, pump) => At(s, t) && PointOf(s, t).Dialing? && !At(s, pump)
    case ReplayReturns(t, _) => At(s, t) && PointOf(s, t).Replaying?
    case CheckFail(t) => At(s, t) && PointOf(s, t).FailChecking?
    case Exhausted(t) => At(s, t) && PointOf(s, t).Backoff?
    case WakeLoop(t, sawDone) => At(s, t) && PointOf(s, t).Backoff? && (sawDone ==> s.client.state.Closed?)
    case CheckLoop(t) => At(s, t) && PointOf(s, t).LoopChecking?
    case LoopDialReturns(t, _, pump) => At(s, t) && PointOf(s, t).LoopDialing? && !At(s, pump)
    case GiveUp(t) => At(s, t) && PointOf(s, t).GivingUp?
    case CheckCleanup(t) => At(s, t) && PointOf(s, t).CleanupStart?
    case Clean(t) => At(s, t) && PointOf(s, t).Cleaning?
    case CheckSwap(t) => At(s, t) && PointOf(s, t).SwapChecking?
    case Swap(t) => At(s, t) && PointOf(s, t).Swapping?
    case ReadFails(t, _) => At(s, t) && PointOf(s, t).Reading?
    case ReadEnds(t) => At(s, t) && PointOf(s, t).Reading? && (Stale(s.client, s.tasks[t].l) || s.client.conn.None?)
    case CheckDrop(t) => At(s, t) && PointOf(s, t).DropChecking?
    case Close => !s.client.state.Closed?
  }

  function Go(s: State, t: nat, p: Point): State
    requires At(s, t)
  {
    s.(tasks := s.tasks[t := s.tasks[t].(point := p)])
  }

  function End(s: State, t: nat): State {
    s.(tasks := s.tasks - {t})
  }

  /** A connection of lifecycle `l` is in place: its read pump starts. */
  function StartPump(s: State, l: nat, pump: nat): State {
    s.(tasks := s.tasks[pump := Task(Reading, l)], installed := s.installed + {l})
  }

  function Next(s: State, step: Step): State
    requires Enabled(s, step)
  {
    var c := s.client;
    match step
    case StartConnect(t) => s.(tasks := s.tasks[t := Task(ConnectWaiting, 0)])
    case Acquire(t) => Go(s, t, WithGate(PointOf(s, t))).(gate := Some(t))
    case Refused(t) => End(s, t)
    case Release(t, giveUp) =>
      (match PointOf(s, t)
       case Installed => Go(s, t, Replaying)
       case LoopFailed => Go(s, t, if giveUp then GivingUp else Backoff)
       case Releasing(thenLoop) => if thenLoop then Go(s, t, Backoff) else End(s, t)
       case _ => s).(gate := None)
    case CheckConnect(t, refused) =>
      if refused || !c.state.Disconnected? then Go(s, t, Releasing(false))
      else var d := BeginConnect(c); s.(client := d, tasks := s.tasks[t := Task(Dialing, d.lifecycle)])
    case DialReturns(t, ok, pump) =>
      var l := s.tasks[t].l;
      if c.state.Closed? || !ok then Go(s, t, Releasing(false)).(client := DialDone(c, l, ok))
      else StartPump(Go(s, t, Installed).(client := DialDone(c, l, ok)), l, pump)
    case ReplayReturns(t, ok) =>
      if ok then End(s, t).(client := ReplayDone(c, s.tasks[t].l)) else Go(s, t, FailWaiting)
    case CheckFail(t) =>
      var d := FailReplay(c, s.tasks[t].l);
      if Stale(c, s.tasks[t].l) then Go(s, t, Releasing(false))
      else s.(client := d, tasks := s.tasks[t := Task(Cleaning(false), d.lifecycle)])
    case Exhausted(t) => Go(s, t, GivingUp)
    case WakeLoop(t, sawDone) =>
      if sawDone then End(s, t).(client := Broadcast(c))
      else if LoopMayInstall(c, s.tasks[t].l) then Go(s, t, LoopWaiting) else End(s, t)
    case CheckLoop(t) => Go(s, t, if LoopMayInstall(c, s.tasks[t].l) then LoopDialing else Releasing(false))
    case LoopDialReturns(t, ok, pump) =>
      var l := s.tasks[t].l;
      if !ok then Go(s, t, LoopFailed)
      else if !LoopMayInstall(c, l) then Go(s, t, Releasing(false))
      else StartPump(Go(s, t, Installed).(client := LoopDialDone(c, l)), l, pump)
    case GiveUp(t) =>
      if Stale(c, s.tasks[t].l) then End(s, t)
      else Go(s, t, CleanupStart).(client := GiveUpReconnecting(c, s.tasks[t].l))
    case CheckCleanup(t) => if Stale(c, s.tasks[t].l) then End(s, t) else Go(s, t, CleanupWaiting)
    case Clean(t) =>
      Go(s, t, if Stale(c, s.tasks[t].l) then Releasing(PointOf(s, t).thenLoop) else SwapChecking(PointOf(s, t).thenLoop))
    case CheckSwap(t) =>
      Go(s, t, if Stale(c, s.tasks[t].l) then Releasing(PointOf(s, t).thenLoop) else Swapping(PointOf(s, t).thenLoop))
    case Swap(t) =>
      Go(s, t, Releasing(PointOf(s, t).thenLoop)).(badSwap := s.badSwap || s.tasks[t].l != c.lifecycle || c.conn.Some?)
    case ReadFails(t, slow) => Go(s, t, DropWaiting(slow))
    case ReadEnds(t) => End(s, t)
    case CheckDrop(t) =>
      var d := DropConnection(c, s.tasks[t].l, s.autoReconnect);
      if DropIgnored(c, s.tasks[t].l) then Go(s, t, Releasing(false))
      else if s.autoReconnect then
        s.(client := d, tasks := s.tasks[t := Task(if PointOf(s, t).slow then Cleaning(true) else Releasing(true), d.lifecycle)])
      else s.(client := d, tasks := s.tasks[t := Task(Cleaning(false), d.lifecycle)])
    case Close => s.(client := CloseClient(c))
  }

  // ---- what every step keeps ----

  /** An attempt to connect is under way, and callers of `Connect` wait for it. */
  predicate InProgress(c: Client) {
    c.state.Connecting? || c.state.Reconnecting? || (c.state.Connected? && c.replay)
  }

  ghost predicate ClientAgrees(c: Client, installed: set<nat>) {
    && (c.conn.Some? <==> c.state.Connected?)
    && (c.conn.Some? ==> c.conn.value == c.lifecycle)
    && (c.boundary.Open? <==> InProgress(c))
    && (c.replay ==> c.state.Connected? || c.state.Closed?)
    && (forall l | l in installed :: l <= c.lifecycle)
    && (c.state.Connecting? || c.state.Reconnecting? ==> c.lifecycle !in installed)
  }

  /** The state in which a task of the current lifecycle can be. */
  predicate Allowed(r: Role, c: Client) {
    match r
    case NoRole => true
    case Dialer => c.state.Connecting?
    case Looper => c.state.Reconnecting?
    case Replayer => c.state.Connected? && c.replay
    case Cleaner => c.state.Disconnected?
    case Reader => c.state.Connected?
  }

  predicate MustBeCurrent(p: Point) {
    p.Dialing? || p.LoopDialing? || p.Swapping?
  }

  predicate TaskAgrees(c: Client, task: Task) {
    var r := RoleOf(task.point);
    && (!r.NoRole? ==> task.l <= c.lifecycle)
    && (MustBeCurrent(task.point) ==> task.l == c.lifecycle)
    && (task.l == c.lifecycle && !c.state.Closed? ==> Allowed(r, c))
  }

  predicate OwnsAttempt(c: Client, task: Task) {
    var r := RoleOf(task.point);
    (r.Dialer? || r.Looper? || r.Replayer?) && task.l == c.lifecycle && !c.state.Closed?
  }

  ghost predicate GateAgrees(s: State) {
    && (forall t: nat | At(s, t) :: HoldsGate(PointOf(s, t)) <==> s.gate == Some(t))
    && (s.gate.Some? ==> At(s, s.gate.value))
  }

  ghost predicate TasksAgree(s: State) {
    forall t: nat | At(s, t) :: TaskAgrees(s.client, s.tasks[t])
  }

  ghost predicate IsOwner(s: State, t: nat) {
    At(s, t) && OwnsAttempt(s.client, s.tasks[t])
  }

  ghost predicate OneOwner(s: State) {
    && (forall t: nat, u: nat :: IsOwner(s, t) && IsOwner(s, u) ==> t == u)
    && (InProgress(s.client) ==> exists t: nat :: IsOwner(s, t))
  }

  ghost predicate Inv(s: State) {
    && ClientAgrees(s.client, s.installed) && GateAgrees(s) && TasksAgree(s) && OneOwner(s)
    && !s.badSwap
  }

  lemma InitHolds(autoReconnect: bool)
    ensures Inv(Init(autoReconnect))
  {
  }

  // ---- one goroutine moves, the client stays ----

  /** `t` is `s` with goroutine `id` at another point, of the same role unless it ends its part. */
  ghost predicate Moved(s: State, t: State, id: nat) {
    && At(s, id) && t.client == s.client && t.installed == s.installed && t.badSwap == s.badSwap
    && t.tasks.Keys <= s.tasks.Keys
    && (forall u: nat | u != id :: (At(s, u) <==> At(t, u)) && (At(s, u) ==> t.tasks[u] == s.tasks[u]))
  }

  lemma MoveKeepsOwners(s: State, t: State, id: nat)
    requires OneOwner(s) && Moved(s, t, id) && (IsOwner(s, id) <==> IsOwner(t, id))
    ensures OneOwner(t)
  {
    hide OwnsAttempt;
    assert forall u: nat :: IsOwner(s, u) <==> IsOwner(t, u);
  }

  lemma MoveKeepsTasks(s: State, t: State, id: nat)
    requires TasksAgree(s) && Moved(s, t, id) && (At(t, id) ==> TaskAgrees(t.client, t.tasks[id]))
    ensures TasksAgree(t)
  {
    hide TaskAgrees;
  }

  /** The gate after a task that kept it, took it or gave it back. */
  lemma MoveKeepsGate(s: State, t: State, id: nat)
    requires GateAgrees(s) && Moved(s, t, id)
    requires var had, has := HoldsGate(PointOf(s, id)), At(t, id) && HoldsGate(PointOf(t, id));
             if had == has then t.gate == s.gate else if has then s.gate.None? && t.gate == Some(id) else t.gate.None?
    ensures GateAgrees(t)
  {
    hide HoldsGate;
  }

  /** Whether the gate changes hands as the two points say. */
  predicate GateFollows(s: State, had: bool, has: bool, id: nat, gate: Option<nat>) {
    if had == has then gate == s.gate else if has then s.gate.None? && gate == Some(id) else gate.None?
  }

  lemma GoKeeps(s: State, id: nat, p: Point, gate: Option<nat>)
    requires Inv(s) && At(s, id) && GateFollows(s, HoldsGate(PointOf(s, id)), HoldsGate(p), id, gate)
    requires TaskAgrees(s.client, Task(p, s.tasks[id].l))
    requires OwnsAttempt(s.client, Task(p, s.tasks[id].l)) <==> OwnsAttempt(s.client, s.tasks[id])
    ensures Inv(Go(s, id, p).(gate := gate))
  {
    hide HoldsGate, OwnsAttempt, TaskAgrees;
    var t := Go(s, id, p).(gate := gate);
    MoveKeepsOwners(s, t, id);
    MoveKeepsTasks(s, t, id);
    MoveKeepsGate(s, t, id);
    hide GateAgrees, TasksAgree, OneOwner;
  }

  lemma EndKeeps(s: State, id: nat, gate: Option<nat>)
    requires Inv(s) && At(s, id) && GateFollows(s, HoldsGate(PointOf(s, id)), false, id, gate)
    requires !OwnsAttempt(s.client, s.tasks[id])
    ensures Inv(End(s, id).(gate := gate))
  {
    hide HoldsGate, OwnsAttempt, TaskAgrees;
    var t := End(s, id).(gate := gate);
    MoveKeepsOwners(s, t, id);
    MoveKeepsTasks(s, t, id);
    MoveKeepsGate(s, t, id);
    hide GateAgrees, TasksAgree, OneOwner;
  }

  /** What is known of one task. */
  lemma TaskFacts(s: State, id: nat)
    requires Inv(s) && At(s, id)
    ensures TaskAgrees(s.client, s.tasks[id]) && (HoldsGate(PointOf(s, id)) <==> s.gate == Some(id))
    ensures ClientAgrees(s.client, s.installed)
  {
    hide TaskAgrees, HoldsGate;
  }

  /** The steps that leave the client alone. */
  predicate IsMove(s: State, step: Step)
    requires Enabled(s, step)
  {
    match step
    case StartConnect(_) => false
    case CheckConnect(_, refused) => refused || !s.client.state.Disconnected?
    case DialReturns(_, _, _) => false
    case ReplayReturns(_, ok) => !ok
    case CheckFail(t) => Stale(s.client, s.tasks[t].l)
    case LoopDialReturns(t, ok, _) => !ok || !LoopMayInstall(s.client, s.tasks[t].l)
    case WakeLoop(_, sawDone) => !sawDone
    case GiveUp(t) => Stale(s.client, s.tasks[t].l)
    case CheckDrop(t) => DropIgnored(s.client, s.tasks[t].l)
    case Swap(_) => false
    case Close => false
    case Acquire(_) => true
    case Refused(_) => true
    case Release(_, _) => true
    case Exhausted(_) => true
    case CheckLoop(_) => true
    case CheckCleanup(_) => true
    case Clean(_) => true
    case CheckSwap(_) => true
    case ReadFails(_, _) => true
    case ReadEnds(_) => true
  }

  lemma GateMoveKeeps(s: State, step: Step)
    requires Inv(s) && Enabled(s, step) && IsMove(s, step) && (step.Acquire? || step.Refused?)
    ensures Inv(Next(s, step))
  {
    TaskFacts(s, step.t);
    hide Inv, Go, End;
    var t := Next(s, step);
    if At(t, step.t) {
      GoKeeps(s, step.t, PointOf(t, step.t), t.gate);
    } else {
      EndKeeps(s, step.t, t.gate);
    }
  }

  lemma ReleaseMoveKeeps(s: State, step: Step)
    requires Inv(s) && Enabled(s, step) && IsMove(s, step) && (step.Release?)
    ensures Inv(Next(s, step))
  {
    TaskFacts(s, step.t);
    hide Inv, Go, End;
    var t := Next(s, step);
    if At(t, step.t) {
      GoKeeps(s, step.t, PointOf(t, step.t), t.gate);
    } else {
      EndKeeps(s, step.t, t.gate);
    }
  }

  lemma LoopMoveKeeps(s: State, step: Step)
    requires Inv(s) && Enabled(s, step) && IsMove(s, step) && (step.Exhausted? || step.WakeLoop? || step.CheckLoop? || step.LoopDialReturns? || step.GiveUp?)
    ensures Inv(Next(s, step))
  {
    TaskFacts(s, step.t);
    hide Inv, Go, End;
    var t := Next(s, step);
    if At(t, step.t) {
      GoKeeps(s, step.t, PointOf(t, step.t), t.gate);
    } else {
      EndKeeps(s, step.t, t.gate);
    }
  }

  lemma CleanupMoveKeeps(s: State, step: Step)
    requires Inv(s) && Enabled(s, step) && IsMove(s, step) && (step.CheckCleanup? || step.Clean? || step.CheckSwap?)
    ensures Inv(Next(s, step))
  {
    TaskFacts(s, step.t);
    hide Inv, Go, End;
    var t := Next(s, step);
    if At(t, step.t) {
      GoKeeps(s, step.t, PointOf(t, step.t), t.gate);
    } else {
      EndKeeps(s, step.t, t.gate);
    }
  }

  lemma ReadMoveKeeps(s: State, step: Step)
    requires Inv(s) && Enabled(s, step) && IsMove(s, step) && (step.ReadFails? || step.ReadEnds? || step.CheckDrop?)
    ensures Inv(Next(s, step))
  {
    TaskFacts(s, step.t);
    hide Inv, Go, End;
    var t := Next(s, step);
    if At(t, step.t) {
      GoKeeps(s, step.t, PointOf(t, step.t), t.gate);
    } else {
      EndKeeps(s, step.t, t.gate);
    }
  }

  lemma ConnectMoveKeeps(s: State, step: Step)
    requires Inv(s) && Enabled(s, step) && IsMove(s, step) && (step.CheckConnect? || step.ReplayReturns? || step.CheckFail?)
    ensures Inv(Next(s, step))
  {
    TaskFacts(s, step.t);
    hide Inv, Go, End;
    var t := Next(s, step);
    GoKeeps(s, step.t, PointOf(t, step.t), t.gate);
  }

  lemma MoveStepKeeps(s: State, step: Step)
    requires Inv(s) && Enabled(s, step) && IsMove(s, step)
    ensures Inv(Next(s, step))
  {
    hide Inv, Next, Enabled;
    if step.Acquire? || step.Refused? {
      GateMoveKeeps(s, step);
    } else if step.Release? {
      ReleaseMoveKeeps(s, step);
    } else if step.CheckCleanup? || step.Clean? || step.CheckSwap? {
      CleanupMoveKeeps(s, step);
    } else if step.ReadFails? || step.ReadEnds? || step.CheckDrop? {
      ReadMoveKeeps(s, step);
    } else if step.CheckConnect? || step.ReplayReturns? || step.CheckFail? {
      ConnectMoveKeeps(s, step);
    } else {
      LoopMoveKeeps(s, step);
    }
  }

  // ---- the client changes ----

  /** A task starts or leaves without touching the client or the gate. */
  lemma StartConnectKeeps(s: State, t: nat)
    requires Inv(s) && Enabled(s, StartConnect(t))
    ensures Inv(Next(s, StartConnect(t)))
  {
    hide ClientAgrees;
    var n := Next(s, StartConnect(t));
    assert forall u: nat :: IsOwner(n, u) <==> IsOwner(s, u);
  }

  lemma SwapKeeps(s: State, t: nat)
    requires Inv(s) && Enabled(s, Swap(t))
    ensures Inv(Next(s, Swap(t)))
  {
    TaskFacts(s, t);
    var thenLoop := PointOf(s, t).thenLoop;
    GoKeeps(s, t, Releasing(thenLoop), s.gate);
    hide Inv;
    var n := Next(s, Swap(t));
    assert !n.badSwap;
    assert n == Go(s, t, Releasing(thenLoop)).(gate := s.gate);
  }

  /** A new lifecycle starts with the gate held: every other task belongs to an older one. */
  lemma BumpKeeps(s: State, id: nat, d: Client, task: Task)
    requires Inv(s) && At(s, id) && HoldsGate(PointOf(s, id)) && HoldsGate(task.point)
    requires d.lifecycle == s.client.lifecycle + 1 && ClientAgrees(d, s.installed)
    requires task.l == d.lifecycle && TaskAgrees(d, task) && (InProgress(d) <==> OwnsAttempt(d, task))
    ensures Inv(s.(client := d, tasks := s.tasks[id := task]))
  {
    var n := s.(client := d, tasks := s.tasks[id := task]);
    forall u: nat | u != id && At(s, u)
      ensures TaskAgrees(d, s.tasks[u]) && !OwnsAttempt(d, s.tasks[u])
    {
      TaskFacts(s, u);
      TaskFacts(s, id);
      OldTask(s.client, d, s.tasks[u]);
    }
    hide TaskAgrees, OwnsAttempt, HoldsGate, ClientAgrees;
    assert forall u: nat :: IsOwner(n, u) ==> u == id;
    assert InProgress(d) ==> IsOwner(n, id);
  }

  lemma OldTask(c: Client, d: Client, task: Task)
    requires d.lifecycle == c.lifecycle + 1 && TaskAgrees(c, task) && !HoldsGate(task.point)
    ensures TaskAgrees(d, task) && !OwnsAttempt(d, task)
  {
  }

  lemma BeginConnectKeeps(s: State, t: nat)
    requires Inv(s) && At(s, t) && PointOf(s, t).ConnectChecking? && s.client.state.Disconnected?
    ensures Inv(Next(s, CheckConnect(t, false)))
  {
    var d := BeginConnect(s.client);
    BumpKeeps(s, t, d, Task(Dialing, d.lifecycle));
  }

  lemma FailReplayKeeps(s: State, t: nat)
    requires Inv(s) && At(s, t) && PointOf(s, t).FailChecking? && !Stale(s.client, s.tasks[t].l)
    ensures Inv(Next(s, CheckFail(t)))
  {
    TaskFacts(s, t);
    var d := FailReplay(s.client, s.tasks[t].l);
    BumpKeeps(s, t, d, Task(Cleaning(false), d.lifecycle));
  }

  lemma DropKeeps(s: State, t: nat)
    requires Inv(s) && At(s, t) && PointOf(s, t).DropChecking? && !DropIgnored(s.client, s.tasks[t].l)
    ensures Inv(Next(s, CheckDrop(t)))
  {
    TaskFacts(s, t);
    var d := DropConnection(s.client, s.tasks[t].l, s.autoReconnect);
    if s.autoReconnect {
      BumpKeeps(s, t, d, Task(if PointOf(s, t).slow then Cleaning(true) else Releasing(true), d.lifecycle));
    } else {
      BumpKeeps(s, t, d, Task(Cleaning(false), d.lifecycle));
    }
  }

  /** While the owner of an attempt has no connection yet, no other task is current. */
  lemma OthersIdle(s: State, id: nat, u: nat)
    requires Inv(s) && IsOwner(s, id) && At(s, u) && u != id
    requires s.client.state.Connecting? || s.client.state.Reconnecting?
    ensures s.tasks[u].l != s.client.lifecycle || RoleOf(PointOf(s, u)).NoRole?
  {
    TaskFacts(s, u);
    TaskFacts(s, id);
    assert !IsOwner(s, u);
    hide Inv;
  }

  lemma IdleTask(c: Client, d: Client, task: Task)
    requires d.lifecycle == c.lifecycle && TaskAgrees(c, task)
    requires task.l != c.lifecycle || RoleOf(task.point).NoRole?
    ensures TaskAgrees(d, task) && !OwnsAttempt(d, task)
  {
  }

  /** The owner of an attempt settles it: with a failure, or with a connection whose read pump starts. */
  lemma SettleKeeps(s: State, n: State, id: nat, pump: Option<nat>)
    requires Inv(s) && IsOwner(s, id) && (s.client.state.Connecting? || s.client.state.Reconnecting?)
    requires n.client.lifecycle == s.client.lifecycle && ClientAgrees(n.client, n.installed) && n.badSwap == s.badSwap
    requires At(n, id) && TaskAgrees(n.client, n.tasks[id]) && (InProgress(n.client) <==> OwnsAttempt(n.client, n.tasks[id]))
    requires n.gate == s.gate && (HoldsGate(PointOf(n, id)) <==> HoldsGate(PointOf(s, id)))
    requires pump.Some? ==>
      && !At(s, pump.value) && At(n, pump.value)
      && n.tasks[pump.value] == Task(Reading, n.client.lifecycle) && TaskAgrees(n.client, n.tasks[pump.value])
    requires forall u: nat | u != id && pump != Some(u) :: (At(s, u) <==> At(n, u)) && (At(s, u) ==> n.tasks[u] == s.tasks[u])
    ensures Inv(n)
  {
    forall u: nat | u != id && At(n, u)
      ensures TaskAgrees(n.client, n.tasks[u]) && !OwnsAttempt(n.client, n.tasks[u])
    {
      if pump != Some(u) {
        OthersIdle(s, id, u);
        TaskFacts(s, u);
        IdleTask(s.client, n.client, s.tasks[u]);
      }
    }
    assert !HoldsGate(Reading);
    SettledGate(s, n, id, pump);
    hide TaskAgrees, OwnsAttempt, HoldsGate, ClientAgrees, GateAgrees;
    assert forall u: nat :: IsOwner(n, u) ==> u == id;
    assert InProgress(n.client) ==> IsOwner(n, id);
  }

  lemma SettledGate(s: State, n: State, id: nat, pump: Option<nat>)
    requires GateAgrees(s) && At(s, id) && At(n, id) && n.gate == s.gate
    requires HoldsGate(PointOf(n, id)) <==> HoldsGate(PointOf(s, id))
    requires pump.Some? ==> !At(s, pump.value) && At(n, pump.value) && PointOf(n, pump.value).Reading?
    requires forall u: nat | u != id && pump != Some(u) :: (At(s, u) <==> At(n, u)) && (At(s, u) ==> n.tasks[u] == s.tasks[u])
    ensures GateAgrees(n)
  {
    assert !HoldsGate(Reading);
    hide HoldsGate;
  }

  lemma DialKeeps(s: State, t: nat, ok: bool, pump: nat)
    requires Inv(s) && Enabled(s, DialReturns(t, ok, pump))
    ensures Inv(Next(s, DialReturns(t, ok, pump)))
  {
    TaskFacts(s, t);
    if s.client.state.Closed? {
      assert Broadcast(s.client) == s.client;
      GoKeeps(s, t, Releasing(false), s.gate);
      hide Inv;
      assert Next(s, DialReturns(t, ok, pump)) == Go(s, t, Releasing(false)).(gate := s.gate);
    } else {
      assert IsOwner(s, t);
      hide Inv;
      SettleKeeps(s, Next(s, DialReturns(t, ok, pump)), t, if ok then Some(pump) else None);
    }
  }

  lemma LoopDialKeeps(s: State, t: nat, pump: nat)
    requires Inv(s) && Enabled(s, LoopDialReturns(t, true, pump)) && LoopMayInstall(s.client, s.tasks[t].l)
    ensures Inv(Next(s, LoopDialReturns(t, true, pump)))
  {
    TaskFacts(s, t);
    assert IsOwner(s, t);
    hide Inv;
    SettleKeeps(s, Next(s, LoopDialReturns(t, true, pump)), t, Some(pump));
  }

  lemma GiveUpKeeps(s: State, t: nat)
    requires Inv(s) && Enabled(s, GiveUp(t)) && !Stale(s.client, s.tasks[t].l)
    ensures Inv(Next(s, GiveUp(t)))
  {
    TaskFacts(s, t);
    assert IsOwner(s, t);
    hide Inv;
    SettleKeeps(s, Next(s, GiveUp(t)), t, None);
  }

  lemma ReplayDoneKeeps(s: State, t: nat)
    requires Inv(s) && Enabled(s, ReplayReturns(t, true))
    ensures Inv(Next(s, ReplayReturns(t, true)))
  {
    TaskFacts(s, t);
    var n := Next(s, ReplayReturns(t, true));
    if n.client == s.client {
      assert !OwnsAttempt(s.client, s.tasks[t]);
      EndKeeps(s, t, s.gate);
    } else {
      assert IsOwner(s, t);
      forall u: nat | u != t && At(s, u)
        ensures TaskAgrees(n.client, s.tasks[u])
      {
        TaskFacts(s, u);
        assert !IsOwner(s, u);
      }
      hide TaskAgrees, ClientAgrees;
      assert forall u: nat | At(n, u) :: !IsOwner(n, u);
    }
  }

  lemma ClosedTask(c: Client, d: Client, task: Task)
    requires TaskAgrees(c, task) && d.state.Closed? && d.lifecycle == c.lifecycle
    ensures TaskAgrees(d, task) && !OwnsAttempt(d, task)
  {
  }

  lemma CloseKeeps(s: State)
    requires Inv(s) && Enabled(s, Close)
    ensures Inv(Next(s, Close))
  {
    var n := Next(s, Close);
    forall u: nat | At(n, u)
      ensures TaskAgrees(n.client, n.tasks[u]) && !IsOwner(n, u)
    {
      TaskFacts(s, u);
      ClosedTask(s.client, n.client, s.tasks[u]);
    }
    hide TaskAgrees, OwnsAttempt;
  }

  lemma LateWakeKeeps(s: State, t: nat)
    requires Inv(s) && Enabled(s, WakeLoop(t, true))
    ensures Inv(Next(s, WakeLoop(t, true)))
  {
    TaskFacts(s, t);
    assert Broadcast(s.client) == s.client;
    EndKeeps(s, t, s.gate);
    hide Inv;
    assert Next(s, WakeLoop(t, true)) == End(s, t).(gate := s.gate);
  }

  lemma NextKeeps(s: State, step: Step)
    requires Inv(s) && Enabled(s, step)
    ensures Inv(Next(s, step))
  {
    hide Inv, Next;
    if IsMove(s, step) {
      MoveStepKeeps(s, step);
    } else {
      match step
      case StartConnect(t) => StartConnectKeeps(s, t);
      case CheckConnect(t, _) => BeginConnectKeeps(s, t);
      case DialReturns(t, ok, pump) => DialKeeps(s, t, ok, pump);
      case ReplayReturns(t, _) => ReplayDoneKeeps(s, t);
      case CheckFail(t) => FailReplayKeeps(s, t);
      case LoopDialReturns(t, _, pump) => LoopDialKeeps(s, t, pump);
      case WakeLoop(t, _) => LateWakeKeeps(s, t);
      case GiveUp(t) => GiveUpKeeps(s, t);
      case CheckDrop(t) => DropKeeps(s, t);
      case Swap(t) => SwapKeeps(s, t);
      case Close => CloseKeeps(s);
    }
  }

  // ---- runs ----

  ghost predicate ValidRun(s: State, steps: seq<Step>)
    decreases |steps|
  {
    steps == [] || (Enabled(s, steps[0]) && ValidRun(Next(s, steps[0]), steps[1..]))
  }

  ghost function Run(s: State, steps: seq<Step>): State
    requires ValidRun(s, steps)
    decreases |steps|
  {
    if steps == [] then s else Run(Next(s, steps[0]), steps[1..])
  }

  lemma {:induction false} RunKeeps(s: State, steps: seq<Step>)
    requires Inv(s) && ValidRun(s, steps)
    ensures Inv(Run(s, steps))
    decreases |steps|
  {
    hide Inv, Next, Enabled;
    if steps != [] {
      NextKeeps(s, steps[0]);
      RunKeeps(Next(s, steps[0]), steps[1..]);
    }
  }

  /** In every run: a connection is installed exactly while the client is connected, and it is the current lifecycle's; a
      cleanup's table swap never happened for an older lifecycle than the current one, nor under an installed connection. */
  lemma ConnectionMatchesState(autoReconnect: bool, steps: seq<Step>)
    requires ValidRun(Init(autoReconnect), steps)
    ensures var s := Run(Init(autoReconnect), steps);
            && (s.client.conn.Some? <==> s.client.state.Connected?)
            && (s.client.conn.Some? ==> s.client.conn.value == s.client.lifecycle)
            && !s.badSwap
  {
    hide Next, Enabled;
    InitHolds(autoReconnect);
    RunKeeps(Init(autoReconnect), steps);
  }

  /** A goroutine that is to settle the attempt under way. */
  ghost predicate Settles(s: State, t: nat) {
    IsOwner(s, t) && Allowed(RoleOf(PointOf(s, t)), s.client)
  }

  /** In every run: callers of `Connect` find an open channel to wait on exactly while an attempt is under way, and then one
      live task owns the attempt. */
  lemma WaitersHaveAnOwner(autoReconnect: bool, steps: seq<Step>)
    requires ValidRun(Init(autoReconnect), steps)
    ensures var s := Run(Init(autoReconnect), steps);
            && (s.client.boundary.Open? <==> InProgress(s.client))
            && (InProgress(s.client) ==> exists t: nat :: Settles(s, t) && forall u: nat :: IsOwner(s, u) ==> u == t)
  {
    hide Next, Enabled;
    InitHolds(autoReconnect);
    RunKeeps(Init(autoReconnect), steps);
    var s := Run(Init(autoReconnect), steps);
    if InProgress(s.client) {
      var t: nat :| IsOwner(s, t);
      TaskFacts(s, t);
      assert Settles(s, t);
    }
  }

  /** Closed is for good: nothing is installed and no lifecycle starts any more. */
  lemma ClosedIsAbsorbing(s: State, step: Step)
    requires Inv(s) && Enabled(s, step) && s.client.state.Closed?
    ensures Next(s, step).client == s.client && Next(s, step).installed == s.installed
  {
    hide TasksAgree, OneOwner, GateAgrees;
    assert Broadcast(s.client) == s.client;
  }

  /** Lifecycles only grow, one at a time and only in the hands of the gate's holder; a step installs at most one connection,
      for the current lifecycle, which had none before. */
  lemma LifecycleStep(s: State, step: Step)
    requires Inv(s) && Enabled(s, step)
    ensures var n := Next(s, step);
            && s.client.lifecycle <= n.client.lifecycle <= s.client.lifecycle + 1
            && (n.client.lifecycle != s.client.lifecycle ==> !step.Close? && s.gate == Some(step.t))
            && (n.installed != s.installed ==>
              n.client.conn == Some(n.client.lifecycle) && n.client.lifecycle !in s.installed
              && n.installed == s.installed + {n.client.lifecycle})
            && (n.client.conn.Some? && n.client.conn != s.client.conn ==> n.installed != s.installed)
  {
    hide OneOwner, GateAgrees, TasksAgree, HoldsGate;
    if !step.StartConnect? && !step.Close? {
      TaskFacts(s, step.t);
      HoldsGateAt(PointOf(s, step.t));
    }
  }

  lemma HoldsGateAt(p: Point)
    ensures p.ConnectChecking? || p.FailChecking? || p.DropChecking? || p.Dialing? || p.LoopDialing? ==> HoldsGate(p)
  {
  }

  lemma {:induction false} LifecycleGrows(s: State, steps: seq<Step>)
    requires Inv(s) && ValidRun(s, steps)
    ensures Run(s, steps).client.lifecycle >= s.client.lifecycle
    ensures s.client.state.Closed? ==> Run(s, steps).client == s.client
    decreases |steps|
  {
    hide Inv, Next, Enabled;
    if steps != [] {
      NextKeeps(s, steps[0]);
      LifecycleStep(s, steps[0]);
      if s.client.state.Closed? {
        ClosedIsAbsorbing(s, steps[0]);
      }
      LifecycleGrows(Next(s, steps[0]), steps[1..]);
    }
  }

  /** Two guards never fire: a read pump of the current lifecycle always finds its connection still installed, and a reconnect
      loop of the current lifecycle never finds one. */
  lemma GuardsNeverFire(s: State, t: nat)
    requires Inv(s) && At(s, t) && !Stale(s.client, s.tasks[t].l)
    ensures PointOf(s, t).DropChecking? ==> !DropIgnored(s.client, s.tasks[t].l) && s.client.conn == Some(s.tasks[t].l)
    ensures PointOf(s, t).Backoff? || PointOf(s, t).LoopChecking? || PointOf(s, t).LoopDialing? ==>
              LoopMayInstall(s.client, s.tasks[t].l) && s.client.state.Reconnecting?
  {
    TaskFacts(s, t);
    hide Inv;
  }

  /** When the read pump of the current connection sees it drop, the client reconnects if it is to do so: it enters the next
      lifecycle, opens a new attempt, and the pump goes on as the reconnect loop of that lifecycle, after failing the
      subscriptions of a slow consumer. Otherwise the client is disconnected, its waiters go on, and the pump fails the
      subscriptions and ends. */
  lemma DropMeans(s: State, t: nat)
    requires Inv(s) && Enabled(s, CheckDrop(t)) && s.client.state == Connected && s.client.lifecycle == s.tasks[t].l
    ensures var u, l := Next(s, CheckDrop(t)), s.tasks[t].l + 1;
            if s.autoReconnect then
              && u.client == Client(Reconnecting, None, l, false, Open)
              && u.tasks == s.tasks[t := Task(if s.tasks[t].point == DropChecking(true) then Cleaning(true) else Releasing(true), l)]
            else
              && u.client == Client(Disconnected, None, l, false, if s.client.boundary == NoBoundary then NoBoundary else Done)
              && u.tasks == s.tasks[t := Task(Cleaning(false), l)]
  {
    hide Inv;
  }

  // ---- the client as the object its sections update ----

  class ConnectionLifecycle {
    var state: ConnState
    var conn: Option<nat>
    var lifecycle: nat
    var replayInProgress: bool
    var connectDone: Boundary
    const autoReconnect: bool

    /** Whoever waits on the channel, if there is one, goes on. */
    static function Settled(b: Boundary): Boundary {
      if b == NoBoundary then NoBoundary else Done
    }

    ghost function View(): Client
      reads this
    {
      Client(state, conn, lifecycle, replayInProgress, connectDone)
    }

    constructor (autoReconnect: bool)
      ensures View() == Client(Disconnected, None, 0, false, NoBoundary) && this.autoReconnect == autoReconnect
    {
      this.autoReconnect := autoReconnect;
      state, conn, lifecycle, replayInProgress, connectDone := Disconnected, None, 0, false, NoBoundary;
    }

    /** Waiters of the new attempt find an open channel. */
    method StartConnectAttempt() returns (l: nat)
      modifies this
      ensures View() == old(View()).(lifecycle := old(lifecycle) + 1, boundary := Open) && l == lifecycle
    {
      lifecycle := lifecycle + 1;
      if connectDone.NoBoundary? {
        connectDone := Open;
      } else if connectDone.Done? {
        connectDone := Open;
      }
      return lifecycle;
    }

    method BroadcastConnect()
      modifies this
      ensures View() == old(View()).(boundary := Settled(old(connectDone)))
    {
      if !connectDone.NoBoundary? {
        if connectDone.Open? {
          connectDone := Done;
        }
      }
    }

    /** The first section of a connect call; `l` is the new lifecycle if it is to dial. */
    method BeginConnecting() returns (l: Option<nat>)
      modifies this
      ensures old(state) == Disconnected ==> View() == Client(Connecting, old(conn), old(lifecycle) + 1, old(replayInProgress), Open)
      ensures old(state) != Disconnected ==> View() == old(View())
      ensures View() == BeginConnect(old(View()))
      ensures l == if old(state).Disconnected? then Some(lifecycle) else None
    {
      if state.Closed? || (conn.Some? && state.Connected? && !replayInProgress) {
        return None;
      }
      if !state.Disconnected? {
        return None;
      }
      state := Connecting;
      var started := StartConnectAttempt();
      return Some(started);
    }

    /** After the dial of a connect call. */
    method FinishDial(l: nat, ok: bool) returns (installed: bool)
      modifies this
      ensures old(state) == Closed ==> View() == old(View()).(boundary := Settled(old(connectDone)))
      ensures old(state) != Closed && !ok ==> View() == old(View()).(state := Disconnected, boundary := Settled(old(connectDone)))
      ensures old(state) != Closed && ok ==> View() == Client(Connected, Some(l), old(lifecycle), true, old(connectDone))
      ensures View() == DialDone(old(View()), l, ok) && installed == (ok && !old(state).Closed?)
    {
      if state.Closed? {
        BroadcastConnect();
        return false;
      }
      if !ok {
        state := Disconnected;
        BroadcastConnect();
        return false;
      }
      conn := Some(l);
      state := Connected;
      replayInProgress := true;
      return true;
    }

    /** After a successful dial of a reconnect loop. */
    method FinishReconnectDial(l: nat) returns (installed: bool)
      modifies this
      ensures installed <==> old(state) != Closed && old(lifecycle) == l && !(old(state) == Connected && old(conn) != None)
      ensures View() == if installed then Client(Connected, Some(l), l, true, old(connectDone)) else old(View())
      ensures View() == LoopDialDone(old(View()), l) && installed == LoopMayInstall(old(View()), l)
    {
      if state.Closed? || lifecycle != l {
        return false;
      }
      if state.Connected? && conn.Some? {
        return false;
      }
      conn := Some(l);
      state := Connected;
      replayInProgress := true;
      return true;
    }

    /** After a successful replay of the feeds. */
    method FinishReplay(l: nat)
      modifies this
      ensures View() == if old(state) == Connected && old(lifecycle) == l
                        then old(View()).(replay := false, boundary := Settled(old(connectDone))) else old(View())
      ensures View() == ReplayDone(old(View()), l)
    {
      if state.Connected? && lifecycle == l {
        replayInProgress := false;
        BroadcastConnect();
      }
    }

    /** After a failed replay; `cleanup` is the lifecycle whose subscriptions are to be failed. */
    method HandleResubscribeFailure(l: nat) returns (cleanup: Option<nat>)
      modifies this
      ensures View() == if old(state) != Closed && old(lifecycle) == l
                        then Client(Disconnected, None, l + 1, false, Settled(old(connectDone))) else old(View())
      ensures View() == FailReplay(old(View()), l)
      ensures cleanup == if Stale(old(View()), l) then None else Some(lifecycle)
    {
      if !state.Closed? && lifecycle == l {
        replayInProgress := false;
        conn := None;
        lifecycle := lifecycle + 1;
        state := Disconnected;
        BroadcastConnect();
        return Some(lifecycle);
      }
      return None;
    }

    /** The read pump's connection dropped; `next` is the lifecycle to reconnect or clean up. */
    method ConnectionDropped(l: nat) returns (next: Option<nat>)
      modifies this
      ensures var current := old(state) != Closed && old(lifecycle) == l && !(old(state) == Disconnected && old(conn) == None);
              View() ==
              if !current then old(View())
              else if autoReconnect then Client(Reconnecting, None, l + 1, false, Open)
              else Client(Disconnected, None, l + 1, false, Settled(old(connectDone)))
      ensures View() == DropConnection(old(View()), l, autoReconnect)
      ensures next == if DropIgnored(old(View()), l) then None else Some(lifecycle)
    {
      if state.Closed? || lifecycle != l {
        return None;
      }
      if state.Disconnected? && conn.None? {
        return None;
      }
      conn := None;
      replayInProgress := false;
      if autoReconnect {
        state := Reconnecting;
        var r := StartConnectAttempt();
        return Some(r);
      }
      state := Disconnected;
      lifecycle := lifecycle + 1;
      BroadcastConnect();
      return Some(lifecycle);
    }

    /** The reconnect loop ran out of attempts or of credentials. */
    method GiveUp(l: nat) returns (gaveUp: bool)
      modifies this
      ensures gaveUp <==> old(state) != Closed && old(lifecycle) == l
      ensures View() == if gaveUp then old(View()).(state := Disconnected, boundary := Settled(old(connectDone))) else old(View())
      ensures View() == GiveUpReconnecting(old(View()), l) && gaveUp == !Stale(old(View()), l)
    {
      if state.Closed? || lifecycle != l {
        return false;
      }
      state := Disconnected;
      BroadcastConnect();
      return true;
    }

    method CloseConnection()
      modifies this
      ensures View() == Client(Closed, None, old(lifecycle), old(replayInProgress), Settled(old(connectDone)))
      ensures View() == CloseClient(old(View()))
    {
      state := Closed;
      BroadcastConnect();
      conn := None;
    }
  }
}
