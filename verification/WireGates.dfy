/** The per-feed gates that serialize control requests. A gate is an object with a one-slot token channel and a count of the
    operations that refer to it; the table holds a feed's gate only while some operation does. The sections under the table's
    mutex and the single channel operations are the steps; the schedule and the cancellations are arbitrary. States before
    `Close` only. */
module WireGates {
  datatype Gate = Gate(token: bool, refs: int)

  const NEW_GATE: Gate := Gate(true, 0)

  /** Where an operation is between asking for a gate and giving it back. */
  datatype Claim = Waiting | Abandoning | Holding

  datatype Op = Op(key: string, gate: nat, claim: Claim)

  /** `heap` holds every gate object ever made, `blocked` records a send on a full token channel. */
  datatype State = State(
    table: map<string, nat>,
    heap: map<nat, Gate>,
    made: nat,
    ops: map<nat, Op>,
    blocked: bool)

  datatype Step = Enter(op: nat, key: string) | Take(op: nat) | GiveUp(op: nat) | Abandon(op: nat) | Release(op: nat)

  function Init(): State {
    State(map[], map[], 0, map[], false)
  }

  predicate Enabled(s: State, step: Step) {
    match step
    case Enter(op, _) => op !in s.ops
    case Take(op) => op in s.ops && s.ops[op].claim.Waiting? && s.ops[op].gate in s.heap && s.heap[s.ops[op].gate].token
    case GiveUp(op) => op in s.ops && s.ops[op].claim.Waiting?
    case Abandon(op) => op in s.ops && s.ops[op].claim.Abandoning?
    case Release(op) => op in s.ops && s.ops[op].claim.Holding?
  }

  /** One reference less; the table drops a gate without references. Any other gate under the key is left alone. */
  function DropRef(s: State, key: string, g: nat): State {
    if key !in s.table || s.table[key] != g || g !in s.heap then s
    else
      var gate := s.heap[g].(refs := s.heap[g].refs - 1);
      s.(heap := s.heap[g := gate], table := if gate.refs == 0 then s.table - {key} else s.table)
  }

  /** The token goes back unless that was the last reference; the channel has room for one. */
  function ReturnToken(s: State, key: string, g: nat): State {
    if key !in s.table || s.table[key] != g || g !in s.heap then s
    else if s.heap[g].token then s.(blocked := true)
    else s.(heap := s.heap[g := s.heap[g].(token := true)])
  }

  function Next(s: State, step: Step): State
    requires Enabled(s, step)
  {
    match step
    case Enter(op, key) =>
      if key in s.table && s.table[key] in s.heap then
        var g := s.table[key];
        s.(heap := s.heap[g := s.heap[g].(refs := s.heap[g].refs + 1)], ops := s.ops[op := Op(key, g, Waiting)])
      else
        var g := s.made;
        State(s.table[key := g], s.heap[g := NEW_GATE.(refs := 1)], g + 1, s.ops[op := Op(key, g, Waiting)], s.blocked)
    case Take(op) =>
      var g := s.ops[op].gate;
      s.(heap := s.heap[g := s.heap[g].(token := false)], ops := s.ops[op := s.ops[op].(claim := Holding)])
    case GiveUp(op) => s.(ops := s.ops[op := s.ops[op].(claim := Abandoning)])
    case Abandon(op) => DropRef(s, s.ops[op].key, s.ops[op].gate).(ops := s.ops - {op})
    case Release(op) =>
      var o := s.ops[op];
      ReturnToken(DropRef(s, o.key, o.gate), o.key, o.gate).(ops := s.ops - {op})
  }

  // ---- what every step keeps ----

  ghost function Users(ops: map<nat, Op>, g: nat): set<nat> {
    set o | o in ops && ops[o].gate == g
  }

  ghost predicate Holds(ops: map<nat, Op>, o: nat, g: nat) {
    o in ops && ops[o].gate == g && ops[o].claim.Holding?
  }

  /** A tabled gate counts its operations, and its token is out exactly while one of them holds it. */
  ghost predicate GateAgrees(s: State, g: nat) {
    && g in s.heap && g < s.made
    && s.heap[g].refs == |Users(s.ops, g)| && Users(s.ops, g) != {}
    && (!s.heap[g].token <==> exists o :: Holds(s.ops, o, g))
  }

  ghost predicate Agreeing(s: State) {
    && (forall k | k in s.table :: GateAgrees(s, s.table[k]))
    && (forall k, l | k in s.table && l in s.table && k != l :: s.table[k] != s.table[l])
  }

  ghost predicate OpsTabled(s: State) {
    forall o | o in s.ops :: s.ops[o].key in s.table && s.table[s.ops[o].key] == s.ops[o].gate
  }

  ghost predicate OneHolder(s: State) {
    forall o, p, g :: Holds(s.ops, o, g) && Holds(s.ops, p, g) ==> o == p
  }

  ghost predicate Inv(s: State) {
    !s.blocked && Agreeing(s) && OpsTabled(s) && OneHolder(s)
  }

  lemma InitHolds()
    ensures Inv(Init())
  {
  }

  /** The gates of the other feeds are as they were: none of their operations changed, and nothing of theirs did. */
  lemma OtherGates(s: State, t: State, op: nat, key: string)
    requires Agreeing(s) && OpsTabled(s) && t.made >= s.made && forall k | k in s.table :: s.table[k] < s.made
    requires forall k | k in s.table && k != key :: s.table[k] in t.heap && t.heap[s.table[k]] == s.heap[s.table[k]]
    requires forall o | o != op :: (o in s.ops <==> o in t.ops) && (o in s.ops ==> t.ops[o] == s.ops[o])
    requires op in s.ops ==> s.ops[op].key == key
    requires op in t.ops ==> t.ops[op].gate == if key in s.table then s.table[key] else s.made
    ensures forall k | k in s.table && k != key :: GateAgrees(t, s.table[k])
  {
    hide GateAgrees;
    forall k | k in s.table && k != key
      ensures GateAgrees(t, s.table[k])
    {
      assert GateAgrees(s, s.table[k]);
      OtherGate(s, t, op, s.table[k]);
    }
  }

  lemma OtherGate(s: State, t: State, op: nat, g: nat)
    requires GateAgrees(s, g) && g in t.heap && t.heap[g] == s.heap[g] && t.made >= s.made
    requires forall o | o != op :: (o in s.ops <==> o in t.ops) && (o in s.ops ==> t.ops[o] == s.ops[o])
    requires (op in s.ops ==> s.ops[op].gate != g) && (op in t.ops ==> t.ops[op].gate != g)
    ensures GateAgrees(t, g)
  {
    assert Users(t.ops, g) == Users(s.ops, g);
    if o :| Holds(s.ops, o, g) {
      assert Holds(t.ops, o, g);
    }
    if o :| Holds(t.ops, o, g) {
      assert Holds(s.ops, o, g);
    }
  }

  /** Which operations hold a gate after one of them changed. */
  lemma HoldersChange(before: map<nat, Op>, after: map<nat, Op>, op: nat)
    requires forall o | o != op :: (o in before <==> o in after) && (o in before ==> after[o] == before[o])
    ensures forall o, g | o != op :: Holds(after, o, g) <==> Holds(before, o, g)
  {
  }

  lemma EnterJoins(s: State, t: State, op: nat, key: string)
    requires Inv(s) && Enabled(s, Enter(op, key)) && key in s.table && t == Next(s, Enter(op, key))
    ensures GateAgrees(t, t.table[key])
  {
    var g := t.table[key];
    assert GateAgrees(s, g);
    hide Inv;
    assert Users(t.ops, g) == Users(s.ops, g) + {op};
    HoldersChange(s.ops, t.ops, op);
    assert !Holds(t.ops, op, g);
  }

  lemma EnterMakes(s: State, t: State, op: nat, key: string)
    requires Inv(s) && Enabled(s, Enter(op, key)) && key !in s.table && t == Next(s, Enter(op, key))
    ensures GateAgrees(t, t.table[key])
  {
    hide OneHolder;
    var g := t.table[key];
    assert forall o | o in s.ops :: GateAgrees(s, s.ops[o].gate);
    assert Users(t.ops, g) == {op};
    assert forall o :: !Holds(t.ops, o, g);
  }

  lemma EnterKeeps(s: State, op: nat, key: string)
    requires Inv(s) && Enabled(s, Enter(op, key))
    ensures Inv(Next(s, Enter(op, key)))
  {
    hide GateAgrees;
    var t := Next(s, Enter(op, key));
    if key in s.table {
      EnterJoins(s, t, op, key);
      TabledInHeap(s, key);
    } else {
      EnterMakes(s, t, op, key);
    }
    TablesBelowMade(s);
    OtherGates(s, t, op, key);
    HoldersChange(s.ops, t.ops, op);
    assert forall g :: !Holds(t.ops, op, g);
  }

  lemma TabledInHeap(s: State, key: string)
    requires Inv(s) && key in s.table
    ensures s.table[key] in s.heap
  {
    assert GateAgrees(s, s.table[key]);
  }

  lemma TablesBelowMade(s: State)
    requires Inv(s)
    ensures forall k | k in s.table :: s.table[k] < s.made && s.table[k] in s.heap
  {
    hide OneHolder, OpsTabled, Users, Holds;
  }

  lemma TakeAgrees(s: State, t: State, op: nat)
    requires Inv(s) && Enabled(s, Take(op)) && t == Next(s, Take(op))
    ensures GateAgrees(t, s.ops[op].gate)
  {
    var g := s.ops[op].gate;
    assert GateAgrees(s, g);
    assert Users(t.ops, g) == Users(s.ops, g);
    assert Holds(t.ops, op, g);
  }

  lemma TakeKeeps(s: State, op: nat)
    requires Inv(s) && Enabled(s, Take(op))
    ensures Inv(Next(s, Take(op)))
  {
    var t, g := Next(s, Take(op)), s.ops[op].gate;
    assert GateAgrees(s, g);
    hide GateAgrees;
    TakeAgrees(s, t, op);
    TablesBelowMade(s);
    OtherGates(s, t, op, s.ops[op].key);
    HoldersChange(s.ops, t.ops, op);
    assert forall o :: !Holds(s.ops, o, g) by { FreeGate(s, g); }
    assert forall h :: Holds(t.ops, op, h) ==> h == g;
  }

  lemma FreeGate(s: State, g: nat)
    requires GateAgrees(s, g) && s.heap[g].token
    ensures forall o :: !Holds(s.ops, o, g)
  {
  }

  lemma GiveUpAgrees(s: State, t: State, op: nat)
    requires Inv(s) && Enabled(s, GiveUp(op)) && t == Next(s, GiveUp(op))
    ensures GateAgrees(t, s.ops[op].gate)
  {
    var g := s.ops[op].gate;
    assert GateAgrees(s, g);
    assert Users(t.ops, g) == Users(s.ops, g);
    HoldersChange(s.ops, t.ops, op);
    assert !Holds(t.ops, op, g) && !Holds(s.ops, op, g);
  }

  lemma GiveUpKeeps(s: State, op: nat)
    requires Inv(s) && Enabled(s, GiveUp(op))
    ensures Inv(Next(s, GiveUp(op)))
  {
    hide GateAgrees;
    var t := Next(s, GiveUp(op));
    GiveUpAgrees(s, t, op);
    TablesBelowMade(s);
    OtherGates(s, t, op, s.ops[op].key);
    HoldersChange(s.ops, t.ops, op);
    assert forall h :: !Holds(t.ops, op, h);
  }

  // Abandoning and releasing: an operation leaves its gate.

  lemma Leaver(s: State, op: nat)
    requires Inv(s) && op in s.ops
    ensures var g := s.ops[op].gate;
            && GateAgrees(s, g) && g in s.heap
            && Users(s.ops - {op}, g) == Users(s.ops, g) - {op}
            && s.heap[g].refs == |Users(s.ops - {op}, g)| + 1
  {
    var g := s.ops[op].gate;
    assert GateAgrees(s, g) && op in Users(s.ops, g);
    assert Users(s.ops - {op}, g) == Users(s.ops, g) - {op};
  }

  lemma AbandonAgrees(s: State, t: State, op: nat)
    requires Inv(s) && Enabled(s, Abandon(op)) && t == Next(s, Abandon(op))
    ensures s.ops[op].key in t.table ==> GateAgrees(t, s.ops[op].gate)
    ensures s.ops[op].key in t.table <==> Users(t.ops, s.ops[op].gate) != {}
  {
    var g := s.ops[op].gate;
    Leaver(s, op);
    hide Agreeing, OneHolder;
    HoldersChange(s.ops, t.ops, op);
    assert !Holds(s.ops, op, g) && !Holds(t.ops, op, g);
  }

  lemma AbandonKeeps(s: State, op: nat)
    requires Inv(s) && Enabled(s, Abandon(op))
    ensures Inv(Next(s, Abandon(op)))
  {
    hide GateAgrees, Users;
    var t := Next(s, Abandon(op));
    AbandonAgrees(s, t, op);
    TablesBelowMade(s);
    OtherGates(s, t, op, s.ops[op].key);
    HoldersChange(s.ops, t.ops, op);
    assert forall h :: !Holds(t.ops, op, h);
    StillTabled(s, t, op);
  }

  /** Once an operation has left, the others' gates are still in the table. */
  lemma StillTabled(s: State, t: State, op: nat)
    requires OpsTabled(s) && op in s.ops && t.ops == s.ops - {op}
    requires t.table == s.table || t.table == s.table - {s.ops[op].key}
    requires s.ops[op].key in t.table <==> Users(t.ops, s.ops[op].gate) != {}
    ensures OpsTabled(t)
  {
    forall o | o in t.ops
      ensures t.ops[o].key in t.table && t.table[t.ops[o].key] == t.ops[o].gate
    {
      if t.ops[o].key == s.ops[op].key {
        assert o in Users(t.ops, s.ops[op].gate);
      }
    }
  }

  lemma ReleaseAgrees(s: State, t: State, op: nat)
    requires Inv(s) && Enabled(s, Release(op)) && t == Next(s, Release(op))
    ensures s.ops[op].key in t.table ==> GateAgrees(t, s.ops[op].gate)
    ensures s.ops[op].key in t.table <==> Users(t.ops, s.ops[op].gate) != {}
    ensures !t.blocked
  {
    var g := s.ops[op].gate;
    Leaver(s, op);
    assert Holds(s.ops, op, g);
    hide Agreeing;
    HoldersChange(s.ops, t.ops, op);
    assert forall o :: !Holds(t.ops, o, g);
  }

  lemma ReleaseKeeps(s: State, op: nat)
    requires Inv(s) && Enabled(s, Release(op))
    ensures Inv(Next(s, Release(op)))
  {
    hide GateAgrees, Users;
    var t := Next(s, Release(op));
    ReleaseAgrees(s, t, op);
    TablesBelowMade(s);
    OtherGates(s, t, op, s.ops[op].key);
    HoldersChange(s.ops, t.ops, op);
    assert forall h :: !Holds(t.ops, op, h);
    StillTabled(s, t, op);
  }

  lemma NextKeeps(s: State, step: Step)
    requires Inv(s) && Enabled(s, step)
    ensures Inv(Next(s, step))
  {
    hide Inv, Next;
    match step
    case Enter(op, key) => EnterKeeps(s, op, key);
    case Take(op) => TakeKeeps(s, op);
    case GiveUp(op) => GiveUpKeeps(s, op);
    case Abandon(op) => AbandonKeeps(s, op);
    case Release(op) => ReleaseKeeps(s, op);
  }

  // ---- runs ----

  ghost predicate ValidRun(s: State, steps: seq<Step>)
    decreases |steps|
  {
    steps == [] || (Enabled(s, steps[0]) && ValidRun(Next(s, steps[0]), steps[1..]))
  }

  ghost function Run(s: State, steps: seq<Step>): State
    requires ValidRun(s, steps)
    decreases |steps|
  {
    if steps == [] then s else Run(Next(s, steps[0]), steps[1..])
  }

  lemma {:induction false} RunKeeps(s: State, steps: seq<Step>)
    requires Inv(s) && ValidRun(s, steps)
    ensures Inv(Run(s, steps))
    decreases |steps|
  {
    hide Inv, Next;
    if steps != [] {
      NextKeeps(s, steps[0]);
      RunKeeps(Next(s, steps[0]), steps[1..]);
    }
  }

  ghost predicate HoldsFeed(s: State, o: nat, key: string) {
    o in s.ops && s.ops[o].key == key && s.ops[o].claim.Holding?
  }

  ghost function UsersOfFeed(s: State, key: string): set<nat> {
    set o | o in s.ops && s.ops[o].key == key
  }

  /** In every run: one operation at most holds a feed's gate; a gate is in the table exactly while operations refer to it, and
      counts them; its token is present exactly while nobody holds it; and no token was ever sent on a full channel. */
  lemma GatesAgree(steps: seq<Step>, key: string)
    requires ValidRun(Init(), steps)
    ensures var s := Run(Init(), steps);
            && !s.blocked
            && (forall o, p | HoldsFeed(s, o, key) && HoldsFeed(s, p, key) :: o == p)
            && (key in s.table <==> UsersOfFeed(s, key) != {})
            && (key in s.table ==>
              && s.table[key] in s.heap
              && s.heap[s.table[key]].refs == |UsersOfFeed(s, key)|
              && (s.heap[s.table[key]].token <==> forall o :: !HoldsFeed(s, o, key)))
  {
    InitHolds();
    RunKeeps(Init(), steps);
    var s := Run(Init(), steps);
    FeedIsGate(s, key);
  }

  lemma FeedIsGate(s: State, key: string)
    requires Inv(s)
    ensures key in s.table ==> UsersOfFeed(s, key) == Users(s.ops, s.table[key])
    ensures key in s.table ==> forall o :: HoldsFeed(s, o, key) <==> Holds(s.ops, o, s.table[key])
    ensures key !in s.table ==> UsersOfFeed(s, key) == {} && forall o :: !HoldsFeed(s, o, key)
  {
  }

  /** No wake-up is lost: while operations wait for a gate that nobody holds, each of them can take it. */
  lemma WaiterCanTake(s: State, op: nat)
    requires Inv(s) && op in s.ops && s.ops[op].claim.Waiting?
    ensures Enabled(s, Take(op)) || exists o :: HoldsFeed(s, o, s.ops[op].key)
  {
    FeedIsGate(s, s.ops[op].key);
    assert GateAgrees(s, s.table[s.ops[op].key]);
  }

  /** Nothing is left behind: without operations there are no gates. */
  lemma QuietTableEmpty(s: State)
    requires Inv(s) && s.ops == map[]
    ensures s.table == map[]
  {
    assert forall g :: Users(s.ops, g) == {};
  }

  // ---- the table as the object the client updates ----

  class SubscriptionWireGate {
    var token: bool
    var refs: int

    constructor ()
      ensures View() == NEW_GATE
    {
      token, refs := true, 0;
    }

    ghost function View(): Gate
      reads this
    {
      Gate(token, refs)
    }
  }

  class WireGateTable {
    var gates: map<string, SubscriptionWireGate>

    constructor ()
      ensures gates == map[]
    {
      gates := map[];
    }

    /** Finds or makes the feed's gate and refers to it. */
    method Enter(key: string) returns (gate: SubscriptionWireGate)
      modifies this, gates.Values
      ensures gates == old(gates)[key := gate]
      ensures key in old(gates) ==> gate == old(gates[key]) && gate.View() == old(gates[key].View()).(refs := old(gates[key].refs) + 1)
      ensures key !in old(gates) ==> fresh(gate) && gate.View() == NEW_GATE.(refs := 1)
      ensures forall k | k in old(gates) && old(gates[k]) != gate :: unchanged(old(gates[k]))
    {
      if key in gates {
        gate := gates[key];
        assert gate in gates.Values;
      } else {
        gate := new SubscriptionWireGate();
      }
      gates := gates[key := gate];
      gate.refs := gate.refs + 1;
    }

    /** Gives the gate back: the last reference removes it, any other returns the token. A gate that is no longer the feed's is
        left alone. The token channel must have room, which `GatesAgree` shows it has. */
    method Release(key: string, expected: SubscriptionWireGate)
      requires key in gates && gates[key] == expected && expected.refs != 1 ==> !expected.token
      modifies this, expected
      ensures !old(key in gates && gates[key] == expected) ==> gates == old(gates) && expected.View() == old(expected.View())
      ensures old(key in gates && gates[key] == expected) ==>
                && expected.refs == old(expected.refs) - 1
                && gates == (if expected.refs == 0 then old(gates) - {key} else old(gates))
                && expected.token == (expected.refs != 0 || old(expected.token))
    {
      if key !in gates || gates[key] != expected {
        return;
      }
      expected.refs := expected.refs - 1;
      if expected.refs == 0 {
        gates := gates - {key};
      } else {
        expected.token := true;
      }
    }

    /** A waiter gives up: its reference goes, the token stays where it is. */
    method Abandon(key: string, expected: SubscriptionWireGate)
      modifies this, expected
      ensures !old(key in gates && gates[key] == expected) ==> gates == old(gates) && expected.View() == old(expected.View())
      ensures old(key in gates && gates[key] == expected) ==>
                && expected.View() == old(expected.View()).(refs := old(expected.refs) - 1)
                && gates == (if expected.refs == 0 then old(gates) - {key} else old(gates))
    {
      if key in gates && gates[key] == expected {
        expected.refs := expected.refs - 1;
        if expected.refs == 0 {
          gates := gates - {key};
        }
      }
    }
  }
}
