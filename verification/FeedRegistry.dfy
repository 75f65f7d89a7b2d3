/** The subscription tables and the set of active feeds, which have to agree although a subscription is published before the
    exchange has acknowledged it and is taken back if it refuses. Each section under the subscription mutex is one step. An
    operation holds its feed's gate from publishing to the end of its request, so steps on one feed do not interleave with
    that wait; steps on other feeds do. Feeds are named by structure; `FeedKeys` ties these names to the text keys. */
module FeedRegistry {
  import opened Wrappers
  import opened FeedKeys

  /** A subscription call: for a symbol, or for a named feed. */
  datatype Request =
    | ForSymbol(kind: Kind, symbol: string, levels: nat, fast: bool)
    | ForNamed(kind: Kind, session: bool, fast: bool)

  /** An entry of the subscription tables. */
  datatype Slot = SymbolSlot(kind: Kind, symbol: string) | NamedSlot(kind: Kind, session: bool, fast: bool)

  type Tables = map<Slot, seq<nat>>

  function IDOf(r: Request): FeedID {
    match r
    case ForSymbol(kind, symbol, levels, fast) =>
      if kind.ContractStatus? then AllContracts else OfSymbol(kind, symbol, levels, fast)
    case ForNamed(kind, session, fast) => Named(kind, session, fast)
  }

  function SlotOf(r: Request): Slot {
    match r
    case ForSymbol(kind, symbol, _, _) => SymbolSlot(kind, symbol)
    case ForNamed(kind, session, fast) => NamedSlot(kind, session, fast)
  }

  predicate ValidRequest(r: Request) {
    ValidID(IDOf(r)) && (r.ForSymbol? ==> r.symbol != "")
  }

  /** The feed fills the slot. */
  predicate Serves(id: FeedID, slot: Slot) {
    match slot
    case SymbolSlot(kind, symbol) =>
      if kind.ContractStatus? then id.AllContracts? else id.OfSymbol? && id.kind == kind && id.symbol == symbol
    case NamedSlot(kind, session, fast) => id == Named(kind, session, fast)
  }

  predicate IsScoped(r: Request) {
    r.kind.RFQPrivate?
  }

  /** The feed text of each subscription call. */
  lemma RequestKeys(r: Request)
    requires ValidRequest(r)
    ensures r.ForSymbol? ==>
              var cadence := if r.fast then "@100ms" else "";
              Key(IDOf(r)) ==
              match r.kind
              case Depth => "depth:" + (r.symbol + ("@depth" + cadence))
              case PartialDepth =>
                "partialDepth:" + (r.symbol + ((if r.levels == 5 then "@depth5" else if r.levels == 10 then "@depth10" else "@depth20") + cadence))
              case Trade => "trade:" + (r.symbol + "@trade")
              case BookTicker => "bookTicker:" + (r.symbol + "@bookTicker")
              case _ => "contractStatus"
    ensures r.ForNamed? ==>
              Key(IDOf(r)) ==
              match r.kind
              case Orders => if r.session then "orders@session" else "orders@account"
              case Balances => if r.fast then "balances@account@1s" else "balances@account"
              case Positions => if r.fast then "positions@account@1s" else "positions@account"
              case Settlements => "settlements@account"
              case RFQPublic => "requestForQuote"
              case _ => if r.session then "requestForQuote@session" else "requestForQuote@account"
  {
    hide Key, IDOf, ValidRequest;
    match r
    case ForSymbol(kind, symbol, levels, fast) => SymbolKeyText(kind, symbol, levels, fast);
    case ForNamed(kind, session, fast) => NamedKeyText(kind, session, fast);
  }

  lemma NamedKeyText(kind: Kind, session: bool, fast: bool)
    requires ValidRequest(ForNamed(kind, session, fast))
    ensures Key(IDOf(ForNamed(kind, session, fast))) ==
            match kind
            case Orders => if session then "orders@session" else "orders@account"
            case Balances => if fast then "balances@account@1s" else "balances@account"
            case Positions => if fast then "positions@account@1s" else "positions@account"
            case Settlements => "settlements@account"
            case RFQPublic => "requestForQuote"
            case _ => if session then "requestForQuote@session" else "requestForQuote@account"
  {
    hide Base, Tail;
    match kind
    case Orders => ScopedText(kind, session);
    case RFQPrivate => ScopedText(kind, session);
    case RFQPublic => PublicText();
    case _ => AccountText(kind, fast);
  }

  lemma PublicText()
    ensures Base(RFQPublic) + Tail(RFQPublic, false, false) == "requestForQuote"
  {
  }

  lemma ScopedText(kind: Kind, session: bool)
    requires kind.Orders? || kind.RFQPrivate?
    ensures Base(kind) + Tail(kind, session, false) ==
            if kind.Orders? then (if session then "orders@session" else "orders@account")
            else (if session then "requestForQuote@session" else "requestForQuote@account")
  {
  }

  lemma AccountText(kind: Kind, fast: bool)
    requires kind.Balances? || kind.Positions? || kind.Settlements?
    ensures Base(kind) + Tail(kind, false, fast) ==
            if kind.Balances? then (if fast then "balances@account@1s" else "balances@account")
            else if kind.Positions? then (if fast then "positions@account@1s" else "positions@account")
            else (if fast then "settlements@account@1s" else "settlements@account")
  {
  }

  lemma SymbolKeyText(kind: Kind, symbol: string, levels: nat, fast: bool)
    requires ValidRequest(ForSymbol(kind, symbol, levels, fast))
    ensures var cadence := if fast then "@100ms" else "";
            Key(IDOf(ForSymbol(kind, symbol, levels, fast))) ==
            match kind
            case Depth => "depth:" + (symbol + ("@depth" + cadence))
            case PartialDepth =>
              "partialDepth:" + (symbol + ((if levels == 5 then "@depth5" else if levels == 10 then "@depth10" else "@depth20") + cadence))
            case Trade => "trade:" + (symbol + "@trade")
            case BookTicker => "bookTicker:" + (symbol + "@bookTicker")
            case _ => "contractStatus"
  {
    if !kind.ContractStatus? {
      hide Suffix, Prefix;
      SuffixText(kind, levels, fast);
      PrefixText(kind);
      var rest := symbol + ("@" + Suffix(kind, levels, fast));
      assert Prefix(kind) + (":" + rest) == (Prefix(kind) + ":") + rest;
    }
  }

  lemma PrefixText(kind: Kind)
    requires PerSymbol(kind)
    ensures Prefix(kind) + ":" ==
            if kind.Depth? then "depth:" else if kind.PartialDepth? then "partialDepth:" else if kind.Trade? then "trade:" else "bookTicker:"
  {
  }

  lemma SuffixText(kind: Kind, levels: nat, fast: bool)
    requires PerSymbol(kind)
    ensures var cadence := if fast then "@100ms" else "";
            "@" + Suffix(kind, levels, fast) ==
            match kind
            case Depth => "@depth" + cadence
            case PartialDepth => (if levels == 5 then "@depth5" else if levels == 10 then "@depth10" else "@depth20") + cadence
            case Trade => "@trade"
            case _ => "@bookTicker"
  {
    match kind
    case Depth => Shift("depth", if fast then "@100ms" else "");
    case PartialDepth =>
      Shift(if levels == 5 then "depth5" else if levels == 10 then "depth10" else "depth20", if fast then "@100ms" else "");
    case _ =>
  }

  lemma Shift(a: string, b: string)
    ensures "@" + (a + b) == ("@" + a) + b
  {
  }

  // ---- the state ----

  /** An operation in the middle: it has checked the RFQ scope and holds the scope mutex, or it has published subscription
      `sub` and waits for the exchange with its feed's gate. */
  datatype Waiting = ScopeChecked(r: Request) | AwaitAck(r: Request, sub: nat)

  datatype State = State(
    tables: Tables,
    active: set<FeedID>,
    made: nat,
    closed: set<nat>,
    waiting: map<nat, Waiting>,
    scopeHolder: Option<nat>)

  datatype Step =
    | CheckScope(op: nat, r: Request) | LeaveScope(op: nat)
    | Publish(op: nat, r: Request) | Ack(op: nat) | Nack(op: nat)
    | Unsubscribe(r: Request) | UnsubscribeChannel(r: Request, sub: nat)
    | ClearAll

  function Init(): State {
    State(map[], {}, 0, {}, map[], None)
  }

  function SubsOf(tables: Tables, slot: Slot): seq<nat> {
    if slot in tables then tables[slot] else []
  }

  predicate GateFree(s: State, id: FeedID) {
    forall op | op in s.waiting :: s.waiting[op].AwaitAck? ==> IDOf(s.waiting[op].r) != id
  }

  predicate Enabled(s: State, step: Step) {
    match step
    case CheckScope(op, r) => op !in s.waiting && s.scopeHolder.None? && ValidRequest(r) && IsScoped(r)
    case LeaveScope(op) => op in s.waiting && s.waiting[op].ScopeChecked?
    case Publish(op, r) =>
      && ValidRequest(r) && GateFree(s, IDOf(r))
      && (if IsScoped(r) then op in s.waiting && s.waiting[op] == ScopeChecked(r) else op !in s.waiting)
    case Ack(op) => op in s.waiting && s.waiting[op].AwaitAck?
    case Nack(op) => op in s.waiting && s.waiting[op].AwaitAck?
    case Unsubscribe(r) => ValidRequest(r) && GateFree(s, IDOf(r)) && (IsScoped(r) ==> s.scopeHolder.None?)
    case UnsubscribeChannel(r, _) => ValidRequest(r) && r.ForNamed? && GateFree(s, IDOf(r)) && (IsScoped(r) ==> s.scopeHolder.None?)
    case ClearAll => true
  }

  // ---- the sections ----

  /** Another variant of the feed's family is active. */
  predicate Conflicts(active: set<FeedID>, id: FeedID) {
    FamilyOf(id) != "" && exists a | a in active :: a != id && FamilyOf(a) == FamilyOf(id)
  }

  /** The other RFQ scope has subscriptions. */
  predicate ScopeTaken(tables: Tables, slot: Slot) {
    exists other | other in tables :: other.kind.RFQPrivate? && other != slot && tables[other] != []
  }

  /** An operation ends, and with it its hold of the scope mutex. */
  function EndOp(s: State, op: nat): State {
    s.(waiting := s.waiting - {op}, scopeHolder := if s.scopeHolder == Some(op) then None else s.scopeHolder)
  }

  predicate NeedsWire(s: State, r: Request) {
    if r.ForSymbol? then IDOf(r) !in s.active else SubsOf(s.tables, SlotOf(r)) == []
  }

  /** The tables with a new subscription in the request's slot. */
  function Filled(s: State, r: Request): Tables {
    s.tables[SlotOf(r) := SubsOf(s.tables, SlotOf(r)) + [s.made]]
  }

  function Published(s: State, op: nat, r: Request): State {
    var t := s.(tables := Filled(s, r), made := s.made + 1);
    if NeedsWire(s, r)
    then t.(active := s.active + {IDOf(r)}, waiting := s.waiting[op := AwaitAck(r, s.made)])
    else EndOp(t, op)
  }

  function Remove(subs: seq<nat>, sub: nat): seq<nat> {
    if subs == [] then []
    else if subs[0] == sub then Remove(subs[1..], sub)
    else [subs[0]] + Remove(subs[1..], sub)
  }

  /** `removePublicSubscription` and `removePrivateSubscription`. */
  function TakenBack(s: State, r: Request, sub: nat): State {
    var slot := SlotOf(r);
    var t := s.(closed := s.closed + {sub});
    if sub !in SubsOf(s.tables, slot) then t
    else
      var remaining := Remove(SubsOf(s.tables, slot), sub);
      if remaining == [] then t.(tables := s.tables - {slot}, active := s.active - {IDOf(r)})
      else t.(tables := s.tables[slot := remaining])
  }

  lemma {:induction false} RemoveNone(subs: seq<nat>, sub: nat)
    ensures sub !in Remove(subs, sub) && (sub !in subs ==> Remove(subs, sub) == subs)
  {
    if subs != [] {
      RemoveNone(subs[1..], sub);
    }
  }

  /** Of a list without repetitions, exactly the one occurrence is taken out. */
  lemma {:induction false} RemoveOne(subs: seq<nat>, sub: nat, i: nat)
    requires i < |subs| && subs[i] == sub && forall j | 0 <= j < |subs| && j != i :: subs[j] != sub
    ensures Remove(subs, sub) == subs[..i] + subs[i + 1..]
  {
    var rest := subs[1..];
    if i == 0 {
      RemoveNone(rest, sub);
    } else {
      RemoveOne(rest, sub, i - 1);
      assert subs[..i] == [subs[0]] + rest[..i - 1];
    }
  }

  predicate ContractsLeft(tables: Tables) {
    exists slot | slot in tables :: slot.SymbolSlot? && slot.kind.ContractStatus?
  }

  function Elements(subs: seq<nat>): set<nat> {
    set x | x in subs
  }

  /** `unsubscribePublicFeed` and `unsubscribePrivateFeed`. */
  function Unsubscribed(s: State, r: Request): State {
    var slot, id := SlotOf(r), IDOf(r);
    if r.ForSymbol? then
      if Conflicts(s.active, id) then s
      else if slot !in s.tables then s
      else
        var tables := s.tables - {slot};
        s.(tables := tables, closed := s.closed + Elements(s.tables[slot]),
           active := if r.kind.ContractStatus? && ContractsLeft(tables) then s.active else s.active - {id})
    else if SubsOf(s.tables, slot) == [] then s.(active := s.active - {id})
    else s.(tables := s.tables - {slot}, active := s.active - {id}, closed := s.closed + Elements(s.tables[slot]))
  }

  /** `unsubscribePrivateFeedChannel`. */
  function UnsubscribedChannel(s: State, r: Request, sub: nat): State {
    if sub in SubsOf(s.tables, SlotOf(r)) then TakenBack(s, r, sub) else s
  }

  function Listed(tables: Tables): set<nat> {
    set slot, x | slot in tables && x in tables[slot] :: x
  }

  function Next(s: State, step: Step): State
    requires Enabled(s, step)
  {
    match step
    case CheckScope(op, r) =>
      if ScopeTaken(s.tables, SlotOf(r)) then s
      else s.(waiting := s.waiting[op := ScopeChecked(r)], scopeHolder := Some(op))
    case LeaveScope(op) => EndOp(s, op)
    case Publish(op, r) => if Conflicts(s.active, IDOf(r)) then EndOp(s, op) else Published(s, op, r)
    case Ack(op) => EndOp(s, op)
    case Nack(op) => EndOp(TakenBack(s, s.waiting[op].r, s.waiting[op].sub), op)
    case Unsubscribe(r) => Unsubscribed(s, r)
    case UnsubscribeChannel(r, sub) => UnsubscribedChannel(s, r, sub)
    case ClearAll => s.(tables := map[], active := {}, closed := s.closed + Listed(s.tables))
  }

  // ---- what every step keeps ----

  /** The feed takes part in its family: a depth feed does unless its symbol begins with `@`. */
  predicate InFamily(id: FeedID) {
    id.OfSymbol? && (id.kind.Depth? || id.kind.PartialDepth?) ==> FamilyOf(id) != ""
  }

  ghost predicate SlotServed(active: set<FeedID>, slot: Slot) {
    exists id :: id in active && Serves(id, slot)
  }

  ghost predicate FeedListed(tables: Tables, id: FeedID) {
    exists slot :: slot in tables && Serves(id, slot)
  }

  /** Tables and active feeds agree. */
  ghost predicate Agree(tables: Tables, active: set<FeedID>) {
    && (forall slot | slot in tables :: tables[slot] != [] && SlotServed(active, slot))
    && (forall id | id in active :: FeedListed(tables, id))
  }

  ghost predicate ActiveValid(active: set<FeedID>) {
    forall id | id in active :: ValidID(id) && InFamily(id)
  }

  ghost predicate OneVariant(active: set<FeedID>) {
    forall a, b | a in active && b in active && a != b :: FamilyOf(a) == "" || FamilyOf(a) != FamilyOf(b)
  }

  ghost predicate Distinct(subs: seq<nat>) {
    forall i, j | 0 <= i < j < |subs| :: subs[i] != subs[j]
  }

  ghost predicate OpenSubs(subs: seq<nat>, made: nat, closed: set<nat>) {
    forall x | x in subs :: x < made && x !in closed
  }

  ghost predicate SubsOpen(tables: Tables, made: nat, closed: set<nat>) {
    && (forall slot | slot in tables :: Distinct(tables[slot]) && OpenSubs(tables[slot], made, closed))
    && (forall x | x in closed :: x < made)
    && (forall a, b, x | a in tables && b in tables && x in tables[a] && x in tables[b] :: a == b)
  }

  ghost predicate OneScope(tables: Tables) {
    forall a, b | a in tables && b in tables && a.kind.RFQPrivate? && b.kind.RFQPrivate? :: a == b
  }

  /** What an operation that waits for the exchange relies on: while its subscription is listed, it is the only one of its
      feed. */
  ghost predicate WaitAgrees(tables: Tables, active: set<FeedID>, made: nat, w: Waiting) {
    ValidRequest(w.r) &&
    match w
    case ScopeChecked(r) => IsScoped(r) && forall slot | slot in tables && slot.kind.RFQPrivate? :: slot == SlotOf(r)
    case AwaitAck(r, sub) =>
      && sub < made
      && (forall slot | slot in tables && sub in tables[slot] :: slot == SlotOf(r))
      && (sub in SubsOf(tables, SlotOf(r)) ==>
        && tables[SlotOf(r)] == [sub] && IDOf(r) in active
        && forall slot | slot in tables && Serves(IDOf(r), slot) :: slot == SlotOf(r))
  }

  ghost predicate Waits(s: State, w: Waiting) {
    WaitAgrees(s.tables, s.active, s.made, w)
  }

  ghost predicate WaitersAgree(s: State) {
    && (forall op | op in s.waiting :: Waits(s, s.waiting[op]))
    && (forall op | op in s.waiting && s.waiting[op].ScopeChecked? :: s.scopeHolder == Some(op))
    && (forall o, p | o in s.waiting && p in s.waiting && s.waiting[o].AwaitAck? && s.waiting[p].AwaitAck? && o != p ::
          IDOf(s.waiting[o].r) != IDOf(s.waiting[p].r))
  }

  ghost predicate Inv(s: State) {
    && Agree(s.tables, s.active) && ActiveValid(s.active) && OneVariant(s.active)
    && SubsOpen(s.tables, s.made, s.closed) && OneScope(s.tables)
    && WaitersAgree(s)
  }

  lemma InitHolds()
    ensures Inv(Init())
  {
  }

  /** The step's request takes part in its family. */
  predicate InFamilies(step: Step) {
    match step
    case Publish(_, r) => InFamily(IDOf(r))
    case Unsubscribe(r) => InFamily(IDOf(r))
    case _ => true
  }

  lemma OwnSlot(r: Request)
    requires ValidRequest(r)
    ensures Serves(IDOf(r), SlotOf(r))
  {
  }

  /** A slot has one server: all feeds that could fill it are of one family. */
  lemma ServerUnique(active: set<FeedID>, slot: Slot, a: FeedID, b: FeedID)
    requires ActiveValid(active) && OneVariant(active) && a in active && b in active && Serves(a, slot) && Serves(b, slot)
    ensures a == b
  {
    hide Head;
  }

  /** A feed other than the contract one fills one slot only. */
  lemma SlotUnique(id: FeedID, a: Slot, b: Slot)
    requires Serves(id, a) && Serves(id, b) && !id.AllContracts?
    ensures a == b
  {
  }

  /** Without a conflict, the slot is served by the request's own feed or by none. */
  lemma OwnServer(active: set<FeedID>, r: Request, id: FeedID)
    requires ActiveValid(active) && ValidRequest(r) && InFamily(IDOf(r)) && !Conflicts(active, IDOf(r))
    requires id in active && Serves(id, SlotOf(r))
    ensures id == IDOf(r)
  {
    hide Head;
    if id != IDOf(r) {
      SameFamily(id, IDOf(r));
    }
  }

  lemma SameFamily(a: FeedID, b: FeedID)
    requires ValidID(a) && ValidID(b) && a.OfSymbol? && b.OfSymbol? && a.kind == b.kind && a.symbol == b.symbol && a != b
    ensures FamilyOf(a) == FamilyOf(b) && (a.kind.Depth? || a.kind.PartialDepth?)
  {
  }

  // ---- an operation ends ----

  lemma EndOpKeeps(s: State, op: nat)
    requires Inv(s)
    ensures Inv(EndOp(s, op))
  {
    hide Agree, ActiveValid, OneVariant, SubsOpen, OneScope, WaitAgrees, IDOf;
  }

  // ---- publishing ----

  /** A feed needs a request on the wire exactly when it is not active, and then no slot is its. */
  lemma WireNeeded(s: State, r: Request)
    requires Inv(s) && ValidRequest(r) && InFamily(IDOf(r)) && !Conflicts(s.active, IDOf(r))
    ensures NeedsWire(s, r) <==> IDOf(r) !in s.active
    ensures NeedsWire(s, r) ==> SubsOf(s.tables, SlotOf(r)) == [] && forall slot | slot in s.tables :: !Serves(IDOf(r), slot)
  {
    var id, slot := IDOf(r), SlotOf(r);
    hide WaitersAgree, SubsOpen, OneScope, Conflicts;
    OwnSlot(r);
    if slot in s.tables {
      var server :| server in s.active && Serves(server, slot);
      OwnServer(s.active, r, server);
    }
    hide ActiveValid, OneVariant;
    if id in s.active {
      var a :| a in s.tables && Serves(id, a);
      if !id.AllContracts? {
        SlotUnique(id, a, slot);
      }
    } else {
      forall a | a in s.tables
        ensures !Serves(id, a)
      {
        if Serves(id, a) {
          assert SlotServed(s.active, a);
          if !id.AllContracts? {
            SlotUnique(id, a, slot);
          }
        }
      }
    }
  }

  lemma FillServed(tables: Tables, active: set<FeedID>, slot: Slot, id: FeedID, subs: seq<nat>)
    requires Agree(tables, active) && Serves(id, slot) && subs != []
    ensures forall a | a in tables[slot := subs] :: tables[slot := subs][a] != [] && SlotServed(active + {id}, a)
  {
    hide Serves;
    forall a | a in tables[slot := subs]
      ensures tables[slot := subs][a] != [] && SlotServed(active + {id}, a)
    {
      if a == slot {
        assert id in active + {id} && Serves(id, slot);
      } else {
        assert SlotServed(active, a);
        var server :| server in active && Serves(server, a);
        assert server in active + {id} && Serves(server, a);
      }
    }
  }

  lemma FillListed(tables: Tables, active: set<FeedID>, slot: Slot, id: FeedID, subs: seq<nat>)
    requires Agree(tables, active) && Serves(id, slot)
    ensures forall a | a in active + {id} :: FeedListed(tables[slot := subs], a)
  {
    hide Serves;
    forall a | a in active + {id}
      ensures FeedListed(tables[slot := subs], a)
    {
      if a == id {
        assert slot in tables[slot := subs] && Serves(id, slot);
      } else {
        assert FeedListed(tables, a);
        var b :| b in tables && Serves(a, b);
        assert b in tables[slot := subs] && Serves(a, b);
      }
    }
  }

  lemma JoinFamily(active: set<FeedID>, id: FeedID)
    requires ActiveValid(active) && OneVariant(active) && ValidID(id) && InFamily(id) && !Conflicts(active, id)
    ensures ActiveValid(active + {id}) && OneVariant(active + {id})
  {
    hide FamilyOf, ValidID;
  }

  lemma DistinctSnoc(subs: seq<nat>, x: nat)
    requires Distinct(subs) && x !in subs
    ensures Distinct(subs + [x])
  {
  }

  lemma FillOpens(tables: Tables, made: nat, closed: set<nat>, slot: Slot)
    requires SubsOpen(tables, made, closed)
    ensures SubsOpen(tables[slot := SubsOf(tables, slot) + [made]], made + 1, closed)
  {
    var subs := SubsOf(tables, slot);
    assert Distinct(subs) && OpenSubs(subs, made, closed);
    DistinctSnoc(subs, made);
    var after := tables[slot := subs + [made]];
    forall a, b, x | a in after && b in after && x in after[a] && x in after[b]
      ensures a == b
    {
      FillOwner(tables, made, closed, slot, a, x);
      FillOwner(tables, made, closed, slot, b, x);
    }
    hide Distinct;
  }

  /** A subscription of the filled tables is the new one, in its slot, or an old one where it was. */
  lemma FillOwner(tables: Tables, made: nat, closed: set<nat>, slot: Slot, a: Slot, x: nat)
    requires SubsOpen(tables, made, closed)
    requires var after := tables[slot := SubsOf(tables, slot) + [made]]; a in after && x in after[a]
    ensures if x == made then a == slot else x < made && a in tables && x in tables[a]
  {
    hide Distinct;
    if a in tables {
      assert OpenSubs(tables[a], made, closed);
    }
  }

  /** The operations waiting on other feeds notice nothing. */
  lemma PublishWait(s: State, r: Request, w: Waiting)
    requires Inv(s) && ValidRequest(r) && InFamily(IDOf(r)) && !Conflicts(s.active, IDOf(r))
    requires w.AwaitAck? && Waits(s, w) && IDOf(w.r) != IDOf(r)
    ensures WaitAgrees(Filled(s, r), s.active + {IDOf(r)}, s.made + 1, w)
  {
    hide WaitersAgree, SubsOpen, OneScope, Agree, Conflicts, ValidID;
    var mine, other := SlotOf(r), SlotOf(w.r);
    OwnSlot(r);
    OwnSlot(w.r);
    if w.sub in SubsOf(Filled(s, r), other) {
      if other == mine {
        assert w.sub in SubsOf(s.tables, other);
        OwnServer(s.active, r, IDOf(w.r));
      }
      hide ActiveValid, OneVariant;
      if Serves(IDOf(w.r), mine) {
        ServedByBoth(r, w.r);
      }
    }
  }

  /** Two requests that fill the same slot for different feeds are variants for one symbol. */
  lemma ServedByBoth(r: Request, other: Request)
    requires ValidRequest(r) && ValidRequest(other) && Serves(IDOf(other), SlotOf(r)) && IDOf(other) != IDOf(r)
    ensures SlotOf(other) == SlotOf(r)
  {
  }

  lemma PublishScope(s: State, op: nat, r: Request)
    requires Inv(s) && Enabled(s, Publish(op, r))
    ensures OneScope(Filled(s, r))
    ensures forall o | o in s.waiting && o != op && s.waiting[o].ScopeChecked? ::
              WaitAgrees(Filled(s, r), s.active + {IDOf(r)}, s.made + 1, s.waiting[o])
  {
    hide Agree, ActiveValid, OneVariant, SubsOpen, Serves, ValidID;
    assert SlotOf(r).kind == r.kind;
    if IsScoped(r) {
      assert Waits(s, s.waiting[op]);
    } else {
      forall o | o in s.waiting && s.waiting[o].ScopeChecked?
        ensures WaitAgrees(Filled(s, r), s.active + {IDOf(r)}, s.made + 1, s.waiting[o])
      {
        assert Waits(s, s.waiting[o]);
      }
    }
  }

  lemma PublishWaits(s: State, op: nat, r: Request)
    requires Inv(s) && Enabled(s, Publish(op, r)) && InFamily(IDOf(r)) && !Conflicts(s.active, IDOf(r))
    ensures forall o | o in s.waiting && o != op :: WaitAgrees(Filled(s, r), s.active + {IDOf(r)}, s.made + 1, s.waiting[o])
  {
    PublishScope(s, op, r);
    assert forall o | o in s.waiting :: Waits(s, s.waiting[o]);
    hide Inv, Filled, WaitAgrees, Waits, Conflicts, ValidRequest, IDOf, InFamily;
    forall o | o in s.waiting && o != op
      ensures WaitAgrees(Filled(s, r), s.active + {IDOf(r)}, s.made + 1, s.waiting[o])
    {
      if s.waiting[o].AwaitAck? {
        PublishWait(s, r, s.waiting[o]);
      }
    }
  }

  lemma PublisherWaits(s: State, r: Request)
    requires SubsOpen(s.tables, s.made, s.closed)
    requires ValidRequest(r) && SubsOf(s.tables, SlotOf(r)) == [] && (forall slot | slot in s.tables :: !Serves(IDOf(r), slot))
    ensures WaitAgrees(Filled(s, r), s.active + {IDOf(r)}, s.made + 1, AwaitAck(r, s.made))
  {
    forall slot | slot in Filled(s, r) && s.made in Filled(s, r)[slot]
      ensures slot == SlotOf(r)
    {
      if slot in s.tables {
        assert OpenSubs(s.tables[slot], s.made, s.closed);
      }
    }
    hide SubsOpen, OpenSubs;
  }

  lemma PublishTables(s: State, r: Request)
    requires Inv(s) && ValidRequest(r) && InFamily(IDOf(r)) && !Conflicts(s.active, IDOf(r))
    ensures Agree(Filled(s, r), s.active + {IDOf(r)}) && SubsOpen(Filled(s, r), s.made + 1, s.closed)
    ensures ActiveValid(s.active + {IDOf(r)}) && OneVariant(s.active + {IDOf(r)})
  {
    hide Serves, Conflicts, ActiveValid, OneVariant, SubsOpen, FeedListed, SlotServed, ValidID, WaitersAgree, OneScope, IDOf, SlotOf;
    hide FamilyOf, InFamily;
    OwnSlot(r);
    var subs := SubsOf(s.tables, SlotOf(r)) + [s.made];
    hide SubsOf;
    FillServed(s.tables, s.active, SlotOf(r), IDOf(r), subs);
    FillListed(s.tables, s.active, SlotOf(r), IDOf(r), subs);
    JoinFamily(s.active, IDOf(r));
    FillOpens(s.tables, s.made, s.closed, SlotOf(r));
  }

  lemma PublishedKeeps(s: State, op: nat, r: Request)
    requires Inv(s) && Enabled(s, Publish(op, r)) && InFamily(IDOf(r)) && !Conflicts(s.active, IDOf(r))
    ensures Inv(Published(s, op, r))
  {
    hide Agree, ActiveValid, OneVariant, SubsOpen, OneScope, Conflicts, SlotOf, SubsOf, WaitAgrees, NeedsWire, Filled;
    hide FamilyOf, InFamily;
    assert ValidRequest(r);
    hide ValidRequest;
    WireNeeded(s, r);
    PublishTables(s, r);
    PublishScope(s, op, r);
    PublishWaits(s, op, r);
    if NeedsWire(s, r) {
      PublisherWaits(s, r);
    } else {
      assert s.active + {IDOf(r)} == s.active;
    }
  }

  // ---- removing ----

  lemma EmptiedServed(tables: Tables, active: set<FeedID>, slot: Slot, id: FeedID)
    requires Agree(tables, active) && forall a | a in tables && Serves(id, a) :: a == slot
    ensures forall a | a in tables - {slot} :: SlotServed(active - {id}, a)
  {
    hide Serves, FeedListed;
    forall a | a in tables - {slot}
      ensures SlotServed(active - {id}, a)
    {
      assert SlotServed(active, a);
      var server :| server in active && Serves(server, a);
      assert server in active - {id};
    }
  }

  lemma EmptiedListed(tables: Tables, active: set<FeedID>, slot: Slot, id: FeedID)
    requires Agree(tables, active) && ActiveValid(active) && OneVariant(active) && id in active && Serves(id, slot)
    ensures forall a | a in active - {id} :: FeedListed(tables - {slot}, a)
  {
    hide ActiveValid, OneVariant, Serves, SlotServed;
    forall a | a in active - {id}
      ensures FeedListed(tables - {slot}, a)
    {
      assert FeedListed(tables, a);
      var b :| b in tables && Serves(a, b);
      if b == slot {
        ServerUnique(active, slot, a, id);
      }
      assert b in tables - {slot};
    }
  }

  lemma EmptiedAgrees(tables: Tables, active: set<FeedID>, slot: Slot, id: FeedID)
    requires Agree(tables, active) && ActiveValid(active) && OneVariant(active)
    requires slot in tables && id in active && Serves(id, slot)
    requires forall a | a in tables && Serves(id, a) :: a == slot
    ensures Agree(tables - {slot}, active - {id})
  {
    hide ActiveValid, OneVariant, Serves, SlotServed, FeedListed;
    EmptiedServed(tables, active, slot, id);
    EmptiedListed(tables, active, slot, id);
  }

  /** The shared contract feed stays while a contract symbol is listed. */
  lemma ContractsStay(tables: Tables, active: set<FeedID>, slot: Slot)
    requires Agree(tables, active) && slot in tables && slot.SymbolSlot? && slot.kind.ContractStatus?
    requires ContractsLeft(tables - {slot})
    ensures Agree(tables - {slot}, active)
  {
    hide SlotServed;
    forall a | a in active
      ensures FeedListed(tables - {slot}, a)
    {
      assert FeedListed(tables, a);
      var b :| b in tables && Serves(a, b);
      if b == slot {
        var c :| c in tables - {slot} && c.SymbolSlot? && c.kind.ContractStatus?;
        assert Serves(a, c);
      } else {
        assert b in tables - {slot};
      }
    }
  }

  lemma FewerActive(active: set<FeedID>, id: FeedID)
    requires ActiveValid(active) && OneVariant(active)
    ensures ActiveValid(active - {id}) && OneVariant(active - {id})
  {
  }

  lemma EmptiedOpens(tables: Tables, made: nat, closed: set<nat>, slot: Slot)
    requires SubsOpen(tables, made, closed) && slot in tables
    ensures SubsOpen(tables - {slot}, made, closed + Elements(tables[slot]))
  {
    hide Distinct;
    assert OpenSubs(tables[slot], made, closed);
    forall a | a in tables - {slot}
      ensures OpenSubs(tables[a], made, closed + Elements(tables[slot]))
    {
      assert OpenSubs(tables[a], made, closed);
    }
  }

  /** The operations waiting on other feeds notice nothing. */
  lemma EmptiedWait(s: State, slot: Slot, active: set<FeedID>, w: Waiting)
    requires slot in s.tables && active <= s.active && Waits(s, w)
    requires w.AwaitAck? && IDOf(w.r) in s.active ==> IDOf(w.r) in active
    ensures WaitAgrees(s.tables - {slot}, active, s.made, w)
  {
    hide ValidRequest, Serves, IDOf;
  }

  lemma EmptiedWaits(s: State, slot: Slot, active: set<FeedID>, id: FeedID)
    requires WaitersAgree(s) && slot in s.tables && GateFree(s, id)
    requires active == s.active || active == s.active - {id}
    ensures forall op | op in s.waiting :: WaitAgrees(s.tables - {slot}, active, s.made, s.waiting[op])
  {
    hide WaitAgrees, IDOf;
    forall op | op in s.waiting
      ensures WaitAgrees(s.tables - {slot}, active, s.made, s.waiting[op])
    {
      assert Waits(s, s.waiting[op]);
      EmptiedWait(s, slot, active, s.waiting[op]);
    }
  }

  /** A slot goes with everything in it, and its feed with it unless it is the shared one and others are left. */
  lemma EmptiedKeeps(s: State, t: State, slot: Slot, id: FeedID)
    requires Inv(s) && slot in s.tables && id in s.active && Serves(id, slot) && GateFree(s, id)
    requires t == s.(tables := s.tables - {slot}, active := t.active, closed := s.closed + Elements(s.tables[slot]))
    requires
      || (t.active == s.active - {id} && forall a | a in s.tables && Serves(id, a) :: a == slot)
      || (t.active == s.active && id.AllContracts? && ContractsLeft(t.tables))
    ensures Inv(t)
  {
    hide Agree, ActiveValid, OneVariant, SubsOpen, WaitAgrees, GateFree, IDOf, ContractsLeft, Elements;
    if t.active == s.active {
      assert ContractsLeft(t.tables) && id.AllContracts? by { StillThere(s, t, slot, id); }
      ContractsStay(s.tables, s.active, slot);
    } else {
      EmptiedAgrees(s.tables, s.active, slot, id);
      FewerActive(s.active, id);
    }
    hide Serves;
    EmptiedOpens(s.tables, s.made, s.closed, slot);
    EmptiedWaits(s, slot, t.active, id);
  }

  lemma StillThere(s: State, t: State, slot: Slot, id: FeedID)
    requires id in s.active && t.active == s.active
    requires t.active == s.active - {id} || (id.AllContracts? && ContractsLeft(t.tables))
    ensures id.AllContracts? && ContractsLeft(t.tables)
  {
    hide ContractsLeft;
  }

  lemma UnsubscribedKeeps(s: State, r: Request)
    requires Inv(s) && Enabled(s, Unsubscribe(r)) && InFamily(IDOf(r))
    ensures Inv(Unsubscribed(s, r))
  {
    var slot, id := SlotOf(r), IDOf(r);
    OwnSlot(r);
    if r.ForSymbol? {
      if !Conflicts(s.active, id) && slot in s.tables {
        SlotIsOwn(s, r);
        OnlySlot(s.tables, r);
        hide Inv, Serves, IDOf, SlotOf, Conflicts, FamilyOf;
        EmptiedKeeps(s, Unsubscribed(s, r), slot, id);
      }
    } else {
      NamedActive(s, r);
      NamedOnly(r);
      hide Inv, Serves, IDOf, SlotOf, FamilyOf;
      if slot in s.tables && s.tables[slot] != [] {
        EmptiedKeeps(s, Unsubscribed(s, r), slot, id);
      } else {
        assert s.active - {id} == s.active;
      }
    }
  }

  /** A filled slot without a conflict belongs to the request's feed, which is active. */
  lemma SlotIsOwn(s: State, r: Request)
    requires Inv(s) && ValidRequest(r) && InFamily(IDOf(r)) && !Conflicts(s.active, IDOf(r)) && SlotOf(r) in s.tables
    ensures IDOf(r) in s.active
  {
    hide WaitersAgree, SubsOpen, OneScope, Conflicts, FeedListed, ValidRequest, InFamily, OneVariant, Serves, FamilyOf, ValidID;
    assert SlotServed(s.active, SlotOf(r));
    var server :| server in s.active && Serves(server, SlotOf(r));
    OwnServer(s.active, r, server);
  }

  /** No other slot is the feed's, unless it is the contract feed and contracts are left. */
  lemma OnlySlot(tables: Tables, r: Request)
    requires ValidRequest(r) && r.ForSymbol?
    ensures !(r.kind.ContractStatus? && ContractsLeft(tables - {SlotOf(r)})) ==>
              forall a | a in tables && Serves(IDOf(r), a) :: a == SlotOf(r)
    ensures r.kind.ContractStatus? ==> IDOf(r).AllContracts?
  {
    var slot := SlotOf(r);
    OwnSlot(r);
    forall a | a in tables && Serves(IDOf(r), a) && a != slot
      ensures r.kind.ContractStatus? && ContractsLeft(tables - {slot})
    {
      if r.kind.ContractStatus? {
        assert a in tables - {slot};
      } else {
        SlotUnique(IDOf(r), a, slot);
      }
    }
  }

  lemma NamedOnly(r: Request)
    requires ValidRequest(r) && r.ForNamed?
    ensures forall a | Serves(IDOf(r), a) :: a == SlotOf(r)
  {
  }

  lemma NamedActive(s: State, r: Request)
    requires Inv(s) && ValidRequest(r) && r.ForNamed?
    ensures SlotOf(r) in s.tables <==> IDOf(r) in s.active
    ensures SlotOf(r) in s.tables ==> s.tables[SlotOf(r)] != []
  {
    hide WaitersAgree, SubsOpen, OneScope, OneVariant, ActiveValid;
    if SlotOf(r) in s.tables {
      assert SlotServed(s.active, SlotOf(r));
    }
    hide SlotServed;
    if IDOf(r) in s.active {
      assert FeedListed(s.tables, IDOf(r));
    }
  }

  lemma {:induction false} RemoveFacts(subs: seq<nat>, sub: nat)
    ensures forall x :: x in Remove(subs, sub) <==> x in subs && x != sub
    ensures Distinct(subs) ==> Distinct(Remove(subs, sub))
  {
    if subs != [] {
      RemoveFacts(subs[1..], sub);
      assert subs == [subs[0]] + subs[1..];
      var rest := Remove(subs[1..], sub);
      if Distinct(subs) {
        assert Distinct(subs[1..]);
        assert subs[0] !in rest by { assert forall i | 0 <= i < |subs[1..]| :: subs[1..][i] == subs[i + 1]; }
        DistinctCons(subs[0], rest);
      }
    }
  }

  lemma DistinctCons(x: nat, subs: seq<nat>)
    requires Distinct(subs) && x !in subs
    ensures Distinct([x] + subs)
  {
    assert forall i | 0 < i <= |subs| :: ([x] + subs)[i] == subs[i - 1];
  }

  /** One of several subscriptions of a named feed leaves. */
  lemma ShrunkKeeps(s: State, r: Request, sub: nat)
    requires Inv(s) && ValidRequest(r) && r.ForNamed? && GateFree(s, IDOf(r))
    requires sub in SubsOf(s.tables, SlotOf(r)) && Remove(SubsOf(s.tables, SlotOf(r)), sub) != []
    ensures Inv(TakenBack(s, r, sub))
  {
    hide Agree, ActiveValid, OneVariant, SubsOpen, WaitAgrees, IDOf, SlotOf, Serves, ValidRequest, Remove, Distinct, GateFree;
    var slot := SlotOf(r);
    var remaining := Remove(s.tables[slot], sub);
    RemoveFacts(s.tables[slot], sub);
    assert Distinct(s.tables[slot]) by { ListedDistinct(s, slot); }
    ShrunkAgrees(s.tables, s.active, slot, remaining);
    ShrunkOpens(s.tables, s.made, s.closed, slot, sub, remaining);
    ShrunkWaits(s, r, remaining);
  }

  lemma ListedDistinct(s: State, slot: Slot)
    requires SubsOpen(s.tables, s.made, s.closed) && slot in s.tables
    ensures Distinct(s.tables[slot])
  {
  }

  lemma ShrunkAgrees(tables: Tables, active: set<FeedID>, slot: Slot, remaining: seq<nat>)
    requires Agree(tables, active) && slot in tables && remaining != []
    ensures Agree(tables[slot := remaining], active)
  {
    hide Serves, SlotServed;
    forall id | id in active
      ensures FeedListed(tables[slot := remaining], id)
    {
      assert FeedListed(tables, id);
      var a :| a in tables && Serves(id, a);
      assert a in tables[slot := remaining];
    }
  }

  lemma ShrunkOpens(tables: Tables, made: nat, closed: set<nat>, slot: Slot, sub: nat, remaining: seq<nat>)
    requires SubsOpen(tables, made, closed) && slot in tables && sub in tables[slot] && Distinct(remaining)
    requires forall x :: x in remaining <==> x in tables[slot] && x != sub
    ensures SubsOpen(tables[slot := remaining], made, closed + {sub})
  {
    hide Distinct;
    var after := tables[slot := remaining];
    assert OpenSubs(tables[slot], made, closed);
    forall a | a in after
      ensures OpenSubs(after[a], made, closed + {sub})
    {
      assert OpenSubs(tables[a], made, closed);
      assert forall x | x in after[a] :: x in tables[a] && x != sub;
    }
    forall a, b, x | a in after && b in after && x in after[a] && x in after[b]
      ensures a == b
    {
      assert x in tables[a] && x in tables[b];
    }
  }

  lemma ShrunkWaits(s: State, r: Request, remaining: seq<nat>)
    requires WaitersAgree(s) && ValidRequest(r) && r.ForNamed? && GateFree(s, IDOf(r)) && SlotOf(r) in s.tables
    requires forall x | x in remaining :: x in s.tables[SlotOf(r)]
    ensures forall op | op in s.waiting :: WaitAgrees(s.tables[SlotOf(r) := remaining], s.active, s.made, s.waiting[op])
  {
    forall op | op in s.waiting
      ensures WaitAgrees(s.tables[SlotOf(r) := remaining], s.active, s.made, s.waiting[op])
    {
      var w := s.waiting[op];
      assert Waits(s, w);
      if w.AwaitAck? && SlotOf(w.r) == SlotOf(r) {
        NamedSlots(w.r, r);
      }
      hide Serves, ValidRequest, IDOf;
    }
  }

  lemma NamedSlots(a: Request, b: Request)
    requires b.ForNamed? && SlotOf(a) == SlotOf(b)
    ensures IDOf(a) == IDOf(b)
  {
  }

  lemma UnlistedClosed(s: State, sub: nat)
    requires Inv(s) && sub < s.made && forall slot | slot in s.tables :: sub !in s.tables[slot]
    ensures Inv(s.(closed := s.closed + {sub}))
  {
    hide Agree, ActiveValid, OneVariant, OneScope, WaitAgrees, Distinct, IDOf;
    forall slot | slot in s.tables
      ensures OpenSubs(s.tables[slot], s.made, s.closed + {sub})
    {
      assert OpenSubs(s.tables[slot], s.made, s.closed);
    }
  }

  /** A refused subscription is taken back. */
  lemma NackKeeps(s: State, op: nat)
    requires Inv(s) && Enabled(s, Nack(op))
    ensures Inv(Next(s, Nack(op)))
  {
    var r, sub := s.waiting[op].r, s.waiting[op].sub;
    var t := EndOp(s, op);
    assert Waits(s, s.waiting[op]);
    assert GateFree(t, IDOf(r));
    OwnSlotOfWaiter(s, s.waiting[op]);
    hide Inv, IDOf, SlotOf, Serves, ValidRequest, GateFree;
    EndOpKeeps(s, op);
    if sub in SubsOf(s.tables, SlotOf(r)) {
      OnlyOne(sub);
      EmptiedKeeps(t, TakenBack(t, r, sub), SlotOf(r), IDOf(r));
    } else {
      UnlistedClosed(t, sub);
    }
    assert Next(s, Nack(op)) == TakenBack(t, r, sub);
  }

  lemma OnlyOne(sub: nat)
    ensures Remove([sub], sub) == [] && Elements([sub]) == {sub}
  {
    assert [sub][1..] == [];
    assert forall x :: x in [sub] <==> x == sub;
  }

  lemma OwnSlotOfWaiter(s: State, w: Waiting)
    requires w.AwaitAck? && Waits(s, w)
    ensures Serves(IDOf(w.r), SlotOf(w.r))
    ensures w.sub !in SubsOf(s.tables, SlotOf(w.r)) ==> forall slot | slot in s.tables :: w.sub !in s.tables[slot]
  {
    OwnSlot(w.r);
    hide Serves, IDOf, SlotOf, ValidRequest;
  }

  lemma ChannelKeeps(s: State, r: Request, sub: nat)
    requires Inv(s) && Enabled(s, UnsubscribeChannel(r, sub))
    ensures Inv(Next(s, UnsubscribeChannel(r, sub)))
  {
    var slot := SlotOf(r);
    NamedActive(s, r);
    NamedOnly(r);
    OwnSlot(r);
    if sub in SubsOf(s.tables, slot) {
      RemoveFacts(s.tables[slot], sub);
      hide Inv, IDOf, SlotOf, Serves, ValidRequest, GateFree, Remove;
      if Remove(s.tables[slot], sub) == [] {
        assert forall x | x in s.tables[slot] :: x !in Remove(s.tables[slot], sub) && x == sub;
        assert Elements(s.tables[slot]) == {sub};
        EmptiedKeeps(s, TakenBack(s, r, sub), slot, IDOf(r));
      } else {
        ShrunkKeeps(s, r, sub);
      }
    }
  }

  lemma ClearKeeps(s: State)
    requires Inv(s)
    ensures Inv(Next(s, ClearAll))
  {
    hide Agree, ActiveValid, OneVariant, OneScope, ValidRequest, IDOf, Serves, Distinct;
    var t := Next(s, ClearAll);
    forall x | x in Listed(s.tables)
      ensures x < s.made
    {
      var slot :| slot in s.tables && x in s.tables[slot];
      assert OpenSubs(s.tables[slot], s.made, s.closed);
    }
    forall op | op in s.waiting
      ensures Waits(t, t.waiting[op])
    {
      assert Waits(s, s.waiting[op]);
    }
    NothingAgrees();
  }

  lemma NothingAgrees()
    ensures Agree(map[], {}) && ActiveValid({}) && OneVariant({}) && OneScope(map[])
  {
  }

  lemma CheckScopeKeeps(s: State, op: nat, r: Request)
    requires Inv(s) && Enabled(s, CheckScope(op, r))
    ensures Inv(Next(s, CheckScope(op, r)))
  {
    if !ScopeTaken(s.tables, SlotOf(r)) {
      forall slot | slot in s.tables && slot.kind.RFQPrivate?
        ensures slot == SlotOf(r)
      {
        assert s.tables[slot] != [];
      }
      hide Agree, ActiveValid, OneVariant, OneScope, SubsOpen, IDOf, SlotOf;
      var t := Next(s, CheckScope(op, r));
      forall o | o in s.waiting
        ensures Waits(t, s.waiting[o])
      {
        assert Waits(s, s.waiting[o]);
      }
    }
  }

  lemma NextKeeps(s: State, step: Step)
    requires Inv(s) && Enabled(s, step) && InFamilies(step)
    ensures Inv(Next(s, step))
  {
    hide Inv, Conflicts, InFamily, Published, TakenBack, Unsubscribed, IDOf;
    match step
    case CheckScope(op, r) => CheckScopeKeeps(s, op, r);
    case LeaveScope(op) => EndOpKeeps(s, op);
    case Publish(op, r) =>
      if Conflicts(s.active, IDOf(r)) {
        EndOpKeeps(s, op);
      } else {
        PublishedKeeps(s, op, r);
      }
    case Ack(op) => EndOpKeeps(s, op);
    case Nack(op) => NackKeeps(s, op);
    case Unsubscribe(r) => UnsubscribedKeeps(s, r);
    case UnsubscribeChannel(r, sub) => ChannelKeeps(s, r, sub);
    case ClearAll => ClearKeeps(s);
  }

  // ---- runs ----

  ghost predicate ValidRun(s: State, steps: seq<Step>)
    decreases |steps|
  {
    steps == [] || (Enabled(s, steps[0]) && ValidRun(Next(s, steps[0]), steps[1..]))
  }

  ghost function Run(s: State, steps: seq<Step>): State
    requires ValidRun(s, steps)
    decreases |steps|
  {
    if steps == [] then s else Run(Next(s, steps[0]), steps[1..])
  }

  ghost predicate AllInFamilies(steps: seq<Step>) {
    forall i | 0 <= i < |steps| :: InFamilies(steps[i])
  }

  lemma {:induction false} RunKeeps(s: State, steps: seq<Step>)
    requires Inv(s) && ValidRun(s, steps) && AllInFamilies(steps)
    ensures Inv(Run(s, steps))
    decreases |steps|
  {
    hide Inv, Next, Enabled, InFamilies;
    if steps != [] {
      NextKeeps(s, steps[0]);
      assert forall i | 0 <= i < |steps[1..]| :: steps[1..][i] == steps[i + 1];
      RunKeeps(Next(s, steps[0]), steps[1..]);
    }
  }

  /** Which of a feed's slots are filled decides whether it is active, and the text keys say the same. */
  ghost predicate RegistryAgrees(s: State) {
    && (forall slot | slot in s.tables :: s.tables[slot] != [])
    && (forall r | ValidRequest(r) && IDOf(r) in s.active :: FeedListed(s.tables, IDOf(r)))
    && (forall slot | slot in s.tables :: exists id :: id in s.active && Serves(id, slot) && OnlyServer(s.active, slot, id))
  }

  ghost predicate OnlyServer(active: set<FeedID>, slot: Slot, id: FeedID) {
    forall other | other in active && Serves(other, slot) :: other == id
  }

  /** In every run over symbols of a depth feed that do not begin with `@`: a feed is active exactly when the tables list
      subscriptions for it, each filled slot for one active feed and no empty slot kept; every listed subscription is open and
      listed once; at most one variant of a family is active; and at most one RFQ scope has subscriptions. */
  lemma RegistryIsConsistent(steps: seq<Step>)
    requires ValidRun(Init(), steps) && AllInFamilies(steps)
    ensures var s := Run(Init(), steps);
            && RegistryAgrees(s) && OneVariant(s.active) && OneScope(s.tables)
            && (forall slot, x | slot in s.tables && x in s.tables[slot] :: x !in s.closed)
            && (forall a, b, x | a in s.tables && b in s.tables && x in s.tables[a] && x in s.tables[b] :: a == b)
            && (forall slot | slot in s.tables :: Distinct(s.tables[slot]))
  {
    hide Next, Enabled, AllInFamilies;
    InitHolds();
    RunKeeps(Init(), steps);
    InvConsistent(Run(Init(), steps));
  }

  lemma InvConsistent(s: State)
    requires Inv(s)
    ensures RegistryAgrees(s) && OneVariant(s.active) && OneScope(s.tables)
    ensures forall slot, x | slot in s.tables && x in s.tables[slot] :: x !in s.closed
    ensures forall a, b, x | a in s.tables && b in s.tables && x in s.tables[a] && x in s.tables[b] :: a == b
    ensures forall slot | slot in s.tables :: Distinct(s.tables[slot])
  {
    hide WaitersAgree, Serves, ValidRequest, IDOf, FamilyOf, Distinct;
    forall slot | slot in s.tables
      ensures exists id :: id in s.active && Serves(id, slot) && OnlyServer(s.active, slot, id)
    {
      assert SlotServed(s.active, slot);
      var id :| id in s.active && Serves(id, slot);
      forall other | other in s.active && Serves(other, slot)
        ensures other == id
      {
        ServerUnique(s.active, slot, other, id);
      }
      assert OnlyServer(s.active, slot, id);
    }
    forall slot, x | slot in s.tables && x in s.tables[slot]
      ensures x !in s.closed
    {
      assert OpenSubs(s.tables[slot], s.made, s.closed);
    }
  }

  // ---- symbols that begin with `@` ----

  /** Every depth feed the run asks for is of this symbol. */
  ghost predicate DepthOnlyOf(steps: seq<Step>, symbol: string) {
    forall i | 0 <= i < |steps| :: DepthStepOf(steps[i], symbol)
  }

  predicate DepthStepOf(step: Step, symbol: string) {
    if (step.Publish? || step.Unsubscribe?) && step.r.ForSymbol? && (step.r.kind.Depth? || step.r.kind.PartialDepth?)
    then step.r.symbol == symbol
    else true
  }

  lemma OtherSymbolsJoin(step: Step, symbol: string)
    requires symbol != "" && symbol[0] != '@' && DepthStepOf(step, symbol)
    requires step.Publish? || step.Unsubscribe? ==> ValidRequest(step.r)
    ensures InFamilies(step)
  {
    hide FamilyOf;
    if (step.Publish? || step.Unsubscribe?) && step.r.ForSymbol? && (step.r.kind.Depth? || step.r.kind.PartialDepth?) {
      DepthHasFamily(IDOf(step.r));
    }
  }

  lemma {:induction false} PlainSymbolRun(s: State, steps: seq<Step>, symbol: string)
    requires symbol != "" && symbol[0] != '@' && ValidRun(s, steps) && DepthOnlyOf(steps, symbol)
    ensures AllInFamilies(steps)
    decreases |steps|
  {
    hide Next, InFamilies, DepthStepOf;
    if steps != [] {
      OtherSymbolsJoin(steps[0], symbol);
      assert forall i | 0 <= i < |steps[1..]| :: steps[1..][i] == steps[i + 1];
      PlainSymbolRun(Next(s, steps[0]), steps[1..], symbol);
      assert forall i | 0 < i < |steps| :: steps[i] == steps[1..][i - 1];
    }
  }

  function DepthOf(symbol: string, fast: bool): Request {
    ForSymbol(Depth, symbol, 0, fast)
  }

  function BadSteps(symbol: string): seq<Step> {
    [Publish(0, DepthOf(symbol, false)), Ack(0), Publish(1, DepthOf(symbol, true)), Ack(1), Unsubscribe(DepthOf(symbol, false))]
  }

  lemma RunCons(s: State, steps: seq<Step>)
    requires steps != [] && Enabled(s, steps[0]) && ValidRun(Next(s, steps[0]), steps[1..])
    ensures ValidRun(s, steps) && Run(s, steps) == Run(Next(s, steps[0]), steps[1..])
  {
  }

  /** The second variant is not refused, and taking the first one back takes the slot of both with it. */
  lemma AtSymbolBreaks(symbol: string)
    requires symbol != "" && symbol[0] == '@'
    ensures ValidRun(Init(), BadSteps(symbol)) && DepthOnlyOf(BadSteps(symbol), symbol)
    ensures !RegistryAgrees(Run(Init(), BadSteps(symbol)))
  {
    var a, b := DepthOf(symbol, false), DepthOf(symbol, true);
    DepthHasFamily(IDOf(a));
    DepthHasFamily(IDOf(b));
    hide FamilyOf, Head;
    var slot := SymbolSlot(Depth, symbol);
    var steps := BadSteps(symbol);
    var s1 := State(map[slot := [0]], {IDOf(a)}, 1, {}, map[0 := AwaitAck(a, 0)], None);
    var s2 := State(map[slot := [0]], {IDOf(a)}, 1, {}, map[], None);
    var s3 := State(map[slot := [0, 1]], {IDOf(a), IDOf(b)}, 2, {}, map[1 := AwaitAck(b, 1)], None);
    var s4 := State(map[slot := [0, 1]], {IDOf(a), IDOf(b)}, 2, {}, map[], None);
    var s5 := State(map[], {IDOf(b)}, 2, {0, 1}, map[], None);
    BadPublishes(symbol, s1, s2, s3, s4, s5);
    hide Next, Enabled, IDOf;
    ChainOfFive(Init(), s1, s2, s3, s4, s5, steps);
    assert ValidRequest(b) && IDOf(b) in s5.active && !FeedListed(s5.tables, IDOf(b));
  }

  lemma BadPublishes(symbol: string, s1: State, s2: State, s3: State, s4: State, s5: State)
    requires symbol != "" && FamilyOf(IDOf(DepthOf(symbol, false))) == "" && FamilyOf(IDOf(DepthOf(symbol, true))) == ""
    requires var slot := SymbolSlot(Depth, symbol);
             var a, b := DepthOf(symbol, false), DepthOf(symbol, true);
             && s1 == State(map[slot := [0]], {IDOf(a)}, 1, {}, map[0 := AwaitAck(a, 0)], None)
             && s2 == State(map[slot := [0]], {IDOf(a)}, 1, {}, map[], None)
             && s3 == State(map[slot := [0, 1]], {IDOf(a), IDOf(b)}, 2, {}, map[1 := AwaitAck(b, 1)], None)
             && s4 == State(map[slot := [0, 1]], {IDOf(a), IDOf(b)}, 2, {}, map[], None)
             && s5 == State(map[], {IDOf(b)}, 2, {0, 1}, map[], None)
    ensures var steps := BadSteps(symbol);
            && Enabled(Init(), steps[0]) && s1 == Next(Init(), steps[0])
            && Enabled(s1, steps[1]) && s2 == Next(s1, steps[1])
            && Enabled(s2, steps[2]) && s3 == Next(s2, steps[2])
            && Enabled(s3, steps[3]) && s4 == Next(s3, steps[3])
            && Enabled(s4, steps[4]) && s5 == Next(s4, steps[4])
  {
    hide FamilyOf;
    var slot := SymbolSlot(Depth, symbol);
    var a, b := DepthOf(symbol, false), DepthOf(symbol, true);
    assert SubsOf(map[], slot) + [0] == [0];
    assert SubsOf(s2.tables, slot) + [1] == [0, 1];
    assert s4.tables - {slot} == map[];
    assert Elements([0, 1]) == {0, 1};
    assert s4.active - {IDOf(a)} == {IDOf(b)};
    assert map[slot := [0]][slot := [0, 1]] == map[slot := [0, 1]];
    assert s1.waiting - {0} == map[] && s3.waiting - {1} == map[];
  }

  lemma ChainOfFive(s: State, s1: State, s2: State, s3: State, s4: State, s5: State, steps: seq<Step>)
    requires |steps| == 5
    requires Enabled(s, steps[0]) && s1 == Next(s, steps[0])
    requires Enabled(s1, steps[1]) && s2 == Next(s1, steps[1])
    requires Enabled(s2, steps[2]) && s3 == Next(s2, steps[2])
    requires Enabled(s3, steps[3]) && s4 == Next(s3, steps[3])
    requires Enabled(s4, steps[4]) && s5 == Next(s4, steps[4])
    ensures ValidRun(s, steps) && Run(s, steps) == s5
  {
    hide Next, Enabled;
    var a, b, c, d := steps[1..], steps[1..][1..], steps[1..][1..][1..], steps[1..][1..][1..][1..];
    assert d[1..] == [] && ValidRun(s5, []) && Run(s5, []) == s5;
    RunCons(s4, d);
    RunCons(s3, c);
    RunCons(s2, b);
    RunCons(s1, a);
    RunCons(s, steps);
  }

  /** Depth feeds of a symbol stay consistent in every run exactly when the symbol does not begin with `@`. */
  lemma ConsistentIffPlainSymbol(symbol: string)
    requires symbol != ""
    ensures symbol[0] != '@' <==>
            forall steps | ValidRun(Init(), steps) && DepthOnlyOf(steps, symbol) :: RegistryAgrees(Run(Init(), steps))
  {
    hide RegistryAgrees, Next, Enabled, AllInFamilies, DepthOnlyOf;
    if symbol[0] != '@' {
      forall steps | ValidRun(Init(), steps) && DepthOnlyOf(steps, symbol)
        ensures RegistryAgrees(Run(Init(), steps))
      {
        PlainSymbolRun(Init(), steps, symbol);
        RegistryIsConsistent(steps);
      }
    } else {
      AtSymbolBreaks(symbol);
    }
  }

  // ---- the registry as the object the client updates ----

  ghost function KeysOf(feeds: set<FeedID>): set<string> {
    set id | id in feeds :: Key(id)
  }

  ghost predicate AllValid(feeds: set<FeedID>) {
    forall id | id in feeds :: ValidID(id)
  }

  lemma KeyIn(feeds: set<FeedID>, id: FeedID)
    requires AllValid(feeds) && ValidID(id)
    ensures Key(id) in KeysOf(feeds) <==> id in feeds
    ensures KeysOf(feeds + {id}) == KeysOf(feeds) + {Key(id)}
    ensures KeysOf(feeds - {id}) == KeysOf(feeds) - {Key(id)}
  {
    hide Key, ValidID;
    forall other | other in feeds
      ensures Key(other) == Key(id) <==> other == id
    {
      KeysTellApart(other, id);
    }
  }

  /** The conflict as the client finds it in the texts of the active keys. */
  lemma ConflictInText(feeds: set<FeedID>, id: FeedID)
    requires AllValid(feeds) && ValidID(id)
    ensures Conflicts(feeds, id) <==>
            Family(Key(id)) != "" && exists k | k in KeysOf(feeds) :: k != Key(id) && Family(k) == Family(Key(id))
  {
    hide Key, ValidID, Family, FamilyOf;
    FamilyOfKey(id);
    forall other | other in feeds
      ensures (Key(other) == Key(id) <==> other == id) && Family(Key(other)) == FamilyOf(other)
    {
      KeysTellApart(other, id);
      FamilyOfKey(other);
    }
    if Conflicts(feeds, id) {
      var a :| a in feeds && a != id && FamilyOf(a) == FamilyOf(id);
      assert Key(a) in KeysOf(feeds);
    }
  }

  class SubscriptionRegistry {
    var subTables: Tables
    var activeFeeds: set<string>
    ghost var feeds: set<FeedID>

    ghost predicate Valid()
      reads this
    {
      AllValid(feeds) && activeFeeds == KeysOf(feeds)
    }

    /** The registry is in state `s`. */
    ghost predicate Represents(s: State)
      reads this
    {
      Valid() && subTables == s.tables && feeds == s.active
    }

    constructor ()
      ensures Represents(Init())
    {
      subTables, activeFeeds, feeds := map[], {}, {};
    }

    /** Looks for another active variant of the feed's family, by the texts of the keys. */
    method ValidateActiveVariant(id: FeedID) returns (ok: bool)
      requires Valid() && ValidID(id)
      ensures ok <==> Family(Key(id)) == "" || forall k | k in activeFeeds && k != Key(id) :: Family(k) != Family(Key(id))
      ensures ok == !Conflicts(feeds, id)
    {
      hide Key, ValidID, Family, FamilyOf, KeysOf, Conflicts;
      ConflictInText(feeds, id);
      var requested := Key(id);
      var family := Family(requested);
      if family == "" {
        return true;
      }
      var left := activeFeeds;
      while left != {}
        invariant left <= activeFeeds
        invariant forall k | k in activeFeeds - left :: k == requested || Family(k) != family
      {
        var k :| k in left;
        left := left - {k};
        if k != requested && Family(k) == family {
          return false;
        }
      }
      return true;
    }

    /** The section of a subscribe call: refused on a conflict, otherwise published. */
    method PublishSubscription(ghost s: State, ghost op: nat, r: Request, sub: nat) returns (refused: bool, needWire: bool)
      requires Represents(s) && ValidRequest(r) && sub == s.made
      modifies this
      ensures refused == Conflicts(s.active, IDOf(r))
      ensures refused <==>
        Family(Key(IDOf(r))) != "" && exists k | k in old(activeFeeds) :: k != Key(IDOf(r)) && Family(k) == Family(Key(IDOf(r)))
      ensures refused ==> subTables == old(subTables) && activeFeeds == old(activeFeeds)
      ensures !refused ==>
                && subTables == old(subTables)[SlotOf(r) := (if SlotOf(r) in old(subTables) then old(subTables)[SlotOf(r)] else []) + [sub]]
                && (needWire <==>
                     if r.ForSymbol? then Key(IDOf(r)) !in old(activeFeeds)
                     else SlotOf(r) !in old(subTables) || old(subTables)[SlotOf(r)] == [])
                && activeFeeds == old(activeFeeds) + if needWire then {Key(IDOf(r))} else {}
      ensures refused ==> Represents(s)
      ensures !refused ==> Represents(Published(s, op, r)) && needWire == NeedsWire(s, r)
    {
      hide Key, ValidID, KeysOf, Conflicts, FamilyOf, IDOf, SlotOf;
      var id, slot := IDOf(r), SlotOf(r);
      var ok := ValidateActiveVariant(id);
      if !ok {
        return true, false;
      }
      KeyIn(feeds, id);
      needWire := if r.ForSymbol? then Key(id) !in activeFeeds else |SubsOf(subTables, slot)| == 0;
      subTables := subTables[slot := SubsOf(subTables, slot) + [sub]];
      if needWire {
        activeFeeds := activeFeeds + {Key(id)};
        feeds := feeds + {id};
      }
      return false, needWire;
    }

    /** Takes a refused subscription back. */
    method RemoveSubscription(ghost s: State, r: Request, sub: nat)
      requires Represents(s) && ValidRequest(r)
      modifies this
      ensures var slot := SlotOf(r);
              var had := slot in old(subTables) && sub in old(subTables)[slot];
              var left := if had then Remove(old(subTables)[slot], sub) else [];
              && subTables == (if !had then old(subTables) else if left == [] then old(subTables) - {slot} else old(subTables)[slot := left])
              && activeFeeds == old(activeFeeds) - if had && left == [] then {Key(IDOf(r))} else {}
      ensures Represents(TakenBack(s, r, sub))
    {
      hide Key, ValidID, KeysOf, IDOf, SlotOf;
      var slot, id := SlotOf(r), IDOf(r);
      var list := SubsOf(subTables, slot);
      var remaining: seq<nat> := [];
      var found := false;
      for i := 0 to |list|
        invariant remaining + Remove(list[i..], sub) == Remove(list, sub)
        invariant found <==> sub in list[..i]
      {
        assert list[i..][0] == list[i] && list[i..][1..] == list[i + 1..];
        assert list[..i + 1] == list[..i] + [list[i]];
        if list[i] == sub {
          found := true;
          continue;
        }
        remaining := remaining + [list[i]];
      }
      assert list[|list|..] == [] && list[..|list|] == list;
      assert remaining == Remove(list, sub);
      if found {
        if |remaining| == 0 {
          KeyIn(feeds, id);
          subTables := subTables - {slot};
          activeFeeds := activeFeeds - {Key(id)};
          feeds := feeds - {id};
        } else {
          subTables := subTables[slot := remaining];
        }
      }
    }

    /** Removes every subscription of a slot; `subs` are to be closed. */
    method UnsubscribeAll(ghost s: State, r: Request) returns (refused: bool, subs: seq<nat>)
      requires Represents(s) && ValidRequest(r)
      modifies this
      ensures Represents(Unsubscribed(s, r)) && Unsubscribed(s, r).closed == s.closed + Elements(subs)
      ensures refused == (r.ForSymbol? && Conflicts(s.active, IDOf(r)))
      ensures refused ==> subTables == old(subTables) && activeFeeds == old(activeFeeds) && subs == []
      ensures !refused ==>
                && subs == (if SlotOf(r) in old(subTables) then old(subTables)[SlotOf(r)] else [])
                && (SlotOf(r) in subTables ==> subs == [])
                && (forall slot | slot != SlotOf(r) :: slot in subTables <==> slot in old(subTables))
                && (forall slot | slot in subTables :: subTables[slot] == old(subTables)[slot])
                && activeFeeds == old(activeFeeds) -
                   if r.ForSymbol? && (SlotOf(r) !in old(subTables)
                                       || (r.kind.ContractStatus? && exists slot | slot in subTables :: slot.SymbolSlot? && slot.kind.ContractStatus?))
                   then {} else {Key(IDOf(r))}
    {
      hide Key, ValidID, KeysOf, Conflicts, FamilyOf, IDOf, SlotOf;
      var slot, id := SlotOf(r), IDOf(r);
      subs := [];
      assert s.closed + Elements([]) == s.closed;
      if r.ForSymbol? {
        var ok := ValidateActiveVariant(id);
        if !ok {
          return true, subs;
        }
        if slot !in subTables {
          return false, subs;
        }
      }
      KeyIn(feeds, id);
      if slot in subTables {
        subs := subTables[slot];
      }
      if r.ForNamed? && |subs| == 0 {
        activeFeeds := activeFeeds - {Key(id)};
        feeds := feeds - {id};
        return false, subs;
      }
      subTables := subTables - {slot};
      if !(r.ForSymbol? && r.kind.ContractStatus? && ContractsLeft(subTables)) {
        activeFeeds := activeFeeds - {Key(id)};
        feeds := feeds - {id};
      }
      return false, subs;
    }

    /** Fails every subscription. */
    method Clear(ghost s: State)
      requires Represents(s)
      modifies this
      ensures subTables == map[] && activeFeeds == {}
      ensures Represents(Next(s, ClearAll))
    {
      subTables, activeFeeds, feeds := map[], {}, {};
    }
  }
}
