/** What whole `Sync` cycles leave behind: a well-formed ledger in every run, and, after an undisturbed successful cycle with
    exact prices, a ledger that is exactly the targets and that a second cycle leaves alone. */
module SyncOutcome {
  import opened Wrappers
  import opened Decimals
  import opened Text
  import opened Ledger
  import opened QuoteDiff
  import opened Counting
  import opened SyncCycle
  import Arith
  import BW = BoundedWorkers

  // ---- every entry stays well formed ----

  ghost predicate GoodTargets(targets: seq<Quote>) {
    forall t | t in targets :: ValidSide(t.side) && IsPositive(t.amount)
  }

  lemma DeleteAllKeepsGood(r: Resting, cancelled: seq<RestingOrder>)
    requires GoodLedger(r)
    ensures GoodLedger(DeleteAll(r, cancelled))
  {
    hide GoodEntry;
    hide DeleteAll;
    forall id | id in DeleteAll(r, cancelled)
      ensures GoodEntry(id, DeleteAll(r, cancelled)[id])
    {
      DeleteAllOnlyUnchanged(r, cancelled, id);
    }
  }

  lemma AddAbsentKeepsGood(p: Plan, r: Resting, placed: seq<RestingOrder>)
    requires GoodLedger(r) && GoodTargets(p.targets)
    requires forall k | 0 <= k < |placed| :: FromTarget(p, placed[k])
    ensures GoodLedger(AddAbsent(r, placed))
  {
    hide AddAbsent;
    hide Cmp;
    forall id | id in AddAbsent(r, placed)
      ensures GoodEntry(id, AddAbsent(r, placed)[id])
    {
      AddAbsentOnlyAdds(r, placed, id);
      if id !in r {
        var o := AddAbsent(r, placed)[id];
        CmpSelf(o.amount);
      }
    }
  }

  lemma NextKeepsGood(tolerance: Decimal, symbol: string, c: Cycle, step: Step)
    requires Inv(tolerance, c) && Enabled(c, step) && GoodTargets(c.plan.targets) && GoodLedger(c.resting)
    ensures GoodLedger(Next(symbol, c, step).resting)
  {
    hide GoodLedger;
    hide IsPlan;
    hide BW.Inv;
    hide DeleteAll;
    hide AddAbsent;
    hide ApplyEvent;
    match step
    case EndCancelPhase => DeleteAllKeepsGood(c.resting, c.cancelled);
    case EndPlacePhase => AddAbsentKeepsGood(c.plan, c.resting, c.placed);
    case LedgerEvent(e) => ApplyKeepsGood(symbol, c.resting, e);
    case Schedule(_) =>
    case CancelReturns(_, _) =>
    case PlaceReturns(_, _) =>
    case SkipCancelled(_) =>
  }

  /** In every run of a cycle, interleaved with any order events, every entry keeps its own key, a valid side, and a positive
      amount no larger than the original one. */
  lemma {:induction false} RunKeepsGood(tolerance: Decimal, symbol: string, c: Cycle, steps: seq<Step>)
    requires Inv(tolerance, c) && ValidRun(symbol, c, steps) && GoodTargets(c.plan.targets) && GoodLedger(c.resting)
    ensures GoodLedger(Run(symbol, c, steps).resting)
    decreases |steps|
  {
    hide Inv;
    hide Next;
    hide GoodLedger;
    if steps != [] {
      NextKeeps(tolerance, symbol, c, steps[0]);
      NextKeepsGood(tolerance, symbol, c, steps[0]);
      RunKeepsGood(tolerance, symbol, Next(symbol, c, steps[0]), steps[1..]);
    }
  }

  // ---- undisturbed cycles ----

  ghost predicate Quiet(steps: seq<Step>) {
    forall k | 0 <= k < |steps| :: !steps[k].LedgerEvent?
  }

  ghost predicate QuietInv(c: Cycle) {
    && (c.phase.Cancelling? ==>
      c.resting == c.plan.ledger && forall k | 0 <= k < |c.cancelled| :: c.cancelled[k] in c.plan.toCancel)
    && (c.phase.Placing? ==> c.resting == c.plan.ledger - IDs(c.plan.toCancel))
    && (c.phase.Completed? ==> c.resting == AddAbsent(c.plan.ledger - IDs(c.plan.toCancel), c.placed))
  }

  lemma SameToItself(o: RestingOrder)
    ensures SameOrder(o, o)
  {
    CmpSelf(o.price);
    CmpSelf(o.amount);
    CmpSelf(o.originalAmount);
  }

  lemma UndisturbedDelete(tolerance: Decimal, c: Cycle)
    requires Inv(tolerance, c) && QuietInv(c) && c.phase.Cancelling? && AllCancelled(c)
    ensures DeleteAll(c.resting, c.cancelled) == c.plan.ledger - IDs(c.plan.toCancel)
  {
    hide DeleteAll;
    hide SameOrder;
    hide ListsByAge;
    hide Assign;
    hide BW.Inv;
    var after := DeleteAll(c.resting, c.cancelled);
    var ids := IDs(c.plan.toCancel);
    forall id | id in c.plan.ledger
      ensures id in after <==> id !in ids
      ensures id in after ==> after[id] == c.plan.ledger[id]
    {
      UndisturbedEntry(tolerance, c, id);
    }
    forall id | id in after
      ensures id in c.plan.ledger
    {
      DeleteAllOnlyUnchanged(c.resting, c.cancelled, id);
    }
  }

  lemma UndisturbedEntry(tolerance: Decimal, c: Cycle, id: string)
    requires Inv(tolerance, c) && QuietInv(c) && c.phase.Cancelling? && AllCancelled(c) && id in c.plan.ledger
    ensures var after := DeleteAll(c.resting, c.cancelled);
            (id in after <==> id !in IDs(c.plan.toCancel)) && (id in after ==> after[id] == c.plan.ledger[id])
  {
    hide DeleteAll;
    hide SameOrder;
    hide ListsByAge;
    hide Assign;
    hide BW.Inv;
    DeleteAllOnlyUnchanged(c.resting, c.cancelled, id);
    if id in IDs(c.plan.toCancel) {
      var k :| 0 <= k < |c.plan.toCancel| && c.plan.toCancel[k].orderID == id;
      var o := c.plan.toCancel[k];
      assert o in c.cancelled;
      var m :| 0 <= m < |c.cancelled| && c.cancelled[m] == o;
      SameToItself(o);
      assert c.cancelled[m].orderID == id && SameOrder(c.resting[id], c.cancelled[m]);
    }
  }

  lemma NextKeepsQuiet(tolerance: Decimal, symbol: string, c: Cycle, step: Step)
    requires Inv(tolerance, c) && QuietInv(c) && Enabled(c, step) && !step.LedgerEvent?
    ensures QuietInv(Next(symbol, c, step))
  {
    hide IsPlan;
    hide BW.Inv;
    hide DeleteAll;
    hide AddAbsent;
    match step
    case EndCancelPhase =>
      if PhaseErrors(c) == 0 {
        EndCancelKeeps(tolerance, symbol, c);
        UndisturbedDelete(tolerance, c);
      }
    case EndPlacePhase =>
    case LedgerEvent(e) =>
    case Schedule(_) =>
    case CancelReturns(_, _) =>
    case PlaceReturns(_, _) =>
    case SkipCancelled(_) =>
  }

  lemma {:induction false} RunKeepsQuiet(tolerance: Decimal, symbol: string, c: Cycle, steps: seq<Step>)
    requires Inv(tolerance, c) && QuietInv(c) && ValidRun(symbol, c, steps) && Quiet(steps)
    ensures QuietInv(Run(symbol, c, steps))
    decreases |steps|
  {
    hide Inv;
    hide QuietInv;
    hide Next;
    if steps != [] {
      NextKeeps(tolerance, symbol, c, steps[0]);
      NextKeepsQuiet(tolerance, symbol, c, steps[0]);
      RunKeepsQuiet(tolerance, symbol, Next(symbol, c, steps[0]), steps[1..]);
    }
  }

  /** `CancelAll` is the cancel phase of a cycle without targets: undisturbed, and with every cancel acknowledged, it leaves the
      ledger empty. */
  lemma PurgeEmpties(symbol: string, plan: Plan, max: int, steps: seq<Step>)
    requires IsPlan(EXACT, plan) && plan.targets == []
    requires ValidRun(symbol, Begin(plan, max, false), steps) && Quiet(steps)
    requires Run(symbol, Begin(plan, max, false), steps).phase.Placing?
    ensures Run(symbol, Begin(plan, max, false), steps).resting == map[]
  {
    hide IsPlan, BW.Inv, DeleteAll;
    BeginHolds(EXACT, plan, max, false);
    RunKeeps(EXACT, symbol, Begin(plan, max, false), steps);
    RunKeepsQuiet(EXACT, symbol, Begin(plan, max, false), steps);
    WithoutTargetsAllCancelled(plan);
  }

  lemma WithoutTargetsAllCancelled(plan: Plan)
    requires IsPlan(EXACT, plan) && plan.targets == []
    ensures plan.ledger - IDs(plan.toCancel) == map[]
  {
    hide Older, Compatible;
    forall id | id in plan.ledger
      ensures id in IDs(plan.toCancel)
    {
      var j :| 0 <= j < |plan.ordered| && plan.ordered[j] == plan.ledger[id];
      assert !Uses(plan.keeps, j);
      var k :| 0 <= k < |plan.toCancel| && plan.toCancel[k] == plan.ordered[j];
      assert plan.toCancel[k].orderID == id;
    }
  }

  // ---- the fixpoint ----

  /** The ledger holds one order per target, equal to it in side, price and amount, and nothing else; `ids` names them. */
  ghost predicate RealizedBy(r: Resting, targets: seq<Quote>, ids: seq<string>) {
    && |ids| == |targets|
    && (forall i | 0 <= i < |ids| :: ids[i] in r && Compatible(EXACT, r[ids[i]], targets[i]))
    && (forall i, j | 0 <= i < j < |ids| :: ids[i] != ids[j])
    && (forall id | id in r :: id in ids)
  }

  /** The exchange handed out new, distinct order IDs. */
  ghost predicate FreshIDs(c: Cycle) {
    && (forall k | 0 <= k < |c.placed| :: c.placed[k].orderID !in c.plan.ledger)
    && (forall k, m | 0 <= k < m < |c.placed| :: c.placed[k].orderID != c.placed[m].orderID)
  }

  /** Which finished placement served target `i`. */
  ghost function PlacementOf(c: Cycle, i: int): int {
    if exists k :: 0 <= k < |c.pool.finished| && ServedItem(c, k, i)
    then var k :| 0 <= k < |c.pool.finished| && ServedItem(c, k, i); k
    else -1
  }

  ghost predicate ServedItem(c: Cycle, k: int, i: int) {
    0 <= k < |c.pool.finished| && c.pool.finished[k] < |c.plan.unserved| && c.plan.unserved[c.pool.finished[k]] == i
  }

  /** The ID of the order that stands for target `i`. */
  ghost function StandsFor(c: Cycle, i: int): string {
    if 0 <= i < |c.plan.keeps| && 0 <= c.plan.keeps[i] < |c.plan.ordered| then c.plan.ordered[c.plan.keeps[i]].orderID
    else if 0 <= PlacementOf(c, i) < |c.placed| then c.placed[PlacementOf(c, i)].orderID
    else ""
  }

  ghost predicate Succeeded(c: Cycle) {
    Inv(EXACT, c) && QuietInv(c) && c.phase.Completed? && c.errors == 0 && FreshIDs(c)
  }

  lemma PlacementFound(c: Cycle, i: nat)
    requires Succeeded(c) && i < |c.plan.targets| && c.plan.keeps[i] < 0
    ensures var k := PlacementOf(c, i);
            && 0 <= k < |c.placed| && ServedItem(c, k, i)
            && c.placed[k] == PlacedOrder(c.plan.targets[i], c.placed[k].orderID)
  {
    hide ListsByAge;
    hide Compatible;
    hide AddAbsent;
    assert i in c.plan.unserved;
    var m :| 0 <= m < |c.plan.unserved| && c.plan.unserved[m] == i;
    BW.NilMeansAllRan(c.pool);
    assert m in c.pool.finished;
    var k :| 0 <= k < |c.pool.finished| && c.pool.finished[k] == m;
    assert ServedItem(c, k, i);
  }

  lemma Realized(c: Cycle, i: nat)
    requires Succeeded(c) && i < |c.plan.targets|
    ensures var id := StandsFor(c, i);
            && id in c.resting && Compatible(EXACT, c.resting[id], c.plan.targets[i])
            && (c.plan.keeps[i] >= 0 <==> id in c.plan.ledger)
  {
    hide Compatible;
    hide AddAbsent;
    hide Older;
    hide Assign;
    hide BW.Inv;
    hide PlacementOf;
    AssignIsMatching(EXACT, c.plan.ordered, c.plan.targets);
    if c.plan.keeps[i] >= 0 {
      KeptStays(c, i);
    } else {
      PlacementFound(c, i);
      var o := c.placed[PlacementOf(c, i)];
      PlacedStays(c, PlacementOf(c, i));
      PlacedCompatible(c.plan.targets[i], o.orderID);
    }
  }

  lemma PlacedCompatible(t: Quote, id: string)
    ensures Compatible(EXACT, PlacedOrder(t, id), t)
  {
    CmpSelf(t.price);
    CmpSelf(t.amount);
  }

  lemma KeptStays(c: Cycle, i: nat)
    requires Succeeded(c) && i < |c.plan.targets| && 0 <= c.plan.keeps[i] < |c.plan.ordered|
    ensures var o := c.plan.ordered[c.plan.keeps[i]];
            o.orderID in c.plan.ledger && o.orderID in c.resting && c.resting[o.orderID] == o
  {
    hide Compatible;
    hide AddAbsent;
    hide Older;
    hide Assign;
    hide BW.Inv;
    var j := c.plan.keeps[i];
    var o := c.plan.ordered[j];
    assert Uses(c.plan.keeps, j);
    assert o.orderID !in IDs(c.plan.toCancel);
    AddAbsentOnlyAdds(c.plan.ledger - IDs(c.plan.toCancel), c.placed, o.orderID);
  }

  lemma PlacedStays(c: Cycle, k: nat)
    requires Succeeded(c) && k < |c.placed|
    ensures c.placed[k].orderID in c.resting && c.resting[c.placed[k].orderID] == c.placed[k]
    ensures c.placed[k].orderID !in c.plan.ledger
  {
    hide IsPlan;
    hide BW.Inv;
    hide AddAbsent;
    var id := c.placed[k].orderID;
    AddAbsentOnlyAdds(c.plan.ledger - IDs(c.plan.toCancel), c.placed, id);
    var m :| 0 <= m < |c.placed| && c.placed[m] == c.resting[id];
  }

  lemma StandsForDistinct(c: Cycle, i: nat, j: nat)
    requires Succeeded(c) && i < j < |c.plan.targets|
    ensures StandsFor(c, i) != StandsFor(c, j)
  {
    hide Compatible;
    hide AddAbsent;
    hide Older;
    hide Assign;
    hide BW.Inv;
    hide PlacementOf;
    AssignIsMatching(EXACT, c.plan.ordered, c.plan.targets);
    Realized(c, i);
    Realized(c, j);
    if c.plan.keeps[i] < 0 && c.plan.keeps[j] < 0 {
      PlacementFound(c, i);
      PlacementFound(c, j);
    }
  }

  lemma NothingElse(c: Cycle, id: string)
    requires Succeeded(c) && id in c.resting
    ensures exists i :: 0 <= i < |c.plan.targets| && StandsFor(c, i) == id
  {
    hide Compatible;
    hide AddAbsent;
    hide Older;
    hide Assign;
    hide BW.Inv;
    hide PlacementOf;
    AddAbsentOnlyAdds(c.plan.ledger - IDs(c.plan.toCancel), c.placed, id);
    AssignIsMatching(EXACT, c.plan.ordered, c.plan.targets);
    if id in c.plan.ledger - IDs(c.plan.toCancel) {
      assert c.plan.ledger[id] in c.plan.ordered;
      var j :| 0 <= j < |c.plan.ordered| && c.plan.ordered[j] == c.plan.ledger[id];
      assert c.plan.ordered[j] !in c.plan.toCancel;
      assert Uses(c.plan.keeps, j);
      var i :| 0 <= i < |c.plan.keeps| && c.plan.keeps[i] == j;
      assert StandsFor(c, i) == id;
    } else {
      var k :| 0 <= k < |c.placed| && c.placed[k].orderID == id;
      PlacedStandsFor(c, k);
    }
  }

  lemma PlacedStandsFor(c: Cycle, k: nat)
    requires Succeeded(c) && k < |c.placed|
    ensures exists i :: 0 <= i < |c.plan.targets| && StandsFor(c, i) == c.placed[k].orderID
  {
    hide Compatible;
    hide AddAbsent;
    hide ListsByAge;
    hide Assign;
    hide PlacementOf;
    var m := c.pool.finished[k];
    var i := c.plan.unserved[m];
    PlacementFound(c, i);
    UnservedCount(c.plan.keeps);
    var l := PlacementOf(c, i);
    assert c.pool.finished[l] == m;
    assert l == k;
    assert StandsFor(c, i) == c.placed[k].orderID;
  }

  /** After an undisturbed cycle with exact prices in which every request succeeded and the new IDs are fresh, the ledger is
      exactly the targets. */
  lemma SyncRealizesTargets(symbol: string, plan: Plan, max: int, steps: seq<Step>) returns (ids: seq<string>)
    requires IsPlan(EXACT, plan) && ValidRun(symbol, Begin(plan, max, false), steps) && Quiet(steps)
    requires var c := Run(symbol, Begin(plan, max, false), steps); c.phase.Completed? && c.errors == 0 && FreshIDs(c)
    ensures RealizedBy(Run(symbol, Begin(plan, max, false), steps).resting, plan.targets, ids)
  {
    hide IsPlan;
    hide Compatible;
    hide BW.Inv;
    hide StandsFor;
    hide AddAbsent;
    var begin := Begin(plan, max, false);
    BeginHolds(EXACT, plan, max, false);
    RunKeeps(EXACT, symbol, begin, steps);
    RunKeepsQuiet(EXACT, symbol, begin, steps);
    var c := Run(symbol, begin, steps);
    ids := seq(|plan.targets|, i => StandsFor(c, i));
    forall i: nat | i < |ids|
      ensures ids[i] in c.resting && Compatible(EXACT, c.resting[ids[i]], plan.targets[i])
    {
      Realized(c, i);
    }
    forall i: nat, j: nat | i < j < |ids|
      ensures ids[i] != ids[j]
    {
      StandsForDistinct(c, i, j);
    }
    forall id | id in c.resting
      ensures id in ids
    {
      NothingElse(c, id);
      var i :| 0 <= i < |plan.targets| && StandsFor(c, i) == id;
      assert ids[i] == id;
    }
  }

  /** A cycle over a ledger that is exactly its targets keeps every order, cancels none and places none. */
  lemma RealizedIsFixpoint(p: Plan, ids: seq<string>)
    requires IsPlan(EXACT, p) && RealizedBy(p.ledger, p.targets, ids) && AllFit(p.ordered, p.targets)
    ensures Kept(p.keeps) == |p.targets| && p.toCancel == [] && p.unserved == []
  {
    hide Compatible;
    hide ListsByAge;
    hide Lists;
    hide Assign;
    hide Unserved;
    hide IsMatching;
    hide AllFit;
    hide Served;
    ListsByAgeLists(p.ledger, p.ordered);
    var b := RealizedMatching(p.ledger, p.ordered, p.targets, ids);
    GreedyIsOptimal(p.ordered, p.targets, b);
    PlanBalances(EXACT, p);
    SetOfIDs(p.ledger, ids);
  }

  /** So after such a cycle a second one over the same targets does nothing. */
  lemma SecondSyncIsIdle(symbol: string, plan: Plan, max: int, steps: seq<Step>, again: Plan)
    requires IsPlan(EXACT, plan) && ValidRun(symbol, Begin(plan, max, false), steps) && Quiet(steps)
    requires var c := Run(symbol, Begin(plan, max, false), steps); c.phase.Completed? && c.errors == 0 && FreshIDs(c)
    requires IsPlan(EXACT, again) && AllFit(again.ordered, again.targets) && again.targets == plan.targets
    requires again.ledger == Run(symbol, Begin(plan, max, false), steps).resting
    ensures Kept(again.keeps) == |again.targets| && again.toCancel == [] && again.unserved == []
  {
    hide IsPlan, RealizedBy, FreshIDs, Quiet;
    var ids := SyncRealizesTargets(symbol, plan, max, steps);
    RealizedIsFixpoint(again, ids);
  }

  lemma RealizedMatching(r: Resting, ordered: seq<RestingOrder>, targets: seq<Quote>, ids: seq<string>) returns (b: Assignment)
    requires Lists(r, ordered) && RealizedBy(r, targets, ids)
    ensures IsMatching(EXACT, ordered, targets, b) && Kept(b) == |targets|
  {
    hide Compatible;
    hide PositionOf;
    b := seq(|ids|, i requires 0 <= i < |ids| => PositionOf(ordered, ids[i]));
    forall i | 0 <= i < |ids|
      ensures 0 <= b[i] < |ordered| && ordered[b[i]] == r[ids[i]] && ordered[b[i]].orderID == ids[i]
    {
      RealizedPosition(r, ordered, ids[i]);
    }
    AllServed(b);
  }

  lemma RealizedPosition(r: Resting, ordered: seq<RestingOrder>, id: string)
    requires Lists(r, ordered) && id in r
    ensures var j := PositionOf(ordered, id); 0 <= j < |ordered| && ordered[j] == r[id] && ordered[j].orderID == id
  {
    assert r[id] in ordered;
    var j :| 0 <= j < |ordered| && ordered[j] == r[id];
    assert ordered[j].orderID == id;
  }

  lemma AllServed(b: Assignment)
    requires forall i | 0 <= i < |b| :: b[i] >= 0
    ensures Kept(b) == |b|
  {
    assert Served(b) == Below(|b|);
  }

  lemma SetOfIDs(r: Resting, ids: seq<string>)
    requires forall i | 0 <= i < |ids| :: ids[i] in r
    requires forall i, j | 0 <= i < j < |ids| :: ids[i] != ids[j]
    requires forall id | id in r :: id in ids
    ensures |r| == |ids|
  {
    var s := set id | id in ids;
    SeqSetSize(ids);
    assert r.Keys == s;
    assert |r| == |r.Keys|;
  }

  lemma {:induction false} SeqSetSize(ids: seq<string>)
    requires forall i, j | 0 <= i < j < |ids| :: ids[i] != ids[j]
    ensures |set id | id in ids| == |ids|
  {
    if ids != [] {
      var init, last := ids[..|ids| - 1], ids[|ids| - 1];
      SeqSetSize(init);
      assert (set id | id in ids) == (set id | id in init) + {last};
    }
  }

  // ---- a positive tolerance is not a fixpoint ----

  function Buy(id: string, price: int): RestingOrder {
    RestingOrder(id, "", "buy", Decimal(price, 0), Decimal(1, 0), Decimal(1, 0))
  }

  function BuyQuote(price: int): Quote {
    Quote("buy", Decimal(price, 0), Decimal(1, 0), "")
  }

  /** The truncated basis points of `n - m` over `m`, for whole prices: at 18 places, ten thousand times the quotient. */
  lemma WholeBps(n: int, m: int) returns (q: int)
    requires n > 0 && m > 0
    ensures BpsDiff(Decimal(n, 0), Decimal(m, 0)).Some?
    ensures var d := BpsDiff(Decimal(n, 0), Decimal(m, 0)).value;
            Holds(d, 18) && d.scale >= 0 && At(d, 18) == 10000 * q
    ensures Truncates(q * m, (n - m) * Pow10(18), m)
  {
    hide Pow10;
    hide Mul;
    hide Div;
    hide Truncates;
    hide Sub;
    var a, b, e := Decimal(n, 0), Decimal(m, 0), Decimal(10000, 0);
    SubWhole(n, m);
    DivMeaning(Decimal(n - m, 0), b, 18, 0);
    AtOwnScale(b);
    AtOwnScale(Decimal(n - m, 0));
    AtOwnScale(e);
    var d := Div(Sub(a, b), b, 18).value;
    DivScale(Decimal(n - m, 0), b, 18);
    MulMeaning(d, e, 18, 0);
    MulScaleWhole(d, 10000);
    q := At(d, 18);
  }

  lemma SubWhole(n: int, m: int)
    ensures Sub(Decimal(n, 0), Decimal(m, 0)) == Decimal(n - m, 0)
  {
  }

  lemma DivScale(d: Decimal, o: Decimal, prec: Int32)
    requires Div(d, o, prec).Quotient? && prec >= 0
    ensures 0 <= Div(d, o, prec).value.scale <= prec
  {
    hide QuoAt;
    hide Normalize;
    NormalizeScale(Decimal(QuoAt(d, o, prec + o.scale - d.scale), prec));
  }

  lemma MulScaleWhole(d: Decimal, k: int)
    requires d.scale >= 0
    ensures Mul(d, Decimal(k, 0)).scale >= 0
  {
    hide Normalize;
    WrapId(d.scale);
    NormalizeScale(Decimal(d.val * k, d.scale));
  }

  lemma AbsAt(d: Decimal, s: int)
    requires s >= d.scale
    ensures AbsOf(d).scale == d.scale && At(AbsOf(d), s) == if At(d, s) < 0 then -At(d, s) else At(d, s)
  {
    hide Pow10;
    Arith.MulNeg(d.val, Pow10(s - d.scale));
    Arith.MulCancel(d.val, 0, Pow10(s - d.scale));
  }

  /** Whether a whole price is within a whole tolerance of another, decided on the truncated quotient. */
  lemma WithinWhole(n: int, m: int, tolerance: int) returns (q: int)
    requires n > 0 && m > 0 && n != m && tolerance > 0
    ensures Truncates(q * m, (n - m) * Pow10(18), m)
    ensures PriceMatches(Decimal(tolerance, 0), Decimal(n, 0), Decimal(m, 0)) <==>
            (if q < 0 then -(10000 * q) else 10000 * q) <= tolerance * Pow10(18)
  {
    hide Pow10;
    hide Truncates;
    hide BpsDiff;
    hide AbsOf;
    q := WholeBps(n, m);
    var d := BpsDiff(Decimal(n, 0), Decimal(m, 0)).value;
    AbsAt(d, 18);
    CmpMeaning(AbsOf(d), Decimal(tolerance, 0), 18);
    CmpWhole(n, m);
  }

  lemma CmpWhole(n: int, m: int)
    ensures Cmp(Decimal(n, 0), Decimal(m, 0)) == 0 <==> n == m
  {
  }

  lemma TenTo18()
    ensures Pow10(18) == 1000000000000000000
  {
    assert Pow10(6) == 1000000;
    Pow10Sum(6, 6);
    Pow10Sum(6, 12);
  }

  /** The basis-point difference is taken relative to the target, so it is not symmetric: 99 is within 100 points of 100,
      but 100 is not within 100 points of 99. */
  lemma BpsAsymmetric()
    ensures PriceMatches(Decimal(100, 0), Decimal(99, 0), Decimal(100, 0))
    ensures !PriceMatches(Decimal(100, 0), Decimal(100, 0), Decimal(99, 0))
  {
    hide PriceMatches;
    hide Pow10;
    TenTo18();
    var p := WithinWhole(99, 100, 100);
    var q := WithinWhole(100, 99, 100);
  }

  /** A ledger that is exactly the targets can be disturbed again at a positive tolerance: when the order for 99 is the older
      one, the target 100 takes it, and the target 99 cannot take the order for 100. */
  lemma TolerantNotFixpoint()
    ensures var ordered, targets := [Buy("1", 99), Buy("2", 100)], [BuyQuote(100), BuyQuote(99)];
            && Compatible(EXACT, ordered[1], targets[0]) && Compatible(EXACT, ordered[0], targets[1])
            && Assign(Decimal(100, 0), ordered, targets) == [0, -1]
  {
    hide PriceMatches;
    hide Cmp;
    BpsAsymmetric();
    var ordered, targets := [Buy("1", 99), Buy("2", 100)], [BuyQuote(100), BuyQuote(99)];
    CmpSelf(Decimal(1, 0));
    ExactSelf(99);
    ExactSelf(100);
    assert targets[..1] == [BuyQuote(100)] && targets[..1][..0] == [];
    assert Assign(Decimal(100, 0), ordered, []) == [];
    assert FirstFree(Decimal(100, 0), ordered, [], targets[0], 0) == 0;
    assert Assign(Decimal(100, 0), ordered, targets[..1]) == [0];
    assert FirstFree(Decimal(100, 0), ordered, [0], targets[1], 0) == -1;
  }

  lemma ExactSelf(price: int)
    ensures PriceMatches(EXACT, Decimal(price, 0), Decimal(price, 0))
  {
    CmpSelf(Decimal(price, 0));
  }
}
