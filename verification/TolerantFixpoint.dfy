/** When a tolerance leaves a ledger that is exactly its targets alone. The greedy matching serves the targets in order and
    gives each the oldest order it accepts, so an early target can take the order of a later one. Whether it can depends on the
    targets and the tolerance; whether it does depends on the ages of the orders. */
module TolerantFixpoint {
  import opened Wrappers
  import opened Decimals
  import opened Text
  import opened Ledger
  import opened QuoteDiff
  import opened SyncCycle
  import opened SyncOutcome

  /** The ledger holds the orders `os`, under the IDs `ids`, and nothing else. */
  ghost predicate HeldUnder(r: Resting, os: seq<RestingOrder>, ids: seq<string>) {
    && |ids| == |os|
    && (forall i | 0 <= i < |ids| :: ids[i] in r && r[ids[i]] == os[i].(orderID := ids[i]))
    && (forall i, j | 0 <= i < j < |ids| :: ids[i] != ids[j])
    && (forall id | id in r :: id in ids)
  }

  /** A matching `m` of the first targets with orders they accept that takes every order the next target accepts. */
  ghost predicate Starves(tolerance: Decimal, os: seq<RestingOrder>, targets: seq<Quote>, m: seq<nat>) {
    && |m| < |targets|
    && (forall j | 0 <= j < |m| :: m[j] < |os| && Compatible(tolerance, os[m[j]], targets[j]))
    && (forall i, j | 0 <= i < j < |m| :: m[i] != m[j])
    && (forall i: nat | i < |os| && Compatible(tolerance, os[i], targets[|m|]) :: i in m)
  }

  ghost predicate NobodyStarves(tolerance: Decimal, os: seq<RestingOrder>, targets: seq<Quote>) {
    forall m :: !Starves(tolerance, os, targets, m)
  }

  /** Every cycle over the ledger keeps all its orders and has no target to place. */
  ghost predicate LeftAlone(tolerance: Decimal, r: Resting, targets: seq<Quote>) {
    forall p | IsPlan(tolerance, p) && p.ledger == r && p.targets == targets :: p.toCancel == [] && p.unserved == []
  }

  lemma IDsDoNotMatter(tolerance: Decimal, o: RestingOrder, id: string, t: Quote)
    ensures Compatible(tolerance, o.(orderID := id), t) <==> Compatible(tolerance, o, t)
  {
  }

  // ---- nobody starves: the ledger is left alone ----

  ghost function IndexOfID(ids: seq<string>, id: string): (i: nat)
    requires id in ids
    ensures i < |ids| && ids[i] == id
  {
    var i :| 0 <= i < |ids| && ids[i] == id;
    i
  }

  /** The matching of the targets before the first unserved one. */
  ghost function ServedBefore(p: Plan, ids: seq<string>, k: nat): (m: seq<nat>)
    requires k <= |p.keeps|
    requires forall j | 0 <= j < k :: 0 <= p.keeps[j] < |p.ordered| && p.ordered[p.keeps[j]].orderID in ids
    ensures |m| == k
  {
    seq(k, j requires 0 <= j < k => IndexOfID(ids, p.ordered[p.keeps[j]].orderID))
  }

  /** Every target before the first unserved one is served. */
  lemma FirstUnserved(a: Assignment)
    requires Unserved(a) != []
    ensures forall j: nat | j < Unserved(a)[0] :: a[j] >= 0
  {
    UnservedCount(a);
    assert forall j: nat | j in Unserved(a) :: Unserved(a)[0] <= j;
  }

  lemma ServedListed(tolerance: Decimal, p: Plan, os: seq<RestingOrder>, ids: seq<string>, k: nat)
    requires IsPlan(tolerance, p) && HeldUnder(p.ledger, os, ids) && p.unserved != [] && k == p.unserved[0]
    ensures k < |p.keeps| && p.keeps[k] < 0
    ensures forall j | 0 <= j < k :: 0 <= p.keeps[j] < |p.ordered| && p.ordered[p.keeps[j]].orderID in ids
    ensures forall i, j | 0 <= i < j < k :: p.keeps[i] != p.keeps[j]
    ensures forall j | 0 <= j < k :: Compatible(tolerance, p.ordered[p.keeps[j]], p.targets[j])
  {
    hide Compatible, Older, Assign, Unserved;
    AssignIsMatching(tolerance, p.ordered, p.targets);
    FirstUnserved(p.keeps);
  }

  lemma UnservedStarves(tolerance: Decimal, p: Plan, os: seq<RestingOrder>, ids: seq<string>) returns (m: seq<nat>)
    requires IsPlan(tolerance, p) && HeldUnder(p.ledger, os, ids) && p.unserved != []
    ensures Starves(tolerance, os, p.targets, m)
  {
    hide Compatible, Older, Assign, Unserved;
    var k := p.unserved[0];
    ServedListed(tolerance, p, os, ids, k);
    m := ServedBefore(p, ids, k);
    forall j: nat | j < k
      ensures m[j] < |os| && Compatible(tolerance, os[m[j]], p.targets[j])
    {
      IDsDoNotMatter(tolerance, os[m[j]], ids[m[j]], p.targets[j]);
    }
    forall i: nat | i < |os| && Compatible(tolerance, os[i], p.targets[k])
      ensures i in m
    {
      TakenBefore(tolerance, p, os, ids, k, m, i);
    }
    hide IsPlan;
  }

  lemma TakenBefore(tolerance: Decimal, p: Plan, os: seq<RestingOrder>, ids: seq<string>, k: nat, m: seq<nat>, i: nat)
    requires IsPlan(tolerance, p) && HeldUnder(p.ledger, os, ids) && k < |p.keeps| && p.keeps[k] < 0
    requires forall j | 0 <= j < k :: 0 <= p.keeps[j] < |p.ordered| && p.ordered[p.keeps[j]].orderID in ids
    requires m == ServedBefore(p, ids, k)
    requires i < |os| && Compatible(tolerance, os[i], p.targets[k])
    ensures i in m
  {
    hide Compatible, Older, Assign;
    var a := p.keeps;
    AssignServesOldest(tolerance, p.ordered, p.targets);
    assert p.ledger[ids[i]] in p.ordered;
    var q :| 0 <= q < |p.ordered| && p.ordered[q] == p.ledger[ids[i]];
    IDsDoNotMatter(tolerance, os[i], ids[i], p.targets[k]);
    assert Uses(a[..k], q);
    var j :| 0 <= j < k && a[j] == q;
    assert ids[m[j]] == ids[i];
    assert m[j] == i;
  }

  lemma HeldSize(r: Resting, os: seq<RestingOrder>, ids: seq<string>)
    requires HeldUnder(r, os, ids)
    ensures |r| == |os|
  {
    SetOfIDs(r, ids);
  }

  lemma QuietWhenNobodyStarves(tolerance: Decimal, os: seq<RestingOrder>, targets: seq<Quote>, r: Resting, ids: seq<string>)
    requires NobodyStarves(tolerance, os, targets) && HeldUnder(r, os, ids) && |os| == |targets|
    ensures LeftAlone(tolerance, r, targets)
  {
    hide IsPlan, Starves, HeldUnder;
    forall p | IsPlan(tolerance, p) && p.ledger == r && p.targets == targets
      ensures p.toCancel == [] && p.unserved == []
    {
      if p.unserved != [] {
        var m := UnservedStarves(tolerance, p, os, ids);
      }
      PlanBalances(tolerance, p);
      HeldSize(r, os, ids);
    }
  }

  // ---- somebody starves: some ages disturb the ledger ----

  /** The indices below `n` that the matching leaves, in ascending order. */
  function Others(n: nat, m: seq<nat>): (s: seq<nat>)
    ensures forall k | 0 <= k < |s| :: s[k] < n && s[k] !in m
    ensures forall i: nat | i < n && i !in m :: i in s
    ensures forall j, k | 0 <= j < k < |s| :: s[j] < s[k]
  {
    if n == 0 then []
    else
      var s := Others(n - 1, m);
      if n - 1 in m then s else s + [n - 1]
  }

  ghost function PositionIn(m: seq<nat>, i: nat): (k: nat)
    requires i in m
    ensures k < |m| && m[k] == i
  {
    var k :| 0 <= k < |m| && m[k] == i;
    k
  }

  /** The age of each order: the matching's orders first, in its order, then the others. */
  ghost function Rank(m: seq<nat>, i: nat): nat {
    if i in m then PositionIn(m, i) else |m| + i
  }

  ghost function AgedIDs(n: nat, m: seq<nat>): (ids: seq<string>)
    ensures |ids| == n
  {
    seq(n, i requires 0 <= i < n => Digits(Rank(m, i) + 1))
  }

  lemma RanksDiffer(m: seq<nat>, i: nat, j: nat)
    requires i != j
    ensures Rank(m, i) != Rank(m, j)
  {
  }

  lemma OlderByNumber(x: nat, y: nat)
    requires x <= MAX_UINT64 && y <= MAX_UINT64
    ensures Older(Digits(x), Digits(y)) <==> x < y
    ensures Digits(x) == Digits(y) <==> x == y
  {
    hide Digits;
    NatOfDigits(x);
    NatOfDigits(y);
  }

  /** The ledger that holds the orders under these ages. */
  ghost function Aged(os: seq<RestingOrder>, ids: seq<string>): Resting
    requires |ids| == |os|
  {
    map id | id in ids :: os[IndexOfID(ids, id)].(orderID := id)
  }

  /** The matching's orders and then the others. */
  function AgeOrder(n: nat, m: seq<nat>): seq<nat> {
    m + Others(n, m)
  }

  ghost predicate Below(n: nat, at: seq<nat>) {
    forall q | 0 <= q < |at| :: at[q] < n
  }

  /** Its listing by age. */
  ghost function ByAge(os: seq<RestingOrder>, ids: seq<string>, at: seq<nat>): (ordered: seq<RestingOrder>)
    requires |ids| == |os| && Below(|os|, at)
    ensures |ordered| == |at|
  {
    seq(|at|, q requires 0 <= q < |at| => os[at[q]].(orderID := ids[at[q]]))
  }

  ghost predicate ValidMatching(n: nat, m: seq<nat>) {
    && (forall j | 0 <= j < |m| :: m[j] < n)
    && (forall i, j | 0 <= i < j < |m| :: m[i] != m[j])
  }

  lemma AgedIDsDiffer(n: nat, m: seq<nat>, i: nat, j: nat)
    requires |m| <= n <= MAX_UINT64 / 2 && i < n && j < n && i != j
    ensures AgedIDs(n, m)[i] != AgedIDs(n, m)[j]
  {
    hide Digits, Older, Rank;
    RanksDiffer(m, i, j);
    RankBound(n, m, i);
    RankBound(n, m, j);
    OlderByNumber(Rank(m, i) + 1, Rank(m, j) + 1);
  }

  lemma RankBound(n: nat, m: seq<nat>, i: nat)
    requires |m| <= n <= MAX_UINT64 / 2 && i < n
    ensures Rank(m, i) + 1 <= MAX_UINT64
  {
  }

  lemma AgedIsHeld(os: seq<RestingOrder>, m: seq<nat>)
    requires |m| <= |os| <= MAX_UINT64 / 2
    ensures var ids := AgedIDs(|os|, m); HeldUnder(Aged(os, ids), os, ids)
  {
    hide Digits, Rank;
    var ids := AgedIDs(|os|, m);
    forall i: nat, j: nat | i < j < |ids|
      ensures ids[i] != ids[j]
    {
      AgedIDsDiffer(|os|, m, i, j);
    }
    hide AgedIDs;
    forall i: nat | i < |ids|
      ensures ids[i] in Aged(os, ids) && Aged(os, ids)[ids[i]] == os[i].(orderID := ids[i])
    {
      assert IndexOfID(ids, ids[i]) == i;
    }
  }

  /** Along the matching and then the others, ranks grow. */
  lemma RanksGrow(n: nat, m: seq<nat>, p: nat, q: nat)
    requires ValidMatching(n, m) && p < q < |AgeOrder(n, m)|
    ensures Rank(m, AgeOrder(n, m)[p]) < Rank(m, AgeOrder(n, m)[q])
  {
    var at := AgeOrder(n, m);
    if q < |m| {
      assert at[p] == m[p] && at[q] == m[q];
    }
  }

  lemma AgeOrderCovers(n: nat, m: seq<nat>)
    requires ValidMatching(n, m)
    ensures Below(n, AgeOrder(n, m)) && forall i: nat | i < n :: i in AgeOrder(n, m)
  {
    forall i: nat | i < n
      ensures i in AgeOrder(n, m)
    {
      if i !in m {
        assert i in Others(n, m);
      }
    }
  }

  ghost predicate OldestFirstBy(ids: seq<string>, at: seq<nat>)
    requires Below(|ids|, at)
  {
    forall p, q | 0 <= p < q < |at| :: ids[at[p]] != ids[at[q]] && !Older(ids[at[q]], ids[at[p]])
  }

  lemma AgedOrder(n: nat, m: seq<nat>)
    requires ValidMatching(n, m) && |m| <= n <= MAX_UINT64 / 2 && Below(n, AgeOrder(n, m))
    ensures OldestFirstBy(AgedIDs(n, m), AgeOrder(n, m))
  {
    hide Digits, Older, Rank, AgeOrder;
    var ids, at := AgedIDs(n, m), AgeOrder(n, m);
    forall p: nat, q: nat | p < q < |at|
      ensures ids[at[p]] != ids[at[q]] && !Older(ids[at[q]], ids[at[p]])
    {
      RanksGrow(n, m, p, q);
      RankBound(n, m, at[p]);
      RankBound(n, m, at[q]);
      OlderByNumber(Rank(m, at[p]) + 1, Rank(m, at[q]) + 1);
      OlderByNumber(Rank(m, at[q]) + 1, Rank(m, at[p]) + 1);
    }
  }

  lemma ByAgeLists(os: seq<RestingOrder>, m: seq<nat>)
    requires ValidMatching(|os|, m) && |m| <= |os| <= MAX_UINT64 / 2
    ensures Below(|os|, AgeOrder(|os|, m))
    ensures var ids := AgedIDs(|os|, m);
            ListsByAge(Aged(os, ids), ByAge(os, ids, AgeOrder(|os|, m)))
  {
    hide AgedIDs, Aged, HeldUnder, ListsByAge, ByAge, AgeOrder, OldestFirstBy, ValidMatching, Below;
    var ids := AgedIDs(|os|, m);
    AgeOrderCovers(|os|, m);
    AgedIsHeld(os, m);
    AgedOrder(|os|, m);
    HeldIsListed(Aged(os, ids), os, ids, AgeOrder(|os|, m));
  }

  lemma HeldIsListed(r: Resting, os: seq<RestingOrder>, ids: seq<string>, at: seq<nat>)
    requires HeldUnder(r, os, ids) && Below(|os|, at) && (forall i: nat | i < |os| :: i in at) && OldestFirstBy(ids, at)
    ensures ListsByAge(r, ByAge(os, ids, at))
  {
    hide Older;
    var ordered := ByAge(os, ids, at);
    forall id | id in r
      ensures r[id].orderID == id && r[id] in ordered
    {
      var i := IndexOfID(ids, id);
      assert i in at;
      var q :| 0 <= q < |at| && at[q] == i;
      assert ordered[q] == r[id];
    }
  }

  // ---- the greedy matching under these ages ----

  lemma {:induction false} AssignPrefix(tolerance: Decimal, ordered: seq<RestingOrder>, targets: seq<Quote>, k: nat)
    requires k <= |targets|
    ensures Assign(tolerance, ordered, targets)[..k] == Assign(tolerance, ordered, targets[..k])
  {
    hide FirstFree;
    if k == |targets| {
      assert targets[..k] == targets;
    } else {
      var init := targets[..|targets| - 1];
      AssignPrefix(tolerance, ordered, init, k);
      assert init[..k] == targets[..k];
    }
  }

  /** The matching is what the greedy one does. */
  lemma {:induction false} AssignFollows(tolerance: Decimal, ordered: seq<RestingOrder>, targets: seq<Quote>, k: nat)
    requires k <= |targets| && k <= |ordered|
    requires forall j | 0 <= j < k :: Compatible(tolerance, ordered[j], targets[j])
    ensures Assign(tolerance, ordered, targets[..k]) == seq(k, j => j)
  {
    hide Compatible, FirstFree;
    if k > 0 {
      AssignFollows(tolerance, ordered, targets, k - 1);
      assert targets[..k][..k - 1] == targets[..k - 1];
      var used: Assignment := seq(k - 1, j => j);
      TakesNext(tolerance, ordered, targets[k - 1], used, k - 1);
      assert seq(k, j => j) == used + [k - 1];
    }
  }

  lemma UsedUpTo(used: Assignment, k: nat)
    requires used == seq(k, j => j)
    ensures forall j | 0 <= j < k :: Uses(used, j)
    ensures !Uses(used, k)
  {
    forall j | 0 <= j < k
      ensures Uses(used, j)
    {
      assert used[j] == j;
    }
  }

  lemma TakesNext(tolerance: Decimal, ordered: seq<RestingOrder>, t: Quote, used: Assignment, k: nat)
    requires used == seq(k, j => j) && k < |ordered| && Compatible(tolerance, ordered[k], t)
    ensures FirstFree(tolerance, ordered, used, t, 0) == k
  {
    hide Compatible;
    var f := FirstFree(tolerance, ordered, used, t, 0);
    UsedUpTo(used, k);
  }

  lemma FirstAccepted(tolerance: Decimal, os: seq<RestingOrder>, targets: seq<Quote>, m: seq<nat>, ids: seq<string>)
    requires Starves(tolerance, os, targets, m) && |ids| == |os| && Below(|os|, AgeOrder(|os|, m))
    ensures var ordered := ByAge(os, ids, AgeOrder(|os|, m));
            |m| <= |ordered| && forall j | 0 <= j < |m| :: Compatible(tolerance, ordered[j], targets[j])
  {
    hide Compatible, Others;
    var at := AgeOrder(|os|, m);
    forall j: nat | j < |m|
      ensures Compatible(tolerance, ByAge(os, ids, at)[j], targets[j])
    {
      assert at[j] == m[j];
      IDsDoNotMatter(tolerance, os[m[j]], ids[m[j]], targets[j]);
    }
  }

  lemma StarvedUnserved(tolerance: Decimal, os: seq<RestingOrder>, targets: seq<Quote>, m: seq<nat>, ids: seq<string>)
    requires Starves(tolerance, os, targets, m) && |ids| == |os| && Below(|os|, AgeOrder(|os|, m))
    ensures Assign(tolerance, ByAge(os, ids, AgeOrder(|os|, m)), targets)[|m|] < 0
  {
    hide Compatible, FirstFree, Others, ByAge;
    var k, ordered := |m|, ByAge(os, ids, AgeOrder(|os|, m));
    FirstAccepted(tolerance, os, targets, m, ids);
    NothingFree(tolerance, os, targets, m, ids, seq(k, j => j));
    hide Starves;
    AssignFollows(tolerance, ordered, targets, k);
    LastAssigned(tolerance, ordered, targets, k);
  }

  lemma LastAssigned(tolerance: Decimal, ordered: seq<RestingOrder>, targets: seq<Quote>, k: nat)
    requires k < |targets|
    ensures Assign(tolerance, ordered, targets)[k] ==
            FirstFree(tolerance, ordered, Assign(tolerance, ordered, targets[..k]), targets[k], 0)
  {
    hide FirstFree;
    AssignPrefix(tolerance, ordered, targets, k + 1);
    assert targets[..k + 1][..k] == targets[..k];
    assert Assign(tolerance, ordered, targets)[..k + 1][k] == Assign(tolerance, ordered, targets)[k];
  }

  lemma NothingFree(tolerance: Decimal, os: seq<RestingOrder>, targets: seq<Quote>, m: seq<nat>, ids: seq<string>, used: Assignment)
    requires Starves(tolerance, os, targets, m) && |ids| == |os| && Below(|os|, AgeOrder(|os|, m)) && used == seq(|m|, j => j)
    ensures FirstFree(tolerance, ByAge(os, ids, AgeOrder(|os|, m)), used, targets[|m|], 0) == -1
  {
    hide Compatible;
    var at := AgeOrder(|os|, m);
    var f := FirstFree(tolerance, ByAge(os, ids, at), used, targets[|m|], 0);
    forall q: nat | q < |at|
      ensures Compatible(tolerance, ByAge(os, ids, at)[q], targets[|m|]) ==> q < |m|
    {
      IDsDoNotMatter(tolerance, os[at[q]], ids[at[q]], targets[|m|]);
      if q >= |m| {
        assert at[q] == Others(|os|, m)[q - |m|];
      }
    }
    UsedUpTo(used, |m|);
  }

  /** The orders an assignment leaves unused. */
  function Unkept(ordered: seq<RestingOrder>, a: Assignment, n: nat): (s: seq<RestingOrder>)
    requires n <= |ordered|
    ensures forall o :: o in s <==> exists j :: 0 <= j < n && ordered[j] == o && !Uses(a, j)
    ensures |s| <= n
  {
    if n == 0 then []
    else
      var s := Unkept(ordered, a, n - 1);
      if Uses(a, n - 1) then s else s + [ordered[n - 1]]
  }

  lemma {:induction false} UnkeptDistinct(ordered: seq<RestingOrder>, a: Assignment, n: nat)
    requires n <= |ordered| && forall i, j | 0 <= i < j < |ordered| :: ordered[i].orderID != ordered[j].orderID
    ensures forall k, l | 0 <= k < l < |Unkept(ordered, a, n)| ::
              Unkept(ordered, a, n)[k].orderID != Unkept(ordered, a, n)[l].orderID
  {
    if n > 0 {
      UnkeptDistinct(ordered, a, n - 1);
      var s := Unkept(ordered, a, n - 1);
      forall k: nat | k < |s|
        ensures s[k].orderID != ordered[n - 1].orderID
      {
        assert s[k] in s;
      }
    }
  }

  ghost function PlanOver(tolerance: Decimal, r: Resting, ordered: seq<RestingOrder>, targets: seq<Quote>): Plan {
    var a := Assign(tolerance, ordered, targets);
    Plan(r, ordered, targets, a, Unkept(ordered, a, |ordered|), Unserved(a))
  }

  lemma UnkeptListed(r: Resting, ordered: seq<RestingOrder>, a: Assignment)
    requires Lists(r, ordered)
    ensures var u := Unkept(ordered, a, |ordered|);
            && (forall k | 0 <= k < |u| :: u[k].orderID in r && r[u[k].orderID] == u[k])
            && (forall j | 0 <= j < |ordered| :: ordered[j] in u <==> !Uses(a, j))
  {
    var u := Unkept(ordered, a, |ordered|);
    forall k: nat | k < |u|
      ensures u[k].orderID in r && r[u[k].orderID] == u[k]
    {
      assert u[k] in u;
    }
    hide Unkept, Uses;
  }

  /** Every ledger listed by age has a plan. */
  lemma PlanExists(tolerance: Decimal, r: Resting, ordered: seq<RestingOrder>, targets: seq<Quote>)
    requires ListsByAge(r, ordered)
    ensures IsPlan(tolerance, PlanOver(tolerance, r, ordered, targets))
  {
    hide Compatible, Older, Assign, Unserved, OldestFirst;
    var p := PlanOver(tolerance, r, ordered, targets);
    UnkeptListed(r, ordered, p.keeps);
    UnkeptDistinct(ordered, p.keeps, |ordered|);
    hide Unkept;
    assert p.ledger == r && p.ordered == ordered;
  }

  ghost function SetOf(m: seq<nat>): set<nat> {
    set x | x in m
  }

  lemma MatchingFits(n: nat, m: seq<nat>)
    requires ValidMatching(n, m)
    ensures |m| <= n
  {
    DistinctSize(m);
    SmallSet(n, SetOf(m));
  }

  lemma {:induction false} DistinctSize(m: seq<nat>)
    requires forall i, j | 0 <= i < j < |m| :: m[i] != m[j]
    ensures |SetOf(m)| == |m|
  {
    if m != [] {
      var init, x := m[..|m| - 1], m[|m| - 1];
      DistinctSize(init);
      assert m == init + [x];
      assert SetOf(m) == SetOf(init) + {x};
      assert x !in SetOf(init);
    } else {
      assert SetOf(m) == {};
    }
  }

  lemma {:induction false} SmallSet(n: nat, s: set<nat>)
    requires forall x | x in s :: x < n
    ensures |s| <= n
  {
    if n == 0 {
      assert forall x :: x !in s;
      assert s == {};
    } else {
      var t := s - {n - 1};
      SmallSet(n - 1, t);
      assert |s| <= |t| + 1 by {
        if n - 1 in s {
          assert s == t + {n - 1};
        } else {
          assert s == t;
        }
      }
    }
  }

  lemma DisturbedWhenStarving(tolerance: Decimal, os: seq<RestingOrder>, targets: seq<Quote>, m: seq<nat>)
    requires Starves(tolerance, os, targets, m) && |os| == |targets| <= MAX_UINT64 / 2
    ensures var ids := AgedIDs(|os|, m);
            HeldUnder(Aged(os, ids), os, ids) && !LeftAlone(tolerance, Aged(os, ids), targets)
  {
    hide Compatible, Older, Assign, Unserved, Others, Rank, Digits, IsPlan, ListsByAge, HeldUnder, Aged;
    assert ValidMatching(|os|, m);
    MatchingFits(|os|, m);
    AgedIsHeld(os, m);
    ByAgeLists(os, m);
    var ids := AgedIDs(|os|, m);
    var r, ordered := Aged(os, ids), ByAge(os, ids, AgeOrder(|os|, m));
    StarvedUnserved(tolerance, os, targets, m, ids);
    PlanExists(tolerance, r, ordered, targets);
    var p := PlanOver(tolerance, r, ordered, targets);
    assert |m| in p.unserved;
    assert IsPlan(tolerance, p) && p.ledger == r && p.targets == targets && p.unserved != [];
  }

  /** Whatever orders stand for the targets, at any tolerance: every ledger that holds exactly these orders is left alone,
      whatever their ages, exactly when no first few targets can be matched with orders they accept so that the next target
      finds all the orders it accepts taken. The number of targets is that of a slice. */
  lemma LeftAloneIffNobodyStarves(tolerance: Decimal, os: seq<RestingOrder>, targets: seq<Quote>)
    requires |os| == |targets| <= MAX_UINT64 / 2
    ensures NobodyStarves(tolerance, os, targets) <==>
            forall r, ids | HeldUnder(r, os, ids) :: LeftAlone(tolerance, r, targets)
  {
    hide Starves, HeldUnder, LeftAlone, AgedIDs, Aged;
    if NobodyStarves(tolerance, os, targets) {
      forall r, ids | HeldUnder(r, os, ids)
        ensures LeftAlone(tolerance, r, targets)
      {
        QuietWhenNobodyStarves(tolerance, os, targets, r, ids);
      }
    } else {
      var m :| Starves(tolerance, os, targets, m);
      assert |m| < |targets| by { StarvesShort(tolerance, os, targets, m); }
      DisturbedWhenStarving(tolerance, os, targets, m);
    }
  }

  lemma StarvesShort(tolerance: Decimal, os: seq<RestingOrder>, targets: seq<Quote>, m: seq<nat>)
    requires Starves(tolerance, os, targets, m)
    ensures |m| < |targets|
  {
  }

  // ---- in terms of the targets ----

  /** The orders that stand for the targets. */
  function Mirror(targets: seq<Quote>): (os: seq<RestingOrder>)
    ensures |os| == |targets|
  {
    seq(|targets|, i requires 0 <= i < |targets| => PlacedOrder(targets[i], ""))
  }

  ghost predicate AllFitIn(r: Resting, targets: seq<Quote>) {
    && (forall id | id in r :: Fits(r[id].price) && Fits(r[id].amount))
    && (forall i | 0 <= i < |targets| :: Fits(targets[i].price) && Fits(targets[i].amount))
  }

  /** No price is written as a multiple of ten, as parsed ones never are. */
  predicate WrittenOut(targets: seq<Quote>) {
    forall i | 0 <= i < |targets| :: targets[i].price.scale >= 0
  }

  /** The difference of a price to a written-out one is one decimal, however the price is written. */
  lemma SameDifference(a: Decimal, b: Decimal, target: Decimal)
    requires Fits(a) && Fits(b) && Fits(target) && target.scale >= 0 && Cmp(a, b) == 0
    ensures Sub(a, target) == Sub(b, target)
  {
    hide Pow10, Cmp, Sub;
    var s := if a.scale > target.scale then a.scale as int else target.scale;
    var t := if b.scale > s then b.scale as int else s;
    CmpMeaning(a, b, t);
    AddSubMeaning(a, target, t);
    AddSubMeaning(b, target, t);
    DifferenceNormal(a, target);
    DifferenceNormal(b, target);
    NormalFormUnique(Sub(a, target), Sub(b, target));
    CmpMeaning(Sub(a, target), Sub(b, target), t);
  }

  lemma DifferenceNormal(a: Decimal, target: Decimal)
    requires target.scale >= 0
    ensures IsNormal(Sub(a, target)) && Sub(a, target).scale >= 0
  {
    hide BigExp10, StripZeros;
    var (x, y) := AlignScale(a, target);
    NormalizeScale(Decimal(x.val - y.val, x.scale));
    NormalizeMeaning(Decimal(x.val - y.val, x.scale), x.scale);
  }

  lemma SamePriceMatch(tolerance: Decimal, a: Decimal, b: Decimal, target: Decimal)
    requires Fits(a) && Fits(b) && Fits(target) && target.scale >= 0 && Cmp(a, b) == 0
    ensures PriceMatches(tolerance, a, target) <==> PriceMatches(tolerance, b, target)
  {
    hide Cmp, Sub, Div, Mul;
    SameDifference(a, b, target);
    CmpChain(a, b, target);
    CmpChain(b, a, target);
  }

  lemma StandsAlike(tolerance: Decimal, o: RestingOrder, own: Quote, t: Quote)
    requires Compatible(EXACT, o, own) && t.price.scale >= 0
    requires Fits(o.price) && Fits(o.amount) && Fits(own.price) && Fits(own.amount) && Fits(t.price) && Fits(t.amount)
    ensures Compatible(tolerance, o, t) <==> Compatible(tolerance, PlacedOrder(own, ""), t)
  {
    hide Cmp, BpsDiff;
    assert Cmp(o.price, own.price) == 0;
    SamePriceMatch(tolerance, o.price, own.price, t.price);
    CmpChain(o.amount, own.amount, t.amount);
    CmpChain(own.amount, o.amount, t.amount);
  }

  ghost predicate Alike(tolerance: Decimal, os: seq<RestingOrder>, mirror: seq<RestingOrder>, targets: seq<Quote>) {
    && |os| == |mirror|
    && forall i, k | 0 <= i < |os| && 0 <= k < |targets| ::
         Compatible(tolerance, os[i], targets[k]) <==> Compatible(tolerance, mirror[i], targets[k])
  }

  lemma AlikeStarve(tolerance: Decimal, os: seq<RestingOrder>, mirror: seq<RestingOrder>, targets: seq<Quote>)
    requires Alike(tolerance, os, mirror, targets)
    ensures NobodyStarves(tolerance, os, targets) <==> NobodyStarves(tolerance, mirror, targets)
  {
    hide Compatible;
    forall m
      ensures Starves(tolerance, os, targets, m) <==> Starves(tolerance, mirror, targets, m)
    {
    }
  }

  lemma RealizedQuiet(tolerance: Decimal, targets: seq<Quote>, r: Resting, ids: seq<string>)
    requires NobodyStarves(tolerance, Mirror(targets), targets) && WrittenOut(targets)
    requires RealizedBy(r, targets, ids) && AllFitIn(r, targets) && Keyed(r)
    ensures LeftAlone(tolerance, r, targets)
  {
    hide Compatible, PlacedOrder;
    var os := seq(|ids|, i requires 0 <= i < |ids| => r[ids[i]]);
    forall i: nat, k: nat | i < |os| && k < |targets|
      ensures Compatible(tolerance, os[i], targets[k]) <==> Compatible(tolerance, Mirror(targets)[i], targets[k])
    {
      StandsAlike(tolerance, os[i], targets[i], targets[k]);
    }
    hide AllFitIn, NobodyStarves, LeftAlone;
    AlikeStarve(tolerance, os, Mirror(targets), targets);
    assert HeldUnder(r, os, ids);
    QuietWhenNobodyStarves(tolerance, os, targets, r, ids);
  }

  lemma UnkeyedHasNoPlan(tolerance: Decimal, targets: seq<Quote>, r: Resting)
    requires !Keyed(r)
    ensures LeftAlone(tolerance, r, targets)
  {
    hide Keyed, Older, Assign;
  }

  lemma MirrorRealizes(r: Resting, targets: seq<Quote>, ids: seq<string>)
    requires HeldUnder(r, Mirror(targets), ids)
    requires forall i | 0 <= i < |targets| :: Fits(targets[i].price) && Fits(targets[i].amount)
    ensures RealizedBy(r, targets, ids) && AllFitIn(r, targets)
  {
    hide Compatible, Fits;
    forall i: nat | i < |ids|
      ensures Compatible(EXACT, r[ids[i]], targets[i])
    {
      PlacedCompatible(targets[i], ids[i]);
    }
  }

  /** At any tolerance: every ledger that realizes the targets is left alone, whatever the ages of its orders, exactly when no
      first few targets can be matched with the orders of targets they accept so that the next target finds every order it
      accepts taken. */
  lemma FixpointIffNobodyStarves(tolerance: Decimal, targets: seq<Quote>)
    requires |targets| <= MAX_UINT64 / 2 && WrittenOut(targets)
    requires forall i | 0 <= i < |targets| :: Fits(targets[i].price) && Fits(targets[i].amount)
    ensures NobodyStarves(tolerance, Mirror(targets), targets) <==>
            forall r, ids | RealizedBy(r, targets, ids) && AllFitIn(r, targets) :: LeftAlone(tolerance, r, targets)
  {
    hide Starves, HeldUnder, LeftAlone, RealizedBy, AllFitIn, Mirror, Fits, WrittenOut, Keyed;
    LeftAloneIffNobodyStarves(tolerance, Mirror(targets), targets);
    if NobodyStarves(tolerance, Mirror(targets), targets) {
      forall r, ids | RealizedBy(r, targets, ids) && AllFitIn(r, targets)
        ensures LeftAlone(tolerance, r, targets)
      {
        if Keyed(r) {
          RealizedQuiet(tolerance, targets, r, ids);
        } else {
          UnkeyedHasNoPlan(tolerance, targets, r);
        }
      }
    } else {
      var r, ids :| HeldUnder(r, Mirror(targets), ids) && !LeftAlone(tolerance, r, targets);
      MirrorRealizes(r, targets, ids);
    }
  }

  /** For the targets 100 and 99 a tolerance of 100 points starves the second: the first accepts the order for 99, and the
      second does not accept the order for 100. */
  lemma NeighboursStarve()
    ensures var targets := [BuyQuote(100), BuyQuote(99)];
            Starves(Decimal(100, 0), Mirror(targets), targets, [1])
  {
    hide PriceMatches;
    BpsAsymmetric();
    CmpSelf(Decimal(1, 0));
  }
}
