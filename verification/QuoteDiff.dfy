/** Matching resting orders with desired quotes: the age order of the ledger, the greedy matching `Sync` runs over it, and
    what that matching guarantees. */
module QuoteDiff {
  import opened Wrappers
  import opened Decimals
  import opened Text
  import opened DecimalText
  import opened Ledger
  import opened Counting

  datatype Quote = Quote(side: string, price: Decimal, amount: Decimal, clientOrderID: string)

  // ---- age ----

  function LexLess(a: string, b: string): bool {
    if b == "" then false
    else if a == "" then true
    else a[0] < b[0] || (a[0] == b[0] && LexLess(a[1..], b[1..]))
  }

  /** The comparator of `restingOrdersByAge`: numbers by value, then everything else by text. */
  predicate Older(a: string, b: string) {
    var m, n := ParseUint64(a), ParseUint64(b);
    if m.Some? && n.Some? then m.value < n.value
    else if m.Some? || n.Some? then m.Some?
    else LexLess(a, b)
  }

  /** An ID is older than another when both are numbers and its number is smaller, when only it is a number, or when neither
      is and its text comes first: it is a proper prefix of the other, or has the smaller character where they first differ. */
  lemma OlderMeans(a: string, b: string)
    ensures Older(a, b) <==>
      if ParseUint64(a).Some? && ParseUint64(b).Some? then ParseUint64(a).value < ParseUint64(b).value
      else if ParseUint64(a).Some? || ParseUint64(b).Some? then ParseUint64(a).Some?
      else exists k: nat :: FirstDifference(a, b, k) && k < |b| && (k == |a| || a[k] < b[k])
  {
    hide ParseUint64;
    LexMeans(a, b);
  }

  ghost predicate FirstDifference(a: string, b: string, k: nat) {
    k <= |a| && k <= |b| && a[..k] == b[..k] && (k < |a| && k < |b| ==> a[k] != b[k])
  }

  lemma {:induction false} LexMeans(a: string, b: string)
    ensures LexLess(a, b) <==> exists k: nat :: FirstDifference(a, b, k) && k < |b| && (k == |a| || a[k] < b[k])
  {
    if a == "" || b == "" || a[0] != b[0] {
      assert FirstDifference(a, b, 0);
    } else {
      LexMeans(a[1..], b[1..]);
      if k: nat :| FirstDifference(a[1..], b[1..], k) && k < |b[1..]| && (k == |a[1..]| || a[1..][k] < b[1..][k]) {
        assert a[..k + 1] == [a[0]] + a[1..][..k] && b[..k + 1] == [b[0]] + b[1..][..k];
        assert FirstDifference(a, b, k + 1);
      }
      if k: nat :| FirstDifference(a, b, k) && k < |b| && (k == |a| || a[k] < b[k]) {
        assert k > 0;
        assert a[..k][1..] == a[1..][..k - 1] && b[..k][1..] == b[1..][..k - 1];
        assert FirstDifference(a[1..], b[1..], k - 1);
      }
    }
  }

  predicate Tied(a: string, b: string) {
    !Older(a, b) && !Older(b, a)
  }

  lemma {:induction false} LexOrder(a: string, b: string)
    ensures LexLess(a, b) || LexLess(b, a) || a == b
    ensures !LexLess(a, a) && !(LexLess(a, b) && LexLess(b, a))
  {
    if a != "" {
      LexOrder(a[1..], if b == "" then "" else b[1..]);
      if b != "" && a[0] == b[0] && a[1..] == b[1..] {
        assert a == [a[0]] + a[1..] && b == [b[0]] + b[1..];
      }
    }
  }

  lemma {:induction false} LexTransitive(a: string, b: string, c: string)
    ensures LexLess(a, b) && LexLess(b, c) ==> LexLess(a, c)
  {
    if a != "" && b != "" && c != "" {
      LexTransitive(a[1..], b[1..], c[1..]);
    }
  }

  /** The comparator is a strict weak order. */
  lemma OlderIsStrictWeak(a: string, b: string, c: string)
    ensures !Older(a, a)
    ensures Older(a, b) && Older(b, c) ==> Older(a, c)
    ensures Tied(a, b) && Tied(b, c) ==> Tied(a, c)
  {
    LexOrder(a, a);
    LexOrder(a, b);
    LexOrder(b, c);
    LexTransitive(a, b, c);
  }

  /** A number's text without superfluous zeros. Texts that are not numbers are all canonical. */
  predicate CanonicalID(id: string) {
    ParseUint64(id).Some? && |id| > 1 ==> id[0] != '0'
  }

  lemma {:induction false} CanonicalNumeral(id: string)
    requires id != "" && AllDigits(id) && (|id| > 1 ==> id[0] != '0')
    ensures Digits(NatOf(id)) == id
    decreases |id|
  {
    if |id| > 1 {
      var init := id[..|id| - 1];
      CanonicalNumeral(init);
      LeadingDigit(init);
      assert id == init + [id[|id| - 1]];
    } else {
      assert id[..0] == "";
    }
  }

  lemma {:induction false} LeadingDigit(s: string)
    requires s != "" && AllDigits(s) && s[0] != '0'
    ensures NatOf(s) > 0
    decreases |s|
  {
    if |s| > 1 {
      LeadingDigit(s[..|s| - 1]);
    } else {
      assert s[..0] == "";
    }
  }

  /** Two IDs tie exactly when they are equal or are two texts of one number. So ages are total on canonical IDs. */
  lemma TiedIDs(a: string, b: string)
    ensures Tied(a, b) <==> a == b || (ParseUint64(a).Some? && ParseUint64(a) == ParseUint64(b))
    ensures CanonicalID(a) && CanonicalID(b) ==> (Tied(a, b) <==> a == b)
  {
    LexOrder(a, b);
    if ParseUint64(a).Some? && ParseUint64(a) == ParseUint64(b) && CanonicalID(a) && CanonicalID(b) {
      CanonicalNumeral(a);
      CanonicalNumeral(b);
    }
  }

  // ---- the ledger listed by age ----

  ghost predicate Keyed(r: Resting) {
    forall id | id in r :: r[id].orderID == id
  }

  ghost predicate Lists(r: Resting, ordered: seq<RestingOrder>) {
    && Keyed(r)
    && (forall i | 0 <= i < |ordered| :: ordered[i].orderID in r && r[ordered[i].orderID] == ordered[i])
    && (forall i, j | 0 <= i < j < |ordered| :: ordered[i].orderID != ordered[j].orderID)
    && (forall id | id in r :: r[id] in ordered)
  }

  ghost predicate OldestFirst(ordered: seq<RestingOrder>) {
    forall i, j | 0 <= i < j < |ordered| :: !Older(ordered[j].orderID, ordered[i].orderID)
  }

  /** Any result of sorting the ledger's entries by the comparator. */
  ghost predicate ListsByAge(r: Resting, ordered: seq<RestingOrder>) {
    Lists(r, ordered) && OldestFirst(ordered)
  }

  /** `restingOrdersByAge`, taking the map's entries in arbitrary order. */
  method RestingOrdersByAge(r: Resting) returns (ordered: seq<RestingOrder>)
    requires Keyed(r)
    ensures ListsByAge(r, ordered)
  {
    ordered := [];
    var left := r.Keys;
    ghost var done: Resting := map[];
    while left != {}
      invariant left <= r.Keys && done == r - left
      invariant ListsByAge(done, ordered)
    {
      var id :| id in left;
      left := left - {id};
      ordered := InsertByAge(done, ordered, r[id]);
      done := done[id := r[id]];
      assert done == r - left;
    }
    assert done == r;
  }

  method InsertByAge(ghost r: Resting, ordered: seq<RestingOrder>, o: RestingOrder) returns (result: seq<RestingOrder>)
    requires ListsByAge(r, ordered) && o.orderID !in r
    ensures ListsByAge(r[o.orderID := o], result)
  {
    hide Older;
    var k := |ordered|;
    while k > 0 && Older(o.orderID, ordered[k - 1].orderID)
      invariant 0 <= k <= |ordered|
      invariant forall j | k <= j < |ordered| :: Older(o.orderID, ordered[j].orderID)
    {
      k := k - 1;
    }
    result := ordered[..k] + [o] + ordered[k..];
    InsertedListing(r, ordered, o, k, result);
    InsertedOrder(ordered, o, k, result);
  }

  lemma InsertedListing(r: Resting, ordered: seq<RestingOrder>, o: RestingOrder, k: nat, result: seq<RestingOrder>)
    requires Lists(r, ordered) && o.orderID !in r && k <= |ordered|
    requires result == ordered[..k] + [o] + ordered[k..]
    ensures Lists(r[o.orderID := o], result)
  {
    InsertedAt(ordered, o, k, result);
    var s := r[o.orderID := o];
    forall i | 0 <= i < |result|
      ensures result[i].orderID in s && s[result[i].orderID] == result[i]
    {
    }
    forall id | id in s
      ensures s[id] in result
    {
      if id != o.orderID {
        var j :| 0 <= j < |ordered| && ordered[j] == r[id];
        assert result[if j < k then j else j + 1] == r[id];
      } else {
        assert result[k] == o;
      }
    }
    forall i, j | 0 <= i < j < |result|
      ensures result[i].orderID != result[j].orderID
    {
    }
  }

  lemma InsertedAt(ordered: seq<RestingOrder>, o: RestingOrder, k: nat, result: seq<RestingOrder>)
    requires k <= |ordered| && result == ordered[..k] + [o] + ordered[k..]
    ensures |result| == |ordered| + 1
    ensures forall i | 0 <= i < |result| :: result[i] == if i < k then ordered[i] else if i == k then o else ordered[i - 1]
  {
  }

  lemma InsertedOrder(ordered: seq<RestingOrder>, o: RestingOrder, k: nat, result: seq<RestingOrder>)
    requires OldestFirst(ordered) && k <= |ordered|
    requires k > 0 ==> !Older(o.orderID, ordered[k - 1].orderID)
    requires forall j | k <= j < |ordered| :: Older(o.orderID, ordered[j].orderID)
    requires result == ordered[..k] + [o] + ordered[k..]
    ensures OldestFirst(result)
  {
    hide Older;
    InsertedAt(ordered, o, k, result);
    forall i, j | 0 <= i < j < |result|
      ensures !Older(result[j].orderID, result[i].orderID)
    {
      if j == k {
        if i < k - 1 {
          NotOlderTransitive(o.orderID, ordered[k - 1].orderID, ordered[i].orderID);
        }
      } else if i == k {
        OlderIsStrictWeak(ordered[j - 1].orderID, o.orderID, ordered[j - 1].orderID);
      }
    }
  }

  lemma NotOlderTransitive(a: string, b: string, c: string)
    requires !Older(a, b) && !Older(b, c)
    ensures !Older(a, c)
  {
    hide Older;
    OlderIsStrictWeak(a, c, b);
    OlderIsStrictWeak(b, a, c);
    OlderIsStrictWeak(a, b, c);
    OlderIsStrictWeak(c, b, a);
  }

  /** With canonical IDs, the listing by age depends on the ledger's contents only, not on the map's iteration order. */
  lemma {:induction false} AgeListingUnique(r: Resting, a: seq<RestingOrder>, b: seq<RestingOrder>)
    requires ListsByAge(r, a) && ListsByAge(r, b)
    requires forall id | id in r :: CanonicalID(id)
    ensures a == b
    decreases |a|
  {
    hide ListsByAge;
    hide CanonicalID;
    ListsByAgeLists(r, a);
    ListsByAgeLists(r, b);
    hide Lists;
    EmptyListing(r, a);
    EmptyListing(r, b);
    if a != [] {
      var x := a[|a| - 1];
      LastOfListing(r, a, b);
      var s := r - {x.orderID};
      DropLast(r, a);
      DropLast(r, b);
      AgeListingUnique(s, a[..|a| - 1], b[..|b| - 1]);
      assert a == a[..|a| - 1] + [x];
      assert b == b[..|b| - 1] + [x];
    }
  }

  lemma ListsByAgeLists(r: Resting, a: seq<RestingOrder>)
    requires ListsByAge(r, a)
    ensures Lists(r, a)
    ensures a != [] ==> a[|a| - 1].orderID in r
  {
  }

  lemma EmptyListing(r: Resting, a: seq<RestingOrder>)
    requires Lists(r, a)
    ensures a == [] <==> r == map[]
  {
    if a != [] {
      assert a[0].orderID in r;
    }
    if id :| id in r {
      assert r[id] in a;
    } else {
      assert r == map[];
    }
  }

  lemma LastOfListing(r: Resting, a: seq<RestingOrder>, b: seq<RestingOrder>)
    requires ListsByAge(r, a) && ListsByAge(r, b) && a != []
    requires forall id | id in r :: CanonicalID(id)
    ensures b != [] && a[|a| - 1] == b[|b| - 1]
  {
    hide Older;
    hide CanonicalID;
    var x := a[|a| - 1];
    assert x.orderID in r && r[x.orderID] in b;
    var y := b[|b| - 1];
    assert y.orderID in r && r[y.orderID] in a;
    var i :| 0 <= i < |b| && b[i] == x;
    var j :| 0 <= j < |a| && a[j] == y;
    OlderIsStrictWeak(x.orderID, y.orderID, x.orderID);
    OlderIsStrictWeak(y.orderID, x.orderID, y.orderID);
    TiedIDs(x.orderID, y.orderID);
  }

  lemma DropLast(r: Resting, a: seq<RestingOrder>)
    requires ListsByAge(r, a) && a != []
    ensures ListsByAge(r - {a[|a| - 1].orderID}, a[..|a| - 1])
  {
    hide Older;
    var x := a[|a| - 1];
    var s := r - {x.orderID};
    forall id | id in s
      ensures s[id] in a[..|a| - 1]
    {
      var i :| 0 <= i < |a| && a[i] == r[id];
      assert i != |a| - 1;
      assert a[..|a| - 1][i] == r[id];
    }
  }

  // ---- compatibility ----

  /** The basis-point difference of two prices, when it can be computed. */
  function BpsDiff(a: Decimal, b: Decimal): Option<Decimal> {
    match Div(Sub(a, b), b, 18)
    case Failed(_) => None
    case Quotient(q) => Some(Mul(q, Decimal(10000, 0)))
  }

  function AbsOf(d: Decimal): Decimal {
    if d.val < 0 then Neg(d) else d
  }

  predicate PriceMatches(tolerance: Decimal, a: Decimal, b: Decimal) {
    || Cmp(a, b) == 0
    || (IsPositive(tolerance) && BpsDiff(a, b).Some? && Cmp(AbsOf(BpsDiff(a, b).value), tolerance) <= 0)
  }

  predicate Compatible(tolerance: Decimal, o: RestingOrder, t: Quote) {
    o.side == t.side && PriceMatches(tolerance, o.price, t.price) && Cmp(o.amount, t.amount) == 0
  }

  // ---- the greedy matching ----

  /** For each target the position of the order kept for it, or -1. */
  type Assignment = seq<int>

  predicate Uses(a: Assignment, j: int) {
    j in a
  }

  /** The oldest order from position `j` on that is free and compatible. */
  function FirstFree(tolerance: Decimal, ordered: seq<RestingOrder>, used: Assignment, t: Quote, j: nat): (r: int)
    requires j <= |ordered|
    ensures r == -1 || j <= r < |ordered|
    ensures r >= 0 ==> !Uses(used, r) && Compatible(tolerance, ordered[r], t)
    ensures forall i | j <= i < (if r < 0 then |ordered| else r) :: Uses(used, i) || !Compatible(tolerance, ordered[i], t)
    decreases |ordered| - j
  {
    if j == |ordered| then -1
    else if !Uses(used, j) && Compatible(tolerance, ordered[j], t) then j
    else FirstFree(tolerance, ordered, used, t, j + 1)
  }

  function Assign(tolerance: Decimal, ordered: seq<RestingOrder>, targets: seq<Quote>): (a: Assignment)
    ensures |a| == |targets|
  {
    if targets == [] then []
    else
      var a := Assign(tolerance, ordered, targets[..|targets| - 1]);
      a + [FirstFree(tolerance, ordered, a, targets[|targets| - 1], 0)]
  }

  ghost predicate IsMatching(tolerance: Decimal, ordered: seq<RestingOrder>, targets: seq<Quote>, a: Assignment) {
    && |a| == |targets|
    && (forall i | 0 <= i < |a| :: a[i] == -1 || 0 <= a[i] < |ordered|)
    && (forall i | 0 <= i < |a| && a[i] >= 0 :: Compatible(tolerance, ordered[a[i]], targets[i]))
    && (forall i, j | 0 <= i < j < |a| && a[i] >= 0 :: a[i] != a[j])
  }

  /** Each kept order was the oldest free compatible one when its target was served. */
  ghost predicate ServedOldest(tolerance: Decimal, ordered: seq<RestingOrder>, targets: seq<Quote>, a: Assignment)
    requires |a| == |targets|
  {
    forall i, j | 0 <= i < |a| && 0 <= j < (if a[i] < 0 then |ordered| else if a[i] <= |ordered| then a[i] else 0) ::
      Uses(a[..i], j) || !Compatible(tolerance, ordered[j], targets[i])
  }

  /** The keep relation is a matching: every kept order is compatible with its target and is kept for one target only. */
  lemma {:induction false} AssignIsMatching(tolerance: Decimal, ordered: seq<RestingOrder>, targets: seq<Quote>)
    ensures IsMatching(tolerance, ordered, targets, Assign(tolerance, ordered, targets))
  {
    hide Compatible;
    if targets != [] {
      var init := targets[..|targets| - 1];
      AssignIsMatching(tolerance, ordered, init);
      var b := Assign(tolerance, ordered, init);
      MatchingSnoc(tolerance, ordered, init, b, targets[|targets| - 1], FirstFree(tolerance, ordered, b, targets[|targets| - 1], 0));
      assert targets == init + [targets[|targets| - 1]];
    }
  }

  lemma MatchingSnoc(tolerance: Decimal, ordered: seq<RestingOrder>, init: seq<Quote>, b: Assignment, t: Quote, f: int)
    requires IsMatching(tolerance, ordered, init, b)
    requires f == -1 || (0 <= f < |ordered| && !Uses(b, f) && Compatible(tolerance, ordered[f], t))
    ensures IsMatching(tolerance, ordered, init + [t], b + [f])
  {
    hide Compatible;
    var a, ts := b + [f], init + [t];
    assert forall i | 0 <= i < |b| :: a[i] == b[i] && ts[i] == init[i] && b[i] in b;
  }

  lemma {:induction false} AssignServesOldest(tolerance: Decimal, ordered: seq<RestingOrder>, targets: seq<Quote>)
    ensures ServedOldest(tolerance, ordered, targets, Assign(tolerance, ordered, targets))
  {
    hide Compatible;
    hide FirstFree;
    hide ServedOldest;
    if targets == [] {
      NoneServed(tolerance, ordered);
    } else {
      var init, t := targets[..|targets| - 1], targets[|targets| - 1];
      AssignServesOldest(tolerance, ordered, init);
      var b := Assign(tolerance, ordered, init);
      ServedSnoc(tolerance, ordered, init, b, t);
      assert targets == init + [t];
    }
  }

  lemma NoneServed(tolerance: Decimal, ordered: seq<RestingOrder>)
    ensures ServedOldest(tolerance, ordered, [], [])
  {
  }

  lemma ServedSnoc(tolerance: Decimal, ordered: seq<RestingOrder>, init: seq<Quote>, b: Assignment, t: Quote)
    requires |b| == |init| && ServedOldest(tolerance, ordered, init, b)
    ensures ServedOldest(tolerance, ordered, init + [t], b + [FirstFree(tolerance, ordered, b, t, 0)])
  {
    hide Compatible;
    hide FirstFree;
    var a, ts := b + [FirstFree(tolerance, ordered, b, t, 0)], init + [t];
    forall i, j | 0 <= i < |a| && 0 <= j < (if a[i] < 0 then |ordered| else if a[i] <= |ordered| then a[i] else 0)
      ensures Uses(a[..i], j) || !Compatible(tolerance, ordered[j], ts[i])
    {
      assert a[..i] == b[..i];
      if i < |b| {
        assert a[i] == b[i] && ts[i] == init[i];
      } else {
        assert b[..i] == b;
      }
    }
  }

  /** Nothing left over fits: no unkept order is compatible with an unserved target. */
  lemma AssignIsMaximal(tolerance: Decimal, ordered: seq<RestingOrder>, targets: seq<Quote>, i: nat, j: nat)
    requires i < |targets| && j < |ordered|
    requires Assign(tolerance, ordered, targets)[i] < 0 && !Uses(Assign(tolerance, ordered, targets), j)
    ensures !Compatible(tolerance, ordered[j], targets[i])
  {
    hide Compatible;
    hide Assign;
    AssignServesOldest(tolerance, ordered, targets);
    var a := Assign(tolerance, ordered, targets);
    assert !Uses(a[..i], j);
  }

  // ---- what kept and left over mean ----

  /** The truncated basis points of `p` over `q` lie between the positive tolerance and its negative. */
  predicate Within(tolerance: Decimal, p: Decimal, q: Decimal) {
    && tolerance.val > 0 && Div(Sub(p, q), q, 18).Quotient?
    && var points := Mul(Div(Sub(p, q), q, 18).value, Decimal(10000, 0));
       Cmp(points, tolerance) <= 0 && Cmp(Neg(tolerance), points) <= 0
  }

  lemma AbsBetween(d: Decimal, tolerance: Decimal)
    requires tolerance.val > 0
    ensures Cmp(AbsOf(d), tolerance) <= 0 <==> Cmp(d, tolerance) <= 0 && Cmp(Neg(tolerance), d) <= 0
  {
    hide BigExp10;
    var x, y := AlignScale(d, tolerance).0.val, AlignScale(d, tolerance).1.val;
    AlignSigns(d, tolerance);
  }

  /** Aligning keeps signs, and commutes with them. */
  lemma AlignSigns(d: Decimal, t: Decimal)
    ensures var (x, y) := AlignScale(d, t);
            && (t.val > 0 ==> y.val > 0) && (d.val < 0 <==> x.val < 0)
            && AlignScale(Neg(d), t).0.val == -x.val && AlignScale(Neg(d), t).1.val == y.val
            && AlignScale(Neg(t), d).0.val == -y.val && AlignScale(Neg(t), d).1.val == x.val
  {
    hide Pow10;
    var k := BigExp10(Wrap32(if d.scale < t.scale then t.scale - d.scale else d.scale - t.scale));
    MulSigns(d.val, k);
    MulSigns(t.val, k);
  }

  lemma MulSigns(v: int, k: nat)
    requires k >= 1
    ensures (v > 0 <==> v * k > 0) && (v < 0 <==> v * k < 0) && (-v) * k == -(v * k)
  {
  }

  lemma CompatibleMeans(tolerance: Decimal, o: RestingOrder, t: Quote)
    ensures Compatible(tolerance, o, t) <==>
      && o.side == t.side && Cmp(o.amount, t.amount) == 0
      && (Cmp(o.price, t.price) == 0 || Within(tolerance, o.price, t.price))
  {
    hide Cmp, Div, Sub, Mul, AbsOf;
    if tolerance.val > 0 && BpsDiff(o.price, t.price).Some? {
      AbsBetween(BpsDiff(o.price, t.price).value, tolerance);
    }
  }

  /** Every kept order has its target's side, an equal amount, and a price that is equal or within the tolerance; the orders
      listed before it that would do as well are kept for earlier targets. */
  lemma KeptPairsFit(tolerance: Decimal, ordered: seq<RestingOrder>, targets: seq<Quote>, i: nat)
    requires i < |targets| && Assign(tolerance, ordered, targets)[i] >= 0
    ensures var a := Assign(tolerance, ordered, targets);
            && a[i] < |ordered|
            && var o, t := ordered[a[i]], targets[i];
               && o.side == t.side && Cmp(o.amount, t.amount) == 0
               && (Cmp(o.price, t.price) == 0 || Within(tolerance, o.price, t.price))
               && (forall j | 0 <= j < a[i] ::
                    && ordered[j].side == t.side && Cmp(ordered[j].amount, t.amount) == 0
                    && (Cmp(ordered[j].price, t.price) == 0 || Within(tolerance, ordered[j].price, t.price))
                    ==> exists k :: 0 <= k < i && a[k] == j)
  {
    hide Compatible, Assign, Cmp, Within;
    var a := Assign(tolerance, ordered, targets);
    AssignIsMatching(tolerance, ordered, targets);
    AssignServesOldest(tolerance, ordered, targets);
    CompatibleMeans(tolerance, ordered[a[i]], targets[i]);
    forall j | 0 <= j < a[i]
      ensures Compatible(tolerance, ordered[j], targets[i]) ==> exists k :: 0 <= k < i && a[k] == j
      ensures Compatible(tolerance, ordered[j], targets[i]) <==>
        && ordered[j].side == targets[i].side && Cmp(ordered[j].amount, targets[i].amount) == 0
        && (Cmp(ordered[j].price, targets[i].price) == 0 || Within(tolerance, ordered[j].price, targets[i].price))
    {
      CompatibleMeans(tolerance, ordered[j], targets[i]);
      if Compatible(tolerance, ordered[j], targets[i]) {
        assert Uses(a[..i], j);
        var k :| 0 <= k < |a[..i]| && a[..i][k] == j;
        assert a[k] == j;
      }
    }
  }

  /** An order that is not kept never has the side and the amount of an unserved target and a price within the tolerance. */
  lemma NoFitLeftOver(tolerance: Decimal, ordered: seq<RestingOrder>, targets: seq<Quote>, i: nat, j: nat)
    requires i < |targets| && j < |ordered|
    requires Assign(tolerance, ordered, targets)[i] < 0 && j !in Assign(tolerance, ordered, targets)
    ensures var o, t := ordered[j], targets[i];
            !(o.side == t.side && Cmp(o.amount, t.amount) == 0 && (Cmp(o.price, t.price) == 0 || Within(tolerance, o.price, t.price)))
  {
    hide Compatible, Assign, Cmp, Within;
    AssignIsMaximal(tolerance, ordered, targets, i, j);
    CompatibleMeans(tolerance, ordered[j], targets[i]);
  }

  // ---- counting ----

  ghost function Served(a: Assignment): set<int> {
    set i | 0 <= i < |a| && a[i] >= 0
  }

  ghost function Kept(a: Assignment): nat {
    |Served(a)|
  }

  /** The target an order is kept for. */
  ghost function Owner(a: Assignment, j: int): int {
    if exists i :: 0 <= i < |a| && a[i] == j then var i :| 0 <= i < |a| && a[i] == j; i else -1
  }

  ghost function UsedOrders(a: Assignment): set<int> {
    set i | 0 <= i < |a| && a[i] >= 0 :: a[i]
  }

  lemma UsedSize(tolerance: Decimal, ordered: seq<RestingOrder>, targets: seq<Quote>, a: Assignment)
    requires IsMatching(tolerance, ordered, targets, a)
    ensures |UsedOrders(a)| == Kept(a)
  {
    hide Compatible;
    UsedAtMost(a);
    UsedAtLeast(tolerance, ordered, targets, a);
  }

  lemma UsedAtMost(a: Assignment)
    ensures |UsedOrders(a)| <= Kept(a)
  {
    ImageSize(UsedOrders(a), j => Owner(a, j), Served(a));
  }

  lemma UsedAtLeast(tolerance: Decimal, ordered: seq<RestingOrder>, targets: seq<Quote>, a: Assignment)
    requires IsMatching(tolerance, ordered, targets, a)
    ensures Kept(a) <= |UsedOrders(a)|
  {
    hide Compatible;
    ImageSize(Served(a), i => if 0 <= i < |a| then a[i] else -1, UsedOrders(a));
  }

  /** At any tolerance, no assignment keeps more than twice as many orders. */
  lemma GreedyKeepsHalf(tolerance: Decimal, ordered: seq<RestingOrder>, targets: seq<Quote>, b: Assignment)
    requires IsMatching(tolerance, ordered, targets, b)
    ensures Kept(b) <= 2 * Kept(Assign(tolerance, ordered, targets))
  {
    hide Compatible;
    var a := Assign(tolerance, ordered, targets);
    AssignIsMatching(tolerance, ordered, targets);
    UsedSize(tolerance, ordered, targets, a);
    var rest := Served(b) - Served(a);
    forall i | i in rest
      ensures b[i] in UsedOrders(a)
    {
      if !Uses(a, b[i]) {
        AssignIsMaximal(tolerance, ordered, targets, i, b[i]);
      }
    }
    ImageSize(rest, i => if 0 <= i < |b| then b[i] else -1, UsedOrders(a));
    assert Served(b) <= Served(a) + rest;
    UnionSize(Served(b), Served(a), rest);
  }

  // ---- exact prices: optimality and age ----

  const EXACT: Decimal := ZERO

  /** Scales whose differences fit 32 bits. */
  predicate Fits(d: Decimal) {
    -0x3fff_ffff <= d.scale <= 0x3fff_ffff
  }

  ghost predicate AllFit(ordered: seq<RestingOrder>, targets: seq<Quote>) {
    && (forall j | 0 <= j < |ordered| :: Fits(ordered[j].price) && Fits(ordered[j].amount))
    && (forall i | 0 <= i < |targets| :: Fits(targets[i].price) && Fits(targets[i].amount))
  }

  predicate EqualQuotes(s: Quote, t: Quote) {
    s.side == t.side && Cmp(s.price, t.price) == 0 && Cmp(s.amount, t.amount) == 0
  }

  lemma CmpChain(a: Decimal, b: Decimal, c: Decimal)
    requires Fits(a) && Fits(b) && Fits(c)
    ensures Cmp(a, b) == 0 ==> Cmp(b, a) == 0
    ensures Cmp(a, b) == 0 && Cmp(b, c) == 0 ==> Cmp(a, c) == 0
    ensures Cmp(a, b) == 0 && Cmp(a, c) == 0 ==> Cmp(b, c) == 0
  {
    hide Cmp;
    if Cmp(a, b) == 0 {
      CmpEqualTransitive(a, b, c);
      CmpEqualTransitive(a, b, b);
    }
  }

  lemma ExactClass(o: RestingOrder, p: RestingOrder, s: Quote, t: Quote)
    requires Fits(o.price) && Fits(o.amount) && Fits(s.price) && Fits(s.amount) && Fits(t.price) && Fits(t.amount)
    requires Fits(p.price) && Fits(p.amount)
    ensures Compatible(EXACT, o, s) && Compatible(EXACT, o, t) ==> EqualQuotes(s, t)
    ensures Compatible(EXACT, o, s) && EqualQuotes(s, t) ==> Compatible(EXACT, o, t)
    ensures EqualQuotes(s, t) ==> EqualQuotes(t, s)
    ensures Compatible(EXACT, o, s) && EqualOrders(p, o) ==> Compatible(EXACT, p, s)
  {
    hide Cmp;
    hide BpsDiff;
    CmpChain(o.price, s.price, t.price);
    CmpChain(o.amount, s.amount, t.amount);
    CmpChain(s.price, t.price, s.price);
    CmpChain(s.amount, t.amount, s.amount);
    CmpChain(p.price, o.price, s.price);
    CmpChain(p.amount, o.amount, s.amount);
  }

  predicate EqualOrders(o: RestingOrder, p: RestingOrder) {
    o.side == p.side && Cmp(o.price, p.price) == 0 && Cmp(o.amount, p.amount) == 0
  }

  /** With exact prices each kept order is the oldest of its kind: every older order of equal side, price and amount is
      kept as well. */
  lemma KeepsOldest(ordered: seq<RestingOrder>, targets: seq<Quote>, older: nat, kept: nat)
    requires AllFit(ordered, targets) && older < kept < |ordered|
    requires EqualOrders(ordered[older], ordered[kept])
    requires Uses(Assign(EXACT, ordered, targets), kept)
    ensures Uses(Assign(EXACT, ordered, targets), older)
  {
    hide Compatible;
    hide EqualOrders;
    hide Assign;
    var a := Assign(EXACT, ordered, targets);
    AssignIsMatching(EXACT, ordered, targets);
    AssignServesOldest(EXACT, ordered, targets);
    var i :| 0 <= i < |a| && a[i] == kept;
    ExactClass(ordered[kept], ordered[older], targets[i], targets[i]);
    assert Uses(a[..i], older);
  }

  /** Some target equal to target `i` is left unserved, so every order of its kind is used. */
  ghost predicate Saturated(targets: seq<Quote>, a: Assignment, i: int)
    requires |a| == |targets|
  {
    0 <= i < |targets| && exists k :: 0 <= k < |a| && a[k] < 0 && EqualQuotes(targets[k], targets[i])
  }

  ghost function Exchange(targets: seq<Quote>, a: Assignment, b: Assignment, i: int): int
    requires |a| == |b| == |targets|
  {
    if 0 <= i < |b| && Saturated(targets, a, i) then Owner(a, b[i]) else i
  }

  lemma EqualQuotesChain(s: Quote, t: Quote, u: Quote)
    requires Fits(s.price) && Fits(s.amount) && Fits(t.price) && Fits(t.amount) && Fits(u.price) && Fits(u.amount)
    requires EqualQuotes(s, t)
    ensures EqualQuotes(t, s) && (EqualQuotes(t, u) <==> EqualQuotes(s, u))
  {
    hide Cmp;
    CmpChain(s.price, t.price, u.price);
    CmpChain(s.amount, t.amount, u.amount);
    CmpChain(t.price, s.price, u.price);
    CmpChain(t.amount, s.amount, u.amount);
  }

  lemma ExchangeServed(ordered: seq<RestingOrder>, targets: seq<Quote>, b: Assignment, i: int)
    requires AllFit(ordered, targets) && IsMatching(EXACT, ordered, targets, b) && i in Served(b)
    ensures var a := Assign(EXACT, ordered, targets);
            var k := Exchange(targets, a, b, i);
            && k in Served(a) && EqualQuotes(targets[k], targets[i])
            && (Saturated(targets, a, i) ==> a[k] == b[i])
  {
    hide Compatible;
    hide EqualQuotes;
    hide Assign;
    var a := Assign(EXACT, ordered, targets);
    AssignIsMatching(EXACT, ordered, targets);
    EqualToItself(targets[i]);
    if Saturated(targets, a, i) {
      var k :| 0 <= k < |a| && a[k] < 0 && EqualQuotes(targets[k], targets[i]);
      var o := ordered[b[i]];
      ExactClass(o, o, targets[k], targets[i]);
      ExactClass(o, o, targets[i], targets[k]);
      if !Uses(a, b[i]) {
        AssignIsMaximal(EXACT, ordered, targets, k, b[i]);
      }
      var w := Owner(a, b[i]);
      assert 0 <= w < |a| && a[w] == b[i];
      ExactClass(o, o, targets[w], targets[i]);
    } else {
      assert a[i] >= 0;
    }
  }

  lemma EqualToItself(t: Quote)
    ensures EqualQuotes(t, t)
  {
    CmpSelf(t.price);
    CmpSelf(t.amount);
  }

  lemma SaturatedByClass(targets: seq<Quote>, ordered: seq<RestingOrder>, a: Assignment, i: int, k: int)
    requires AllFit(ordered, targets) && |a| == |targets| && 0 <= i < |targets| && 0 <= k < |targets|
    requires EqualQuotes(targets[i], targets[k])
    ensures Saturated(targets, a, i) ==> Saturated(targets, a, k)
  {
    hide EqualQuotes;
    if Saturated(targets, a, i) {
      var m :| 0 <= m < |a| && a[m] < 0 && EqualQuotes(targets[m], targets[i]);
      EqualQuotesChain(targets[m], targets[i], targets[k]);
    }
  }

  /** With exact prices no other assignment keeps more orders. */
  lemma GreedyIsOptimal(ordered: seq<RestingOrder>, targets: seq<Quote>, b: Assignment)
    requires AllFit(ordered, targets) && IsMatching(EXACT, ordered, targets, b)
    ensures Kept(b) <= Kept(Assign(EXACT, ordered, targets))
  {
    hide Compatible;
    hide EqualQuotes;
    hide Exchange;
    hide Saturated;
    var a := Assign(EXACT, ordered, targets);
    AssignIsMatching(EXACT, ordered, targets);
    var f := i => Exchange(targets, a, b, i);
    forall i | i in Served(b)
      ensures f(i) in Served(a)
    {
      ExchangeServed(ordered, targets, b, i);
    }
    forall i, j | i in Served(b) && j in Served(b) && i != j
      ensures f(i) != f(j)
    {
      ExchangeInjective(ordered, targets, b, i, j);
    }
    ImageSize(Served(b), f, Served(a));
  }

  lemma ExchangeInjective(ordered: seq<RestingOrder>, targets: seq<Quote>, b: Assignment, i: int, j: int)
    requires AllFit(ordered, targets) && IsMatching(EXACT, ordered, targets, b)
    requires i in Served(b) && j in Served(b) && i != j
    ensures var a := Assign(EXACT, ordered, targets); Exchange(targets, a, b, i) != Exchange(targets, a, b, j)
  {
    hide Compatible;
    hide EqualQuotes;
    hide Saturated;
    hide Assign;
    var a := Assign(EXACT, ordered, targets);
    ExchangeServed(ordered, targets, b, i);
    ExchangeServed(ordered, targets, b, j);
    var k := Exchange(targets, a, b, i);
    if k == Exchange(targets, a, b, j) {
      EqualQuotesChain(targets[k], targets[i], targets[j]);
      EqualQuotesChain(targets[k], targets[j], targets[i]);
      SaturatedByClass(targets, ordered, a, i, j);
      SaturatedByClass(targets, ordered, a, j, i);
    }
  }
}
