/** The quote reconciler's ledger of resting orders: what each order event and each open-order snapshot does to it. */
module Ledger {
  import opened Wrappers
  import opened Arith
  import opened Decimals
  import opened Text
  import opened DecimalText

  datatype RestingOrder = RestingOrder(
    orderID: string,
    clientOrderID: string,
    side: string,
    price: Decimal,
    amount: Decimal,
    originalAmount: Decimal)

  type Resting = map<string, RestingOrder>

  /** An order event as delivered. The fields the ledger never reads are kept together: they only tell events apart. */
  datatype OrderEvent = OrderEvent(
    symbol: string,
    clientOrderID: string,
    side: string,
    quantity: string,
    price: string,
    orderStatus: string,
    orderID: int,
    remainingQty: string,
    unread: seq<string>)

  // ---- what an event says ----

  /** An event's instruction for its order. In `Amend`, an empty side or client ID keeps the order's own. */
  datatype Action =
    | Ignore
    | Put(order: RestingOrder)
    | Erase
    | Amend(price: Decimal, remaining: Decimal, original: Decimal, side: string, clientOrderID: string)
    | Fill(rest: Decimal, created: Option<RestingOrder>)

  predicate ValidSide(side: string) {
    side == "buy" || side == "sell"
  }

  predicate Positive(d: Option<Decimal>) {
    d.Some? && IsPositive(d.value)
  }

  function EventOrderID(e: OrderEvent): string
    requires e.orderID > 0
  {
    Digits(e.orderID)
  }

  function EventSide(e: OrderEvent): string {
    ToLower(TrimSpace(e.side))
  }

  const OPENED: set<string> := {"NEW", "ACCEPTED", "BOOKED", "OPEN"}
  const CHANGED: set<string> := {"MODIFIED", "AMENDED", "REPLACED"}
  const ENDED: set<string> := {"CANCELED", "CANCELLED", "FILLED", "EXPIRED", "REJECTED"}

  datatype Status = Opened | Changed | Ended | PartlyFilled | OtherStatus

  function StatusOf(text: string): Status {
    var status := ToUpper(text);
    if status in OPENED then Opened
    else if status in CHANGED then Changed
    else if status in ENDED then Ended
    else if status == "PARTIALLY_FILLED" then PartlyFilled
    else OtherStatus
  }

  function Decode(e: OrderEvent): Action
    requires e.orderID > 0
  {
    match StatusOf(e.orderStatus)
    case Opened => DecodeOpened(e)
    case Changed => DecodeChanged(e)
    case Ended => Erase
    case PartlyFilled => DecodeFill(e)
    case OtherStatus => Ignore
  }

  function DecodeOpened(e: OrderEvent): Action
    requires e.orderID > 0
  {
    var p, q := ParseDecimal(e.price), ParseDecimal(e.quantity);
    if ValidSide(EventSide(e)) && Positive(p) && Positive(q)
    then Put(RestingOrder(EventOrderID(e), e.clientOrderID, EventSide(e), p.value, q.value, q.value))
    else Ignore
  }

  function DecodeChanged(e: OrderEvent): Action {
    var p, q := ParseDecimal(e.price), ParseDecimal(e.quantity);
    if !Positive(p) || !Positive(q) then Ignore
    else if TrimSpace(e.remainingQty) == "" then AmendTo(e, p.value, q.value, q.value)
    else
      match ParseDecimal(e.remainingQty)
      case None => Ignore
      case Some(rem) =>
        if Cmp(rem, q.value) > 0 then Ignore
        else if !IsPositive(rem) then Erase
        else AmendTo(e, p.value, rem, q.value)
  }

  function AmendTo(e: OrderEvent, price: Decimal, remaining: Decimal, original: Decimal): Action {
    if e.side == "" then Amend(price, remaining, original, "", e.clientOrderID)
    else if ValidSide(EventSide(e)) then Amend(price, remaining, original, EventSide(e), e.clientOrderID)
    else Ignore
  }

  function DecodeFill(e: OrderEvent): Action
    requires e.orderID > 0
  {
    match ParseDecimal(e.remainingQty)
    case None => Ignore
    case Some(rem) => if IsPositive(rem) then Fill(rem, CreatedByFill(e, rem)) else Erase
  }

  /** The order a partial fill of an unknown order creates. */
  function CreatedByFill(e: OrderEvent, rem: Decimal): Option<RestingOrder>
    requires e.orderID > 0
  {
    var p, q := ParseDecimal(e.price), ParseDecimal(e.quantity);
    if !Positive(p) || !ValidSide(EventSide(e)) then None
    else
      var original := if Positive(q) then q.value else rem;
      if Cmp(original, rem) < 0 then None
      else Some(RestingOrder(EventOrderID(e), e.clientOrderID, EventSide(e), p.value, rem, original))
  }

  /** What an action makes of the order it concerns. */
  function Effect(a: Action, id: string, current: Option<RestingOrder>): Option<RestingOrder> {
    match a
    case Ignore => current
    case Put(order) => Some(order)
    case Erase => None
    case Amend(price, remaining, original, side, client) =>
      (match current
       case Some(o) =>
         Some(o.(price := price, amount := remaining, originalAmount := original,
                 side := if side == "" then o.side else side,
                 clientOrderID := if client == "" then o.clientOrderID else client))
       case None =>
         if side == "" then None else Some(RestingOrder(id, client, side, price, remaining, original)))
    case Fill(rest, created) =>
      (match current
       case Some(o) => if Cmp(rest, o.originalAmount) > 0 then current else Some(o.(amount := rest))
       case None => created)
  }

  function Lookup(r: Resting, id: string): Option<RestingOrder> {
    if id in r then Some(r[id]) else None
  }

  function Store(r: Resting, id: string, order: Option<RestingOrder>): (s: Resting)
    ensures Lookup(s, id) == order
    ensures forall k :: k != id ==> Lookup(s, k) == Lookup(r, k)
  {
    match order
    case Some(o) => r[id := o]
    case None => r - {id}
  }

  /** Events for other symbols, and events without a positive order ID, are not for this ledger. */
  predicate Concerns(symbol: string, e: OrderEvent) {
    (e.symbol == "" || ToUpper(TrimSpace(e.symbol)) == symbol) && e.orderID > 0
  }

  function ApplyEvent(symbol: string, r: Resting, e: OrderEvent): Resting {
    if !Concerns(symbol, e) then r
    else
      var id := EventOrderID(e);
      Store(r, id, Effect(Decode(e), id, Lookup(r, id)))
  }

  function ApplyEvents(symbol: string, r: Resting, es: seq<OrderEvent>): Resting {
    if es == [] then r else ApplyEvent(symbol, ApplyEvents(symbol, r, es[..|es| - 1]), es[|es| - 1])
  }

  lemma {:induction false} ApplyConcat(symbol: string, r: Resting, a: seq<OrderEvent>, b: seq<OrderEvent>)
    ensures ApplyEvents(symbol, r, a + b) == ApplyEvents(symbol, ApplyEvents(symbol, r, a), b)
  {
    hide ApplyEvent;
    if b == [] {
      assert a + b == a;
    } else {
      var c := b[..|b| - 1];
      ApplyConcat(symbol, r, a, c);
      assert (a + b)[..|a + b| - 1] == a + c;
    }
  }

  // ---- the open-order snapshot ----

  datatype OrderSide = BuySide | SellSide | UnknownSide

  /** One order of the exchange's open-order reply; every field may be missing. */
  datatype ListedOrder = ListedOrder(
    orderID: Option<string>,
    symbol: Option<string>,
    clientOrderID: Option<string>,
    side: Option<OrderSide>,
    price: Option<string>,
    originalAmount: Option<string>,
    executedAmount: Option<string>)

  function RemainingOf(original: Decimal, executed: Option<string>): Decimal {
    if executed.None? then original
    else
      match ParseDecimal(executed.value)
      case None => original
      case Some(done) => if IsPositive(done) then Sub(original, done) else original
  }

  /** The entry a listed order becomes, if it becomes one. */
  function Listed(symbol: string, o: ListedOrder): Option<RestingOrder> {
    if o.symbol.Some? && ToUpper(TrimSpace(o.symbol.value)) != symbol then None
    else if o.orderID.None? || o.price.None? || o.originalAmount.None? then None
    else
      var p, a := ParseDecimal(o.price.value), ParseDecimal(o.originalAmount.value);
      if p.None? || a.None? then None
      else
        var left := RemainingOf(a.value, o.executedAmount);
        if !IsPositive(left) || o.side.None? || o.side.value.UnknownSide? then None
        else
          Some(RestingOrder(
                 o.orderID.value,
                 if o.clientOrderID.Some? then o.clientOrderID.value else "",
                 if o.side.value.BuySide? then "buy" else "sell",
                 p.value, left, a.value))
  }

  function Snapshot(symbol: string, orders: seq<ListedOrder>): Resting {
    if orders == [] then map[]
    else
      var r := Snapshot(symbol, orders[..|orders| - 1]);
      match Listed(symbol, orders[|orders| - 1])
      case None => r
      case Some(entry) => r[entry.orderID := entry]
  }

  // ---- what every entry satisfies ----

  ghost predicate GoodEntry(id: string, o: RestingOrder) {
    && o.orderID == id && ValidSide(o.side)
    && IsPositive(o.amount) && Cmp(o.amount, o.originalAmount) <= 0
  }

  ghost predicate GoodLedger(r: Resting) {
    forall id | id in r :: GoodEntry(id, r[id])
  }

  lemma CmpSelf(d: Decimal)
    ensures Cmp(d, d) == 0
  {
  }

  lemma CmpFlip(a: Decimal, b: Decimal)
    ensures Cmp(a, b) == -Cmp(b, a)
  {
  }

  lemma EffectKeepsGood(e: OrderEvent, current: Option<RestingOrder>)
    requires e.orderID > 0 && (current.Some? ==> GoodEntry(EventOrderID(e), current.value))
    ensures var after := Effect(Decode(e), EventOrderID(e), current);
            after.Some? ==> GoodEntry(EventOrderID(e), after.value)
  {
    hide ParseDecimal;
    hide Cmp;
    hide ToLower;
    hide TrimSpace;
    hide StatusOf;
    hide Digits;
    var q := ParseDecimal(e.quantity);
    if q.Some? {
      CmpSelf(q.value);
    }
    var rem := ParseDecimal(e.remainingQty);
    if rem.Some? {
      CmpSelf(rem.value);
      if q.Some? {
        CmpFlip(q.value, rem.value);
      }
    }
  }

  /** Whatever an event says, it leaves every entry keyed by its own ID, on a valid side, with an amount that is positive
      and no larger than the original one. */
  lemma ApplyKeepsGood(symbol: string, r: Resting, e: OrderEvent)
    requires GoodLedger(r)
    ensures GoodLedger(ApplyEvent(symbol, r, e))
  {
    hide Decode;
    hide Effect;
    hide EventOrderID;
    hide GoodEntry;
    if Concerns(symbol, e) {
      var id := EventOrderID(e);
      EffectKeepsGood(e, Lookup(r, id));
      var after := ApplyEvent(symbol, r, e);
      forall k | k in after
        ensures GoodEntry(k, after[k])
      {
        assert Lookup(after, k).Some?;
        if k != id {
          assert Lookup(after, k) == Lookup(r, k);
        }
      }
    }
  }

  lemma ListedIsGood(symbol: string, o: ListedOrder)
    ensures var entry := Listed(symbol, o); entry.Some? ==> GoodEntry(entry.value.orderID, entry.value)
  {
    hide ParseDecimal;
    hide Cmp;
    hide Sub;
    hide TrimSpace;
    hide ToUpper;
    if o.originalAmount.Some? && ParseDecimal(o.originalAmount.value).Some? {
      var a := ParseDecimal(o.originalAmount.value).value;
      ParsedIsNormal(o.originalAmount.value);
      CmpSelf(a);
      if o.executedAmount.Some? && Positive(ParseDecimal(o.executedAmount.value)) {
        ParsedIsNormal(o.executedAmount.value);
        SubBelow(a, ParseDecimal(o.executedAmount.value).value);
      }
    }
  }

  /** Taking a positive quantity away leaves less. */
  lemma SubBelow(a: Decimal, b: Decimal)
    requires 0 <= a.scale <= MAX_DIGITS && 0 <= b.scale <= MAX_DIGITS && IsPositive(b)
    ensures Cmp(Sub(a, b), a) < 0
  {
    hide Pow10;
    hide Sub;
    hide Cmp;
    var s := MAX_DIGITS;
    AddSubMeaning(a, b, s);
    SubScale(a, b);
    CmpMeaning(Sub(a, b), a, s);
    MulCancel(0, b.val, Pow10(s - b.scale));
  }

  lemma SubScale(a: Decimal, b: Decimal)
    requires 0 <= a.scale <= MAX_DIGITS && 0 <= b.scale <= MAX_DIGITS
    ensures 0 <= Sub(a, b).scale <= MAX_DIGITS
  {
    hide Normalize;
    hide BigExp10;
    var (x, y) := AlignScale(a, b);
    NormalizeScale(Decimal(x.val - y.val, x.scale));
  }

  lemma {:induction false} SnapshotIsGood(symbol: string, orders: seq<ListedOrder>)
    ensures GoodLedger(Snapshot(symbol, orders))
  {
    hide Listed;
    hide GoodEntry;
    if orders != [] {
      SnapshotIsGood(symbol, orders[..|orders| - 1]);
      ListedIsGood(symbol, orders[|orders| - 1]);
    }
  }

  /** An ID is in the snapshot's ledger exactly when some listed order is accepted under it, and the entry is the last
      such order's. */
  lemma {:induction false} SnapshotEntry(symbol: string, orders: seq<ListedOrder>, id: string)
    ensures id in Snapshot(symbol, orders) <==>
      exists i | 0 <= i < |orders| :: Listed(symbol, orders[i]).Some? && Listed(symbol, orders[i]).value.orderID == id
    ensures forall i ::
      && 0 <= i < |orders| && Listed(symbol, orders[i]).Some? && Listed(symbol, orders[i]).value.orderID == id
      && (forall j | i < j < |orders| :: Listed(symbol, orders[j]).Some? ==> Listed(symbol, orders[j]).value.orderID != id)
      ==> id in Snapshot(symbol, orders) && Snapshot(symbol, orders)[id] == Listed(symbol, orders[i]).value
  {
    hide Listed;
    if orders != [] {
      var init := orders[..|orders| - 1];
      SnapshotEntry(symbol, init, id);
      forall i | 0 <= i < |init|
        ensures init[i] == orders[i]
      {
      }
    }
  }
}
