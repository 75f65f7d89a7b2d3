/** What order events and snapshots leave in the ledger, in terms of the fields and texts they arrive with. */
module LedgerMeaning {
  import opened Wrappers
  import Arith
  import Convergence
  import opened Decimals
  import opened Text
  import opened DecimalText
  import opened Ledger

  // ---- statuses ----

  predicate OpeningText(s: string) {
    s == "NEW" || s == "ACCEPTED" || s == "BOOKED" || s == "OPEN"
  }

  predicate ChangingText(s: string) {
    s == "MODIFIED" || s == "AMENDED" || s == "REPLACED"
  }

  predicate EndingText(s: string) {
    s == "CANCELED" || s == "CANCELLED" || s == "FILLED" || s == "EXPIRED" || s == "REJECTED"
  }

  lemma ChangingIsNotOpening(s: string)
    requires ChangingText(s)
    ensures s !in OPENED
  {
    assert "MODIFIED"[0] == 'M' && "AMENDED"[1] == 'M' && "REPLACED"[0] == 'R';
    assert "NEW"[0] == 'N' && "ACCEPTED"[0] == 'A' && "ACCEPTED"[1] == 'C' && "BOOKED"[0] == 'B' && "OPEN"[0] == 'O';
  }

  lemma EndingIsNeither(s: string)
    requires EndingText(s)
    ensures s !in OPENED && s !in CHANGED
  {
    assert "CANCELED"[0] == 'C' && "CANCELLED"[0] == 'C' && "FILLED"[0] == 'F' && "EXPIRED"[0] == 'E';
    assert "REJECTED"[2] == 'J' && "REPLACED"[2] == 'P';
    assert "NEW"[0] == 'N' && "ACCEPTED"[0] == 'A' && "BOOKED"[0] == 'B' && "OPEN"[0] == 'O';
    assert "MODIFIED"[0] == 'M' && "AMENDED"[0] == 'A' && "REJECTED"[0] == 'R';
  }

  lemma FillingIsNone(s: string)
    requires s == "PARTIALLY_FILLED"
    ensures s !in OPENED && s !in CHANGED && s !in ENDED
  {
    assert |s| == 16;
    assert |"NEW"| == 3 && |"ACCEPTED"| == 8 && |"BOOKED"| == 6 && |"OPEN"| == 4;
    assert |"MODIFIED"| == 8 && |"AMENDED"| == 7 && |"REPLACED"| == 8;
    assert |"CANCELED"| == 8 && |"CANCELLED"| == 9 && |"FILLED"| == 6 && |"EXPIRED"| == 7 && |"REJECTED"| == 8;
  }

  lemma SetTexts(s: string)
    ensures (s in OPENED <==> OpeningText(s)) && (s in CHANGED <==> ChangingText(s)) && (s in ENDED <==> EndingText(s))
  {
  }

  /** The thirteen texts that statuses are recognized by. */
  lemma StatusTexts(text: string)
    ensures var s := ToUpper(text);
            && (StatusOf(text).Opened? <==> OpeningText(s))
            && (StatusOf(text).Changed? <==> ChangingText(s))
            && (StatusOf(text).Ended? <==> EndingText(s))
            && (StatusOf(text).PartlyFilled? <==> s == "PARTIALLY_FILLED")
  {
    hide ToUpper;
    var s := ToUpper(text);
    SetTexts(s);
    if ChangingText(s) {
      ChangingIsNotOpening(s);
    } else if EndingText(s) {
      EndingIsNeither(s);
    } else if s == "PARTIALLY_FILLED" {
      FillingIsNone(s);
    }
    hide OPENED, CHANGED, ENDED, OpeningText, ChangingText, EndingText;
  }

  // ---- events ----

  /** The event is for this ledger and names an order. */
  predicate ForLedger(symbol: string, e: OrderEvent) {
    e.orderID > 0 && (e.symbol == "" || ToUpper(TrimSpace(e.symbol)) == symbol)
  }

  predicate Sided(e: OrderEvent) {
    ToLower(TrimSpace(e.side)) == "buy" || ToLower(TrimSpace(e.side)) == "sell"
  }

  predicate PositiveText(text: string) {
    ParseDecimal(text).Some? && ParseDecimal(text).value.val > 0
  }

  /** An event for another ledger or without an order ID changes nothing. */
  lemma ForeignEvent(symbol: string, r: Resting, e: OrderEvent)
    requires !ForLedger(symbol, e)
    ensures ApplyEvent(symbol, r, e) == r
  {
  }

  /** An opening event stores the order it describes: its ID, client ID and side, the parsed price as price, and the parsed
      quantity as amount and as original amount. Without a side, a positive price and a positive quantity it changes nothing. */
  lemma OpeningEvent(symbol: string, r: Resting, e: OrderEvent)
    requires ForLedger(symbol, e)
    requires var s := ToUpper(e.orderStatus); s == "NEW" || s == "ACCEPTED" || s == "BOOKED" || s == "OPEN"
    ensures ApplyEvent(symbol, r, e) ==
            if Sided(e) && PositiveText(e.price) && PositiveText(e.quantity) then
              r[Digits(e.orderID) :=
                RestingOrder(Digits(e.orderID), e.clientOrderID, ToLower(TrimSpace(e.side)),
                             ParseDecimal(e.price).value, ParseDecimal(e.quantity).value, ParseDecimal(e.quantity).value)]
            else r
  {
    StatusTexts(e.orderStatus);
    hide ParseDecimal, ToUpper, ToLower, TrimSpace, Digits, StatusOf;
    StoreSame(r, Digits(e.orderID));
  }

  lemma StoreSame(r: Resting, id: string)
    ensures Store(r, id, Lookup(r, id)) == r && Store(r, id, None) == r - {id}
  {
  }

  /** A terminal event removes its order. */
  lemma EndingEvent(symbol: string, r: Resting, e: OrderEvent)
    requires ForLedger(symbol, e)
    requires var s := ToUpper(e.orderStatus);
             s == "CANCELED" || s == "CANCELLED" || s == "FILLED" || s == "EXPIRED" || s == "REJECTED"
    ensures ApplyEvent(symbol, r, e) == r - {Digits(e.orderID)}
  {
    StatusTexts(e.orderStatus);
    hide ToUpper, TrimSpace, Digits, StatusOf;
  }

  /** An event with any other status changes nothing. */
  lemma UnknownEvent(symbol: string, r: Resting, e: OrderEvent)
    requires var s := ToUpper(e.orderStatus);
             !OpeningText(s) && !ChangingText(s) && !EndingText(s) && s != "PARTIALLY_FILLED"
    ensures ApplyEvent(symbol, r, e) == r
  {
    StatusTexts(e.orderStatus);
    hide ToUpper, TrimSpace, Digits, StatusOf, OpeningText, ChangingText, EndingText;
    if e.orderID > 0 {
      StoreSame(r, Digits(e.orderID));
    }
  }

  /** A partial fill changes only the amount of its order, to the remaining quantity, unless that is more than the original
      amount. It creates an unknown order from its price, its side and the larger quantity. A remaining quantity that is not
      positive removes the order, and one that is not a number changes nothing. */
  lemma FillingEvent(symbol: string, r: Resting, e: OrderEvent)
    requires ForLedger(symbol, e) && ToUpper(e.orderStatus) == "PARTIALLY_FILLED"
    ensures var id := Digits(e.orderID);
            var rem := ParseDecimal(e.remainingQty);
            && (rem.None? ==> ApplyEvent(symbol, r, e) == r)
            && (rem.Some? && rem.value.val <= 0 ==> ApplyEvent(symbol, r, e) == r - {id})
            && (rem.Some? && rem.value.val > 0 && id in r ==>
              ApplyEvent(symbol, r, e) ==
              if Cmp(rem.value, r[id].originalAmount) > 0 then r else r[id := r[id].(amount := rem.value)])
            && (rem.Some? && rem.value.val > 0 && id !in r ==>
              ApplyEvent(symbol, r, e) ==
              if Sided(e) && PositiveText(e.price)
                 && (PositiveText(e.quantity) ==> Cmp(ParseDecimal(e.quantity).value, rem.value) >= 0)
              then r[id := RestingOrder(id, e.clientOrderID, ToLower(TrimSpace(e.side)), ParseDecimal(e.price).value, rem.value,
                                        if PositiveText(e.quantity) then ParseDecimal(e.quantity).value else rem.value)]
              else r)
  {
    StatusTexts(e.orderStatus);
    hide ParseDecimal, ToUpper, ToLower, TrimSpace, Digits, StatusOf, Cmp;
    StoreSame(r, Digits(e.orderID));
    if ParseDecimal(e.remainingQty).Some? {
      CmpSelf(ParseDecimal(e.remainingQty).value);
    }
  }

  /** What an amendment leaves of the quantity: all of it without a remaining text. */
  function LeftOf(e: OrderEvent): Option<Decimal> {
    if TrimSpace(e.remainingQty) == "" then ParseDecimal(e.quantity) else ParseDecimal(e.remainingQty)
  }

  /** The amendment can be acted on: price and quantity are positive, and what is left is a number not above the quantity. */
  predicate SoundAmendment(e: OrderEvent) {
    && PositiveText(e.price) && PositiveText(e.quantity)
    && LeftOf(e).Some? && Cmp(LeftOf(e).value, ParseDecimal(e.quantity).value) <= 0
  }

  /** An amendment gives its order the new price, remaining amount and original amount; it changes the side and the client ID
      when it names them, and keeps them when they are empty. It creates an unknown order when it names a side. With nothing
      left it removes the order; unsound, or naming a side that is none, it changes nothing. */
  lemma ChangingEvent(symbol: string, r: Resting, e: OrderEvent)
    requires ForLedger(symbol, e)
    requires var s := ToUpper(e.orderStatus); s == "MODIFIED" || s == "AMENDED" || s == "REPLACED"
    ensures var id := Digits(e.orderID);
            var side := ToLower(TrimSpace(e.side));
            && (!SoundAmendment(e) ==> ApplyEvent(symbol, r, e) == r)
            && (SoundAmendment(e) && LeftOf(e).value.val <= 0 ==> ApplyEvent(symbol, r, e) == r - {id})
            && (SoundAmendment(e) && LeftOf(e).value.val > 0 ==>
              var price, left, original := ParseDecimal(e.price).value, LeftOf(e).value, ParseDecimal(e.quantity).value;
              ApplyEvent(symbol, r, e) ==
              if id in r && (e.side == "" || Sided(e)) then
                r[id := RestingOrder(r[id].orderID, if e.clientOrderID == "" then r[id].clientOrderID else e.clientOrderID,
                                     if e.side == "" then r[id].side else side, price, left, original)]
              else if id !in r && Sided(e) then r[id := RestingOrder(id, e.clientOrderID, side, price, left, original)]
              else r)
  {
    StatusTexts(e.orderStatus);
    BlankIsNoSide();
    hide ParseDecimal, ToUpper, ToLower, TrimSpace, Digits, StatusOf, Cmp;
    StoreSame(r, Digits(e.orderID));
    if ParseDecimal(e.quantity).Some? {
      CmpSelf(ParseDecimal(e.quantity).value);
    }
  }

  /** The events whose replay is not absorbed, from their fields: sound amendments with something left and an empty side. */
  lemma SidelessMeans(symbol: string, e: OrderEvent)
    ensures Convergence.Sideless(symbol, e) <==>
      && ForLedger(symbol, e) && ChangingText(ToUpper(e.orderStatus))
      && SoundAmendment(e) && LeftOf(e).value.val > 0 && e.side == ""
  {
    StatusTexts(e.orderStatus);
    hide ParseDecimal, ToUpper, ToLower, TrimSpace, Digits, StatusOf, Cmp, ChangingText;
    if ParseDecimal(e.quantity).Some? {
      CmpSelf(ParseDecimal(e.quantity).value);
    }
  }

  lemma BlankIsNoSide()
    ensures ToLower(TrimSpace("")) == ""
  {
  }

  // ---- snapshots ----

  /** The executed part of a listed order: zero unless it is a positive number. */
  function Executed(o: ListedOrder): Decimal {
    if o.executedAmount.Some? && PositiveText(o.executedAmount.value) then ParseDecimal(o.executedAmount.value).value else ZERO
  }

  /** The listed order belongs in the ledger: right symbol, ID, known side, price and amount that are numbers, and less
      executed than was ordered. */
  predicate OpenOn(symbol: string, o: ListedOrder) {
    && (o.symbol.None? || ToUpper(TrimSpace(o.symbol.value)) == symbol)
    && o.orderID.Some? && (o.side == Some(BuySide) || o.side == Some(SellSide))
    && o.price.Some? && ParseDecimal(o.price.value).Some?
    && o.originalAmount.Some? && ParseDecimal(o.originalAmount.value).Some?
    && Cmp(Executed(o), ParseDecimal(o.originalAmount.value).value) < 0
  }

  /** The first two numbers add up to the third, at a scale that fits them all. */
  ghost predicate MakeUp(left: Decimal, done: Decimal, whole: Decimal) {
    && left.scale <= MAX_DIGITS && done.scale <= MAX_DIGITS && whole.scale <= MAX_DIGITS
    && At(left, MAX_DIGITS) + At(done, MAX_DIGITS) == At(whole, MAX_DIGITS)
  }

  /** The entry says what the listed order says; its amount and the executed part make up the original amount. */
  ghost predicate Describes(r: RestingOrder, o: ListedOrder)
    requires o.orderID.Some? && o.price.Some? && o.originalAmount.Some?
  {
    && r.orderID == o.orderID.value
    && r.clientOrderID == (if o.clientOrderID.Some? then o.clientOrderID.value else "")
    && (r.side == "buy" <==> o.side == Some(BuySide)) && (r.side == "sell" <==> o.side == Some(SellSide))
    && ParseDecimal(o.price.value) == Some(r.price)
    && ParseDecimal(o.originalAmount.value) == Some(r.originalAmount)
    && MakeUp(r.amount, Executed(o), r.originalAmount)
    && (Executed(o) == ZERO ==> r.amount == r.originalAmount)
  }

  lemma SignIsCmp(d: Decimal)
    requires 0 <= d.scale <= MAX_DIGITS
    ensures Cmp(ZERO, d) < 0 <==> d.val > 0
    ensures At(ZERO, MAX_DIGITS) == 0
  {
    hide Cmp, Pow10;
    CmpMeaning(ZERO, d, MAX_DIGITS);
    Arith.MulCancel(0, d.val, Pow10(MAX_DIGITS - d.scale));
  }

  /** What is left of an order is positive exactly when less was executed than ordered. */
  lemma LeftOver(a: Decimal, done: Decimal)
    requires 0 <= a.scale <= MAX_DIGITS && 0 <= done.scale <= MAX_DIGITS
    ensures var left := Sub(a, done);
            && MakeUp(left, done, a)
            && (left.val > 0 <==> Cmp(done, a) < 0)
  {
    hide Cmp, Pow10, Sub;
    var left := Sub(a, done);
    AddSubMeaning(a, done, MAX_DIGITS);
    SubScale(a, done);
    CmpMeaning(done, a, MAX_DIGITS);
    Arith.MulCancel(0, left.val, Pow10(MAX_DIGITS - left.scale));
  }

  lemma ListedMeans(symbol: string, o: ListedOrder)
    ensures Listed(symbol, o).Some? <==> OpenOn(symbol, o)
    ensures OpenOn(symbol, o) ==> Describes(Listed(symbol, o).value, o)
  {
    hide ParseDecimal, Cmp, Sub, TrimSpace, ToUpper, Pow10;
    if o.originalAmount.Some? && ParseDecimal(o.originalAmount.value).Some? {
      var a := ParseDecimal(o.originalAmount.value).value;
      ParsedIsNormal(o.originalAmount.value);
      SignIsCmp(a);
      if o.executedAmount.Some? && PositiveText(o.executedAmount.value) {
        ParsedIsNormal(o.executedAmount.value);
        LeftOver(a, ParseDecimal(o.executedAmount.value).value);
      }
    }
  }

  /** Hydration leaves an ID in the ledger exactly when some listed order of that ID belongs there, and the entry is what the
      last of them says. */
  lemma HydratedLedger(symbol: string, orders: seq<ListedOrder>, id: string)
    ensures id in Snapshot(symbol, orders) <==>
      exists i | 0 <= i < |orders| :: OpenOn(symbol, orders[i]) && orders[i].orderID == Some(id)
    ensures forall i ::
      && 0 <= i < |orders| && OpenOn(symbol, orders[i]) && orders[i].orderID == Some(id)
      && (forall j | i < j < |orders| :: OpenOn(symbol, orders[j]) ==> orders[j].orderID != Some(id))
      ==> id in Snapshot(symbol, orders) && Describes(Snapshot(symbol, orders)[id], orders[i])
  {
    hide Listed, OpenOn, Describes, Snapshot;
    SnapshotEntry(symbol, orders, id);
    forall i | 0 <= i < |orders|
      ensures Listed(symbol, orders[i]).Some? <==> OpenOn(symbol, orders[i])
      ensures OpenOn(symbol, orders[i]) ==>
        orders[i].orderID.Some? && orders[i].price.Some? && orders[i].originalAmount.Some? &&
        Describes(Listed(symbol, orders[i]).value, orders[i]) && Some(Listed(symbol, orders[i]).value.orderID) == orders[i].orderID
    {
      ListedSays(symbol, orders[i]);
    }
  }

  lemma ListedSays(symbol: string, o: ListedOrder)
    ensures Listed(symbol, o).Some? <==> OpenOn(symbol, o)
    ensures OpenOn(symbol, o) ==>
      && o.orderID.Some? && o.price.Some? && o.originalAmount.Some?
      && Describes(Listed(symbol, o).value, o) && Some(Listed(symbol, o).value.orderID) == o.orderID
  {
    hide Listed;
    ListedMeans(symbol, o);
  }
}
