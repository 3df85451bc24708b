/** What requests and reports do to an order and to the fund row, in the volumes, prices and amounts they carry
    (src/core/event_loop.cpp). */
module CashFlows {
  import opened Integers
  import opened OrderTypes
  import opened SecurityIdentity
  import FundRow
  import opened OrderBookModel
  import opened OrderEffects
  import opened OrderRouter
  import opened EventLoopModel

  // ---------- Requests ----------

  /** A request becomes an order with an id of its own or a fresh one, and with the canonical key of its market and code
      if it is new and names no key; a fee is estimated exactly if it is new, gives none, and volume times price is a
      positive 64-bit value. What it asks for stays. */
  lemma RequestIsPrepared(q: Request, s: Surroundings, now: uint64)
    ensures Prepared(q, s, now).None? <==>
            q.entry.kind == OrderType.New && q.entry.securityKey == "" && q.code != "" && Build(q.market, q.code).None?
    ensures Prepared(q, s, now).Some? ==>
              var e := Prepared(q, s, now).value;
              && e.id == (if q.entry.id != 0 then q.entry.id else s.freshId)
              && e.kind == q.entry.kind && e.side == q.entry.side && e.origId == q.entry.origId
              && e.entrust == q.entry.entrust && e.price == q.entry.price
              && (q.entry.securityKey != "" ==> e.securityKey == q.entry.securityKey)
              && (q.entry.kind == OrderType.New && q.entry.securityKey == "" && q.code != "" ==>
                    Some(e.securityKey) == Build(q.market, q.code))
              && (if q.entry.kind == OrderType.New && q.entry.feeEstimate == 0
                     && 0 < q.entry.entrust * q.entry.price <= U64_MAX
                  then e.feeEstimate == s.feeEstimate else e.feeEstimate == q.entry.feeEstimate)
              && e.slotIndex == q.slot && e.fundFrozen == 0 && !e.isSplitChild && e.submitNs == e.updatedNs == now
  {
    hide Build;
  }


  /** A plain buy order that the risk rules pass: if its volume at its price plus its fee fits 64 bits and the
      available cash, then exactly that number is frozen for it, and stays so if the order is taken downstream;
      otherwise the order ends rejected. Where it is not taken, or not rejected but without a slot, it ends in an
      error and costs nothing. */
  lemma BuyFreezesVolumeTimesPrice(l: Loop, e: Entry, s: Surroundings, now: uint64)
    requires CanAdd(l.routing.book, e.id) && e.kind == OrderType.New && e.side == Buy && !e.isSplitChild
    requires e.fundFrozen == 0 && e.id !in l.routing.book.children && s.riskPasses && s.managed.None?
    ensures var total, l' := e.entrust * e.price + e.feeEstimate, Accept(l, e, s, now);
            && e.id in l'.routing.book.entries
            && var e' := l'.routing.book.entries[e.id];
               if total <= U64_MAX && total <= l.fund.available && l.fund.frozen + total <= U64_MAX then
                 if s.pushed && e.slotIndex != U32_MAX then
                   && e'.fundFrozen == total && e'.state == TraderSubmitted
                   && l'.fund.frozen == l.fund.frozen + total && l'.fund.available + total == l.fund.available
                   && l'.fund.total == l.fund.total && l'.fund.marketValue == l.fund.marketValue
                   && l'.routing.queue == l.routing.queue + [e.slotIndex]
                 else
                   e'.fundFrozen == 0 && e'.state == TraderError && l'.fund == l.fund
                     && l'.routing.queue == l.routing.queue
               else
                 e'.fundFrozen == 0 && e'.state == RiskControllerRejected && l'.fund == l.fund
                 && l'.routing.queue == l.routing.queue
  {
    BookedEntry(l, e, RiskControllerAccepted, now);
    StoredKeepsPay(e, now);
    var l2 := Mark(Booked(l, e, now), e.id, RiskControllerAccepted, now);
    ReserveExactly(l2.routing.book.entries[e.id], l2.fund);
    hide Add, OrderBookModel.Stored, UpdateState, ReserveAndRoute, Mark, Reserve;
    ReserveAndRouteEffect(l2, e.id, s, now);
  }

  lemma StoredKeepsPay(e: Entry, now: uint64)
    ensures var s := OrderBookModel.Stored(e, now);
            && s.kind == e.kind && s.side == e.side && s.fundFrozen == e.fundFrozen && s.slotIndex == e.slotIndex
            && s.entrust == e.entrust && s.price == e.price && s.feeEstimate == e.feeEstimate
  {
  }

  lemma ReserveExactly(e: Entry, f: FundRow.Fund)
    requires e.kind == OrderType.New && e.side == Buy
    ensures var total, r := e.entrust * e.price + e.feeEstimate, Reserve(e, f);
            && (r.ok <==> total <= U64_MAX && total <= f.available && f.frozen + total <= U64_MAX)
            && (r.ok ==> r.entry == e.(fundFrozen := total) && MovedToFrozen(f, r.fund, total))
            && (!r.ok ==> r == Settled(e, f, false))
  {
    assert e.entrust * e.price >= 0;
  }

  /** Main result: a plain buy request under a fresh id that the risk rules pass and the queue takes freezes, from
      available cash, exactly its volume times its price plus its fee, given or estimated, if that is there; otherwise
      it is rejected and costs nothing. */
  lemma BuyRequestFreezesItsCost(l: Loop, q: Request, s: Surroundings, now: uint64)
    requires q.entry.kind == OrderType.New && q.entry.side == Buy && q.entry.securityKey != ""
    requires s.riskPasses && s.managed.None? && s.pushed && q.slot != U32_MAX
    requires var id := if q.entry.id != 0 then q.entry.id else s.freshId;
             CanAdd(l.routing.book, id) && id !in l.routing.book.children
    ensures var value := q.entry.entrust * q.entry.price;
            var estimates := q.entry.feeEstimate == 0 && 0 < value <= U64_MAX;
            var total := value + (if estimates then s.feeEstimate else q.entry.feeEstimate);
            var id, l' := if q.entry.id != 0 then q.entry.id else s.freshId, HandleRequest(l, q, s, now);
            && id in l'.routing.book.entries
            && var e' := l'.routing.book.entries[id];
               if total <= U64_MAX && total <= l.fund.available && l.fund.frozen + total <= U64_MAX then
                 && e'.fundFrozen == total && e'.state == TraderSubmitted
                 && l'.fund.frozen == l.fund.frozen + total && l'.fund.available + total == l.fund.available
                 && l'.routing.queue == l.routing.queue + [q.slot]
               else
                 e'.fundFrozen == 0 && e'.state == RiskControllerRejected && l'.fund == l.fund
                 && l'.routing.queue == l.routing.queue
  {
    RequestIsPrepared(q, s, now);
    var e := Prepared(q, s, now).value;
    hide Prepared, Accept, Build;
    BuyFreezesVolumeTimesPrice(l, e, s, now);
  }

  // ---------- Reports ----------

  /** An order of a volume, whole, that is nobody's parent. */
  predicate WholeOrder(l: Loop, id: OrderId) {
    && id != 0 && id in l.routing.book.entries && id !in l.routing.book.children
    && var e := l.routing.book.entries[id];
       e.kind == OrderType.New && e.entrust > 0 && e.traded + e.remain == e.entrust
  }

  /** The entry after the report's state and its fill are recorded, before its cash is settled. */
  function Traded(l: Loop, r: Response, now: uint64): Book {
    UpdateTrade(Mark(l, r.id, r.newState, now).routing.book, r.id, r.volume, r.price, r.value, r.fee, now)
  }

  lemma FillIsBooked(l: Loop, r: Response, now: uint64)
    requires WholeOrder(l, r.id) && r.volume > 0
    ensures r.id in Traded(l, r, now).entries
    ensures var e, t := l.routing.book.entries[r.id], Traded(l, r, now).entries[r.id];
            && (if r.volume <= e.remain then t.traded == e.traded + r.volume && t.remain == e.remain - r.volume
                else t.traded == e.entrust && t.remain == 0)
            && t.value == Min(e.value + r.value, U64_MAX) && t.fee == Min(e.fee + r.fee, U64_MAX)
            && t.state == (if r.volume >= e.remain && !IsTerminal(r.newState) then OrderState.Finished else r.newState)
            && KeepsIdentity(e, t) && t.entrust == e.entrust
    ensures var t := Traded(l, r, now).entries[r.id];
            var l' := RecordFill(Mark(l, r.id, r.newState, now), r, now);
            && r.id in l'.routing.book.entries && r.id !in l'.routing.book.children
            && l'.routing.book.entries[r.id] == Settle(t, l.fund, r).entry && l'.fund == Settle(t, l.fund, r).fund
  {
    MarkedEntry(l, r.id, r.newState, now);
    MarkKeepsRest(l, r.id, r.newState, now);
    var b := Mark(l, r.id, r.newState, now).routing.book;
    FillIsCounted(b, r.id, r.volume, r.price, r.value, r.fee, now);
    hide Mark, UpdateTrade, Settle, IsQuotient;
  }

  /** An order that has not ended keeps what it holds, and one that has gives it all back. */
  lemma EndingSettles(l: Loop, id: OrderId)
    requires id in l.routing.book.entries && l.routing.book.entries[id].kind == OrderType.New
    ensures var e, l' := l.routing.book.entries[id], ReleaseEnded(l, id);
            && id in l'.routing.book.entries
            && if IsTerminal(e.state) then
                 l'.routing.book.entries[id] == Release(e, l.fund).entry && l'.fund == Release(e, l.fund).fund
               else l' == l
  {
    hide Release;
  }

  lemma ReleasedInFull(e: Entry, f: FundRow.Fund)
    requires e.kind == OrderType.New && e.side == Buy
    requires e.fundFrozen <= f.frozen && f.available + e.fundFrozen <= U64_MAX
    ensures var s := Release(e, f);
            && s.entry == e.(fundFrozen := 0)
            && s.fund == f.(available := f.available + e.fundFrozen, frozen := f.frozen - e.fundFrozen)
  {
  }

  /** A report keeps its order booked, unless it ends it and the book is cleaned at once. */
  lemma ClosingKeepsBooked(l: Loop, c: Config, r: Response, now: uint64)
    ensures var l' := Close(l, c, r, now);
            && l'.fund == l.fund
            && (forall id :: id in l'.routing.book.entries ==>
                  id in l.routing.book.entries && l'.routing.book.entries[id] == l.routing.book.entries[id])
            && (forall id :: id in l.routing.book.entries && !(id == r.id && LeavesAtOnce(c, r)) ==>
                  id in l'.routing.book.entries)
  {
  }

  predicate LeavesAtOnce(c: Config, r: Response) {
    IsTerminal(r.newState) && c.archive && c.delayNs == 0
  }

  lemma PaidFromReservation(e: Entry, f: FundRow.Fund, r: Response)
    requires e.kind == OrderType.New && r.side == Buy && r.value + r.fee <= e.fundFrozen <= f.frozen && e.fundFrozen > 0
    requires f.marketValue + r.value <= U64_MAX
    ensures var s := Settle(e, f, r);
            && s.entry == e.(fundFrozen := e.fundFrozen - (r.value + r.fee))
            && s.fund == f.(frozen := f.frozen - (r.value + r.fee), marketValue := f.marketValue + r.value,
                            total := FundRow.Minus(f.total, r.fee))
  {
  }

  /** Main result: a report of a fill within a buy order's reservation counts the reported volume and pays for the fill
      from the reservation. A partial fill that leaves the order open lets it hold the rest; a report that ends the
      order, or a fill of all that remained, gives the rest back to available cash. */
  lemma FillPaysFromReservation(l: Loop, c: Config, r: Response, now: uint64)
    requires WholeOrder(l, r.id) && l.routing.book.entries[r.id].side == Buy && r.side == Buy && r.volume > 0
    requires l.routing.book.entries[r.id].fundFrozen > 0
    requires r.value + r.fee <= l.routing.book.entries[r.id].fundFrozen <= l.fund.frozen
    requires l.fund.marketValue + r.value <= U64_MAX && l.fund.available + l.fund.frozen <= U64_MAX
    ensures var e, l' := l.routing.book.entries[r.id], HandleResponse(l, c, r, now);
            var ends := IsTerminal(r.newState) || r.volume >= e.remain;
            && l'.fund.marketValue == l.fund.marketValue + r.value
            && (r.fee <= l.fund.total ==> l'.fund.total + r.fee == l.fund.total)
            && (if ends then
                  && l'.fund.frozen + e.fundFrozen == l.fund.frozen
                  && l'.fund.available + r.value + r.fee == l.fund.available + e.fundFrozen
                else l'.fund.frozen + r.value + r.fee == l.fund.frozen && l'.fund.available == l.fund.available)
            && (r.id in l'.routing.book.entries <==> !LeavesAtOnce(c, r))
            && (r.id in l'.routing.book.entries ==>
                  Counts(e, l'.routing.book.entries[r.id], r)
                  && l'.routing.book.entries[r.id].fundFrozen == if ends then 0 else e.fundFrozen - (r.value + r.fee))
  {
    FillIsBooked(l, r, now);
    var t := Traded(l, r, now).entries[r.id];
    PaidFromReservation(t, l.fund, r);
    var l1 := RecordFill(Mark(l, r.id, r.newState, now), r, now);
    hide Mark, RecordFill, ReleaseEnded, Settle, Traded;
    EndingSettles(l1, r.id);
    ReleasedInFull(l1.routing.book.entries[r.id], l1.fund);
    hide Release;
    ClosingKeepsBooked(ReleaseEnded(l1, r.id), c, r, now);
  }

  /** What a fill leaves of an order: the reported volume counted, value and fee added up, and the reported state, or
      finished once nothing remains. */
  predicate Counts(e: Entry, e': Entry, r: Response) {
    && (if r.volume < e.remain then e'.traded == e.traded + r.volume && e'.remain == e.remain - r.volume
        else e'.traded == e.entrust && e'.remain == 0)
    && e'.value == Min(e.value + r.value, U64_MAX) && e'.fee == Min(e.fee + r.fee, U64_MAX)
    && e'.state == (if r.volume >= e.remain && !IsTerminal(r.newState) then OrderState.Finished else r.newState)
  }

  /** A reported purchase on an order that holds nothing is paid from available cash, if it is there. */
  lemma FillPaysFromCash(l: Loop, c: Config, r: Response, now: uint64)
    requires WholeOrder(l, r.id) && r.side == Buy && r.volume > 0
    requires l.routing.book.entries[r.id].fundFrozen == 0 && r.value + r.fee <= l.fund.available
    requires l.fund.marketValue + r.value <= U64_MAX
    ensures var e, l' := l.routing.book.entries[r.id], HandleResponse(l, c, r, now);
            && l'.fund.available + r.value + r.fee == l.fund.available && l'.fund.frozen == l.fund.frozen
            && l'.fund.marketValue == l.fund.marketValue + r.value
            && (r.fee <= l.fund.total ==> l'.fund.total + r.fee == l.fund.total)
            && (r.id in l'.routing.book.entries ==> Counts(e, l'.routing.book.entries[r.id], r))
  {
    FillIsBooked(l, r, now);
    var t := Traded(l, r, now).entries[r.id];
    FundRow.PurchaseMoves(l.fund, r.value, r.fee);
    PaidFromCash(t, l.fund, r);
    var l1 := RecordFill(Mark(l, r.id, r.newState, now), r, now);
    hide Mark, RecordFill, ReleaseEnded, Settle, Traded, FundRow.Apply;
    EndingSettles(l1, r.id);
    EmptyReleasesNothing(l1.routing.book.entries[r.id], l1.fund);
    hide Release;
    ClosingKeepsBooked(ReleaseEnded(l1, r.id), c, r, now);
  }

  lemma PaidFromCash(e: Entry, f: FundRow.Fund, r: Response)
    requires e.kind == OrderType.New && r.side == Buy && e.fundFrozen == 0
    ensures Settle(e, f, r) == Settled(e, FundRow.Apply(f, FundRow.BuyTrade(r.value, r.fee)).fund,
                                       FundRow.Apply(f, FundRow.BuyTrade(r.value, r.fee)).ok)
  {
    hide FundRow.Apply;
  }

  lemma EmptyReleasesNothing(e: Entry, f: FundRow.Fund)
    requires e.fundFrozen == 0
    ensures Release(e, f) == Settled(e, f, true)
  {
  }

  /** A reported sale counts the reported volume, brings its value less the fee as available cash, and touches no frozen
      cash. */
  lemma SaleBringsCash(l: Loop, c: Config, r: Response, now: uint64)
    requires WholeOrder(l, r.id) && l.routing.book.entries[r.id].fundFrozen == 0 && r.side == Sell && r.volume > 0
    requires r.fee <= l.fund.available + r.value <= U64_MAX + r.fee
    ensures var e, l' := l.routing.book.entries[r.id], HandleResponse(l, c, r, now);
            && l'.fund.available + r.fee == l.fund.available + r.value && l'.fund.frozen == l.fund.frozen
            && (r.value <= l.fund.marketValue ==> l'.fund.marketValue + r.value == l.fund.marketValue)
            && (r.fee <= l.fund.total ==> l'.fund.total + r.fee == l.fund.total)
            && (r.id in l'.routing.book.entries ==> Counts(e, l'.routing.book.entries[r.id], r))
  {
    FillIsBooked(l, r, now);
    var t := Traded(l, r, now).entries[r.id];
    FundRow.SaleMoves(l.fund, r.value, r.fee);
    SoldFromHolding(t, l.fund, r);
    var l1 := RecordFill(Mark(l, r.id, r.newState, now), r, now);
    hide Mark, RecordFill, ReleaseEnded, Settle, Traded, FundRow.Apply;
    EndingSettles(l1, r.id);
    EmptyReleasesNothing(l1.routing.book.entries[r.id], l1.fund);
    hide Release;
    ClosingKeepsBooked(ReleaseEnded(l1, r.id), c, r, now);
  }

  lemma SoldFromHolding(e: Entry, f: FundRow.Fund, r: Response)
    requires e.kind == OrderType.New && r.side == Sell
    ensures Settle(e, f, r) == Settled(e, FundRow.Apply(f, FundRow.SellTrade(r.value, r.fee)).fund,
                                       FundRow.Apply(f, FundRow.SellTrade(r.value, r.fee)).ok)
  {
    hide FundRow.Apply;
  }

  /** A report that ends a buy order without a fill gives back all it holds. */
  lemma EndGivesBack(l: Loop, c: Config, r: Response, now: uint64)
    requires r.id != 0 && r.id in l.routing.book.entries && r.id !in l.routing.book.children
    requires var e := l.routing.book.entries[r.id];
             && e.kind == OrderType.New && e.side == Buy && e.fundFrozen <= l.fund.frozen
             && l.fund.available + l.fund.frozen <= U64_MAX
    requires IsTerminal(r.newState) && r.volume == 0
    ensures var e, l' := l.routing.book.entries[r.id], HandleResponse(l, c, r, now);
            && l'.fund.frozen + e.fundFrozen == l.fund.frozen
            && l'.fund.available == l.fund.available + e.fundFrozen
            && l'.fund.total == l.fund.total && l'.fund.marketValue == l.fund.marketValue
            && (r.id in l'.routing.book.entries ==> l'.routing.book.entries[r.id].fundFrozen == 0)
  {
    MarkedEntry(l, r.id, r.newState, now);
    MarkKeepsRest(l, r.id, r.newState, now);
    var l1 := Mark(l, r.id, r.newState, now);
    assert RecordFill(l1, r, now) == l1;
    hide Mark, RecordFill, ReleaseEnded;
    EndingSettles(l1, r.id);
    ReleasedInFull(l1.routing.book.entries[r.id], l1.fund);
    hide Release;
  }

  /** A report that ends a cancel gives back all that the order it aimed at still holds. */
  lemma EndedCancelGivesBack(l: Loop, c: Config, r: Response, now: uint64)
    requires r.id != 0 && r.id in l.routing.book.entries && Alone(l.routing.book, r.id)
    requires IsTerminal(r.newState) && r.volume == 0
    requires var cancel := l.routing.book.entries[r.id];
             && cancel.kind == OrderType.Cancel && cancel.origId != 0 && cancel.origId != r.id
             && cancel.origId in l.routing.book.entries
             && var e := l.routing.book.entries[cancel.origId];
                e.kind == OrderType.New && e.side == Buy && e.fundFrozen <= l.fund.frozen
                && l.fund.available + l.fund.frozen <= U64_MAX
    ensures var orig := l.routing.book.entries[r.id].origId;
            var e, l' := l.routing.book.entries[orig], HandleResponse(l, c, r, now);
            && l'.fund.frozen + e.fundFrozen == l.fund.frozen && l'.fund.available == l.fund.available + e.fundFrozen
            && orig in l'.routing.book.entries && l'.routing.book.entries[orig] == e.(fundFrozen := 0)
  {
    MarkingAlone(l.routing.book, r.id, r.newState, now);
    var orig := l.routing.book.entries[r.id].origId;
    var l1 := Mark(l, r.id, r.newState, now);
    assert RecordFill(l1, r, now) == l1;
    hide UpdateState, RecordFill;
    ReleasedInFull(l.routing.book.entries[orig], l.fund);
    CancelHoldsNothing(l1.routing.book.entries[r.id], l1.fund);
    hide Release;
    var l2 := ReleaseOf(l1, r.id);
    assert l2 == l1 by {
      assert l1.routing.book.entries[r.id := l1.routing.book.entries[r.id]] == l1.routing.book.entries;
    }
    ClosingKeepsBooked(ReleaseEnded(l1, r.id), c, r, now);
  }

  lemma CancelHoldsNothing(e: Entry, f: FundRow.Fund)
    requires e.kind == OrderType.Cancel
    ensures Release(e, f) == Settled(e, f, true)
  {
  }
}
