/** Runs from the start of the service in which cash and reservations part (src/core/event_loop.cpp,
    src/order/order_recovery.cpp). */
module CashExceptions {
  import opened Integers
  import opened OrderTypes
  import FundRow
  import opened SecurityIdentity
  import opened OrderBookModel
  import opened OrderRouter
  import opened EventLoopModel
  import opened CashFlows
  import R = OrderRecovery

  function SentEntry(e: Entry, now: uint64, frozen: uint64): Entry {
    OrderBookModel.Stored(e, now).(state := TraderSubmitted, updatedNs := now, fundFrozen := frozen)
  }

  /** The book with one more order, on its own. */
  function With(b: Book, e: Entry): Book {
    b.(entries := b.entries[e.id := e], nextId := Max(b.nextId, SaturatedNextId(e.id)))
  }

  function Marked(e: Entry, state: OrderState, now: uint64): Entry {
    OrderBookModel.Stored(e, now).(state := state, updatedNs := now)
  }

  lemma BuyIsBooked(b: Book, e: Entry, now: uint64)
    requires CanAdd(b, e.id) && Alone(b, e.id) && !e.isSplitChild
    ensures UpdateState(UpdateState(Add(b, e, now), e.id, RiskControllerPending, now), e.id, RiskControllerAccepted,
                        now)
            == With(b, Marked(e, RiskControllerAccepted, now))
  {
    var st := OrderBookModel.Stored(e, now);
    StoredKeepsIdentity(e, now);
    hide OrderBookModel.Stored;
    assert Add(b, e, now) == With(b, st);
    MarkingAlone(With(b, st), e.id, RiskControllerPending, now);
    MarkingAlone(With(b, Marked(e, RiskControllerPending, now)), e.id, RiskControllerAccepted, now);
    hide UpdateState, Add;
    assert With(b, st).entries[e.id := Marked(e, RiskControllerPending, now)]
           == With(b, Marked(e, RiskControllerPending, now)).entries;
  }

  lemma SamePrice(e: Entry, e': Entry, f: FundRow.Fund)
    requires e'.kind == e.kind && e'.side == e.side && Cost(e') == Cost(e) && e'.feeEstimate == e.feeEstimate
             && e'.fundFrozen == e.fundFrozen
    ensures var s, s' := Reserve(e, f), Reserve(e', f);
            s'.ok == s.ok && s'.fund == s.fund && s'.entry == e'.(fundFrozen := s.entry.fundFrozen)
  {
    hide Cost;
  }

  /** A plain buy order that is accepted, paid for and taken downstream adds itself to the book, and touches
      nothing else. */
  lemma BuyAddsItself(l: Loop, e: Entry, s: Surroundings, now: uint64)
    requires CanAdd(l.routing.book, e.id) && Alone(l.routing.book, e.id)
    requires Reserves(e) && !e.isSplitChild && e.fundFrozen == 0
    requires s.riskPasses && s.managed.None? && s.pushed && e.slotIndex != U32_MAX && Reserve(e, l.fund).ok
    ensures var l' := Accept(l, e, s, now);
            && l'.routing.book == With(l.routing.book, SentEntry(e, now, Reserve(e, l.fund).entry.fundFrozen))
            && l'.routing.nextOrderId == l.routing.nextOrderId && l'.fund == Reserve(e, l.fund).fund
            && l'.pending == l.pending
  {
    BuyIsBooked(l.routing.book, e, now);
    StoredKeepsCost(e, now);
    StoredKeepsIdentity(e, now);
    hide UpdateState, Add, OrderBookModel.Stored, Cost;
    var e2 := Marked(e, RiskControllerAccepted, now);
    SamePrice(e, e2, l.fund);
    hide Reserve;
    var l2 := SetBook(l, With(l.routing.book, e2));
    assert Accept(l, e, s, now) == ReserveAndRoute(l2, e.id, s, now);
    hide Accept, ReserveAndRoute;
    assert e2.slotIndex == e.slotIndex by {
      StoredKeepsSlot(e, now);
    }
    BuyIsPaidAndSent(l2, e.id, s, now);
  }

  lemma StoredKeepsSlot(e: Entry, now: uint64)
    ensures OrderBookModel.Stored(e, now).slotIndex == e.slotIndex
  {
  }

  lemma BuyIsPaidAndSent(l: Loop, id: OrderId, s: Surroundings, now: uint64)
    requires id in l.routing.book.entries && Alone(l.routing.book, id) && l.routing.book.entries[id].id == id
    requires var e := l.routing.book.entries[id]; Reserves(e) && e.slotIndex != U32_MAX && Reserve(e, l.fund).ok
    requires s.pushed
    ensures var e, l' := l.routing.book.entries[id], ReserveAndRoute(l, id, s, now);
            var sent := Reserve(e, l.fund).entry.(state := TraderSubmitted, updatedNs := now);
            && l'.routing.book == l.routing.book.(entries := l.routing.book.entries[id := sent])
            && l'.routing.nextOrderId == l.routing.nextOrderId && l'.fund == Reserve(e, l.fund).fund
            && l'.pending == l.pending
  {
    var r := Reserve(l.routing.book.entries[id], l.fund);
    var l' := Put(l, id, r);
    assert r.entry.slotIndex == l.routing.book.entries[id].slotIndex && r.entry.kind == OrderType.New by {
      hide Cost;
    }
    MarkingAlone(l'.routing.book, id, TraderSubmitted, now);
    hide UpdateState, Reserve;
  }

  // ---------- One order's overdraft takes another's reservation ----------

  /** A buy of ten at a price of one, without fees. */
  function TenAtOne(id: OrderId): Entry {
    BLANK.(id := id, kind := OrderType.New, side := Buy, entrust := 10, price := 1, securityKey := "X", submitNs := 1,
           updatedNs := 1, slotIndex := id)
  }

  function BuyRequest(id: OrderId): Request {
    Request(TenAtOne(id), Market.SZ, "", id)
  }

  function Accepting(): Surroundings {
    Surroundings(0, 0, true, None, true, _ => Attempt(None, false))
  }

  const HUNDRED: FundRow.Fund := FundRow.Fund(100, 100, 0, 0)

  /** The loop holds these plain orders, and this much cash is free and frozen. */
  ghost predicate Holds(l: Loop, entries: map<OrderId, Entry>, available: nat, frozen: nat) {
    && l.routing.book == EmptyBook(10).(entries := entries, nextId := l.routing.book.nextId)
    && l.fund.available == available && l.fund.frozen == frozen && l.fund.marketValue == 0
  }

  lemma TenIsReserved(l: Loop, entries: map<OrderId, Entry>, available: uint64, frozen: uint64, id: OrderId)
    requires Holds(l, entries, available, frozen) && available >= 10 && frozen <= 10
    requires id in {1, 2} && id !in entries && |entries| < 10
    ensures Holds(HandleRequest(l, BuyRequest(id), Accepting(), 1), entries[id := SentEntry(TenAtOne(id), 1, 10)],
                  available - 10, frozen + 10)
  {
    assert Prepared(BuyRequest(id), Accepting(), 1) == Some(TenAtOne(id));
    BuyAddsItself(l, TenAtOne(id), Accepting(), 1);
    hide Accept, OrderBookModel.Stored;
  }

  const FIRST: Entry := SentEntry(TenAtOne(1), 1, 10)
  const SECOND: Entry := SentEntry(TenAtOne(2), 1, 10)

  /** Half of the first order, at three times its price. */
  const DEAR: Response := Response(1, MarketAccepted, Buy, 5, 3, 15, 0)

  lemma DearFill(l: Loop, c: Config)
    requires Holds(l, map[1 := FIRST, 2 := SECOND], 80, 20)
    ensures var l' := HandleResponse(l, c, DEAR, 2);
            && l'.fund.frozen == 5
            && 2 in l'.routing.book.entries && l'.routing.book.entries[2] == SECOND
            && !Release(SECOND, l'.fund).ok
  {
    MarkingAlone(l.routing.book, 1, MarketAccepted, 2);
    var l1 := Mark(l, 1, MarketAccepted, 2);
    var e1 := FIRST.(state := MarketAccepted, updatedNs := 2);
    assert l1.routing.book.entries == map[1 := FIRST, 2 := SECOND][1 := e1];
    hide UpdateState;
    var e2 := Trade(e1, 5, 3, 15, 0, 2);
    assert e2.fundFrozen == 10 && e2.kind == OrderType.New && e2.state == MarketAccepted;
    hide Trade;
    assert UpdateTrade(l1.routing.book, 1, 5, 3, 15, 0, 2)
           == l1.routing.book.(entries := l1.routing.book.entries[1 := e2]);
    var l2 := RecordFill(l1, DEAR, 2);
    assert l2.fund.frozen == 5 && !Ended(l2, 1);
  }

  /** Two orders have reserved ten each; a fill of the first costs fifteen, and five of them come from what the second
      has reserved: frozen cash is less than its reservation, and it cannot be released any more. */
  lemma OverdraftTakesFromOthers(c: Config)
    ensures var l := RunLoop(StartLoop(10, 1, HUNDRED), c, [
                Submitted(BuyRequest(1), Accepting(), 1), Submitted(BuyRequest(2), Accepting(), 1), Reported(DEAR, 2)]);
            && l.fund.frozen == 5
            && 2 in l.routing.book.entries && l.routing.book.entries[2].fundFrozen == 10
            && !Release(l.routing.book.entries[2], l.fund).ok
  {
    BothAreReserved();
    hide HandleRequest, HandleResponse, Release, RunLoop, Holds, BuyRequest, Accepting, StartLoop, DEAR;
    var l0 := StartLoop(10, 1, HUNDRED);
    DearFill(HandleRequest(HandleRequest(l0, BuyRequest(1), Accepting(), 1), BuyRequest(2), Accepting(), 1), c);
    ThreeEvents(l0, c, Submitted(BuyRequest(1), Accepting(), 1), Submitted(BuyRequest(2), Accepting(), 1),
                Reported(DEAR, 2));
    SecondHoldsTen();
  }

  lemma SecondHoldsTen()
    ensures SECOND.fundFrozen == 10
  {
  }

  lemma FirstIsReserved()
    ensures Holds(HandleRequest(StartLoop(10, 1, HUNDRED), BuyRequest(1), Accepting(), 1), map[1 := FIRST], 90, 10)
  {
    assert Holds(StartLoop(10, 1, HUNDRED), map[], 100, 0);
    hide HandleRequest, Holds, BuyRequest, Accepting, StartLoop, TenAtOne, SentEntry;
    TenIsReserved(StartLoop(10, 1, HUNDRED), map[], 100, 0, 1);
  }

  lemma SecondIsReserved(l: Loop)
    requires Holds(l, map[1 := FIRST], 90, 10)
    ensures Holds(HandleRequest(l, BuyRequest(2), Accepting(), 1), map[1 := FIRST, 2 := SECOND], 80, 20)
  {
    hide HandleRequest, Holds, BuyRequest, Accepting, TenAtOne, SentEntry;
    var c := map[1 := FIRST];
    assert |c| == 1;
    TenIsReserved(l, c, 90, 10, 2);
    assert c[2 := SECOND] == map[1 := FIRST, 2 := SECOND];
  }

  lemma BothAreReserved()
    ensures var l := HandleRequest(StartLoop(10, 1, HUNDRED), BuyRequest(1), Accepting(), 1);
            Holds(HandleRequest(l, BuyRequest(2), Accepting(), 1), map[1 := FIRST, 2 := SECOND], 80, 20)
  {
    FirstIsReserved();
    hide HandleRequest, Holds, BuyRequest, Accepting, StartLoop, FIRST, SECOND;
    SecondIsReserved(HandleRequest(StartLoop(10, 1, HUNDRED), BuyRequest(1), Accepting(), 1));
  }

  lemma ThreeEvents(l: Loop, config: Config, a: Event, b: Event, c: Event)
    ensures RunLoop(l, config, [a, b, c]) == Handle(Handle(Handle(l, config, a), config, b), config, c)
  {
    hide Handle;
    assert [a, b, c][1..] == [b, c] && [b, c][1..] == [c] && [c][1..] == [];
    var l1 := Handle(l, config, a);
    assert RunLoop(l1, config, [b, c]) == RunLoop(Handle(l1, config, b), config, [c]);
  }

  // ---------- A reservation lost in a restart ----------

  /** The pool after the first order was sent: its slot, and one that was never written. */
  const SLOTS: R.Slots := [None, Some(R.Snapshot(FIRST, R.DownstreamQueued, 1))]

  /** The entry that recovery makes of it. */
  const RECOVERED: Entry := R.RecoveredEntry(R.Snapshot(FIRST, R.DownstreamQueued, 1), 1, 2)

  /** The order is cancelled at the market without a fill. */
  const GONE: Response := Response(1, OrderState.Finished, Buy, 0, 0, 0, 0)

  /** Recovery into an empty book takes the order from its slot. */
  ghost predicate RecoversTo(b: Book) {
    && R.Candidates(SLOTS, 2, map[1 := 1]) && R.Rebuilt(SLOTS, map[1 := 1], map[1 := RECOVERED], 2)
    && R.RestoredFrom(EmptyBook(10), b, map[1 := RECOVERED], {1}, 2)
  }

  lemma FirstIsRecovered()
    ensures RecoversTo(With(EmptyBook(10), OrderBookModel.Stored(RECOVERED, 2)))
  {
    assert R.Claims(SLOTS, 2, 1, 1);
    assert forall i: nat, id :: R.Claims(SLOTS, 2, i, id) ==> i == 1 && id == 1;
  }

  /** An order reserves ten and is sent, the service restarts, and the order ends without a fill: without the restart
      the ten are given back, after it they stay frozen although no booked order holds anything. */
  lemma RestartLosesReservation(c: Config)
    ensures var sent := RunLoop(StartLoop(10, 1, HUNDRED), c, [Submitted(BuyRequest(1), Accepting(), 1)]);
            var b := With(EmptyBook(10), OrderBookModel.Stored(RECOVERED, 2));
            var back := Loop(Routing(b, 2, []), sent.fund, map[]);
            && 1 in sent.routing.book.entries && sent.routing.book.entries[1] == FIRST && sent.fund.frozen == 10
            && RecoversTo(b)
            && HandleResponse(sent, c, GONE, 3).fund.frozen == 0
            && HandleResponse(back, c, GONE, 3).fund.frozen == 10 && b.entries[1].fundFrozen == 0
  {
    OneEvent(StartLoop(10, 1, HUNDRED), c, Submitted(BuyRequest(1), Accepting(), 1));
    FirstIsReserved();
    FirstIsRecovered();
    hide RecoversTo, Holds, FIRST, RECOVERED, HandleRequest, HandleResponse, StartLoop, BuyRequest, Accepting, RunLoop;
    var sent := HandleRequest(StartLoop(10, 1, HUNDRED), BuyRequest(1), Accepting(), 1);
    FirstGivesBack(sent, c);
    RecoveredGivesNothing(sent.fund, c);
  }

  lemma OneEvent(l: Loop, config: Config, a: Event)
    ensures RunLoop(l, config, [a]) == Handle(l, config, a)
  {
    hide Handle;
    assert [a][1..] == [];
  }

  lemma FirstGivesBack(l: Loop, c: Config)
    requires Holds(l, map[1 := FIRST], 90, 10)
    ensures HandleResponse(l, c, GONE, 3).fund.frozen == 0
    ensures 1 in l.routing.book.entries && l.routing.book.entries[1] == FIRST && l.fund.frozen == 10
    ensures l.fund.available + l.fund.frozen <= U64_MAX
  {
    hide HandleResponse;
    EndGivesBack(l, c, GONE, 3);
  }

  lemma RecoveredGivesNothing(fund: FundRow.Fund, c: Config)
    requires fund.available + fund.frozen <= U64_MAX
    ensures var b := With(EmptyBook(10), OrderBookModel.Stored(RECOVERED, 2));
            && 1 in b.entries && b.entries[1].fundFrozen == 0
            && HandleResponse(Loop(Routing(b, 2, []), fund, map[]), c, GONE, 3).fund.frozen == fund.frozen
  {
    hide HandleResponse;
    StoredKeepsPay(RECOVERED, 2);
    StoredKeepsIdentity(RECOVERED, 2);
    var stored := OrderBookModel.Stored(RECOVERED, 2);
    hide OrderBookModel.Stored;
    EndGivesBack(Loop(Routing(With(EmptyBook(10), stored), 2, []), fund, map[]), c, GONE, 3);
  }
}
