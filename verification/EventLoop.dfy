/** The event loop's handlers, updating the order book, the fund row and the archive deadlines in place
    (src/core/event_loop.cpp). They refine the functions of module EventLoopModel. */
module EventLoop {
  import opened Integers
  import opened OrderTypes
  import opened SecurityIdentity
  import FundRow
  import opened OrderBookModel
  import opened OrderBooks
  import opened OrderRouter
  import opened SessionActions
  import opened EventLoopModel

  class Service {
    const config: Config
    const router: Router
    const book: OrderBook
    const positions: FundRow.PositionManager
    var pending: map<OrderId, uint64>

    ghost predicate Valid()
      reads this, router, book, book.slots
    {
      router.book == book && router.Valid()
    }

    ghost function Model(): Loop
      reads this, router, router.book, positions
    {
      Loop(router.Model(), positions.Model(), pending)
    }

    constructor (config: Config, router: Router, positions: FundRow.PositionManager)
      requires router.Valid()
      ensures Valid() && this.config == config && this.router == router && this.positions == positions
      ensures Model() == Loop(router.Model(), positions.Model(), map[])
    {
      this.config, this.router, this.book, this.positions, this.pending := config, router, router.book, positions,
        map[];
    }

    /** Returns what is left of a reservation; `left` is what the order holds afterwards. */
    method Unfreeze(e: Entry) returns (left: uint64, ok: bool)
      modifies positions
      ensures Settled(e.(fundFrozen := left), positions.Model(), ok) == Release(e, old(positions.Model()))
    {
      hide FundRow.Apply;
      if e.kind != OrderType.New || e.side != Buy || e.fundFrozen == 0 {
        return e.fundFrozen, true;
      }
      FundRow.FailureChangesNothing(positions.Model(), FundRow.Unfreeze(e.fundFrozen));
      ok := positions.UnfreezeFund(e.fundFrozen);
      left := if ok then 0 else e.fundFrozen;
    }

    /** Freezes the whole cost of a buy order; `held` is what the order holds afterwards. */
    method Freeze(e: Entry) returns (held: uint64, ok: bool)
      modifies positions
      ensures Settled(e.(fundFrozen := held), positions.Model(), ok) == Reserve(e, old(positions.Model()))
    {
      hide FundRow.Apply, Cost;
      if e.kind != OrderType.New || e.side != Buy {
        return e.fundFrozen, true;
      }
      var value := Cost(e);
      if value > U64_MAX {
        return e.fundFrozen, false;
      }
      if value + e.feeEstimate > U64_MAX {
        return e.fundFrozen, false;
      }
      FundRow.FailureChangesNothing(positions.Model(), FundRow.Freeze(value + e.feeEstimate));
      ok := positions.FreezeFund(value + e.feeEstimate);
      held := if ok then value + e.feeEstimate else e.fundFrozen;
    }

    /** Pays for a fill, from the reservation if there is one; `left` is what the order holds afterwards. */
    method PayForFill(e: Entry, value: uint64, fee: uint64) returns (left: uint64, ok: bool)
      modifies positions
      ensures Settled(e.(fundFrozen := left), positions.Model(), ok) == SettleBuy(e, old(positions.Model()), value, fee)
    {
      hide FundRow.Apply;
      left := e.fundFrozen;
      if e.fundFrozen == 0 {
        ok := positions.ApplyBuyTradeFund(value, fee);
        return;
      }
      if value + fee > U64_MAX {
        return left, false;
      }
      FundRow.FailureChangesNothing(positions.Model(), FundRow.Deduct(value, fee));
      ok := positions.DeductFund(value, fee);
      if ok {
        left := if e.fundFrozen >= value + fee then e.fundFrozen - (value + fee) else 0;
      }
    }

    method ReleaseOrderResources(id: OrderId)
      requires Valid() && id in book.view.entries
      modifies book, book.slots, positions
      ensures Valid() && Model() == ReleaseOf(old(Model()), id)
    {
      hide book.Valid, Release;
      var found := book.FindOrder(id);
      var e := found.value;
      var left, ok := Unfreeze(e);
      book.SetFundFrozen(id, left);
    }

    method ReserveOrderResources(id: OrderId) returns (ok: bool)
      requires Valid() && id in book.view.entries
      modifies book, book.slots, positions
      ensures Valid()
      ensures var s := Reserve(old(book.view.entries[id]), old(positions.Model()));
              ok == s.ok && Model() == Put(old(Model()), id, s)
    {
      hide book.Valid, Reserve;
      var found := book.FindOrder(id);
      var e := found.value;
      var held;
      held, ok := Freeze(e);
      book.SetFundFrozen(id, held);
    }

    method RecordTrade(r: Response, now: uint64)
      requires Valid()
      modifies book, book.slots, positions
      ensures Valid() && Model() == RecordFill(old(Model()), r, now)
    {
      hide book.Valid, OrderBookModel.UpdateTrade, SettleBuy;
      if r.volume == 0 {
        return;
      }
      var booked := book.UpdateTrade(r.id, r.volume, r.price, r.value, r.fee, now);
      TradeKeepsKeys(old(book.view), r, now);
      if !booked {
        return;
      }
      SettleFill(r);
    }

    method SettleFill(r: Response)
      requires Valid() && r.id in book.view.entries
      modifies book, book.slots, positions
      ensures Valid()
      ensures Model() == Put(old(Model()), r.id, Settle(old(book.view.entries[r.id]), old(positions.Model()), r))
    {
      hide book.Valid, Settle;
      var found := book.FindOrder(r.id);
      var e := found.value;
      var left, ok := SettleCash(e, r);
      book.SetFundFrozen(r.id, left);
    }

    /** The response, not the order, says whether cash goes out or comes in. */
    method SettleCash(e: Entry, r: Response) returns (left: uint64, ok: bool)
      modifies positions
      ensures Settled(e.(fundFrozen := left), positions.Model(), ok) == Settle(e, old(positions.Model()), r)
    {
      hide FundRow.Apply, SettleBuy;
      left, ok := e.fundFrozen, true;
      if e.kind == OrderType.New {
        if r.side == Buy {
          left, ok := PayForFill(e, r.value, r.fee);
        } else if r.side == Sell {
          ok := positions.ApplySellTradeFund(r.value, r.fee);
        }
      }
    }

    method ReleaseIfEnded(id: OrderId)
      requires Valid()
      modifies book, book.slots, positions
      ensures Valid() && Model() == ReleaseEnded(old(Model()), id)
    {
      hide ReleaseOf;
      var booked := book.IsBooked(id);
      if !booked {
        return;
      }
      hide book.Valid;
      var found := book.FindOrder(id);
      var e := found.value;
      if !IsTerminal(e.state) {
        return;
      }
      ReleaseOrderResources(id);
      if e.kind == OrderType.Cancel && e.origId != 0 {
        ReleaseOriginal(e.origId);
      }
    }

    method ReleaseOriginal(id: OrderId)
      requires Valid()
      modifies book, book.slots, positions
      ensures Valid() && Model() == ReleaseOf(old(Model()), id)
    {
      hide book.Valid, Release;
      var found := book.FindOrder(id);
      if found.Some? {
        ReleaseOrderResources(id);
      }
    }

    method HandleTradeResponse(r: Response, now: uint64)
      requires Valid()
      modifies this`pending, book, book.slots, positions
      ensures Valid() && Model() == HandleResponse(old(Model()), config, r, now)
    {
      hide book.Valid, OrderBookModel.UpdateState, RecordFill, ReleaseEnded, Archive;
      if r.id == 0 {
        return;
      }
      var _ := book.UpdateState(r.id, r.newState, now);
      RecordTrade(r, now);
      ReleaseIfEnded(r.id);
      if !IsTerminal(r.newState) {
        pending := pending - {r.id};
        return;
      }
      if !config.archive {
        pending := pending - {r.id};
        return;
      }
      if config.delayNs == 0 {
        var _ := book.ArchiveOrder(r.id);
        pending := pending - {r.id};
        return;
      }
      pending := pending[r.id := WrapAdd(now, config.delayNs)];
    }

    /** Collects the ids whose deadline has passed. */
    method DueOrders(now: uint64) returns (due: set<OrderId>)
      ensures due == Due(Model(), now)
    {
      due := {};
      var rest := pending.Keys;
      while rest != {}
        invariant rest <= pending.Keys
        invariant due == set id | id in pending.Keys - rest && now >= pending[id]
        decreases rest
      {
        var id :| id in rest;
        if now >= pending[id] {
          due := due + {id};
        }
        rest := rest - {id};
      }
    }

    method ProcessPendingArchives(now: uint64)
      requires Valid()
      modifies this`pending, book, book.slots
      ensures Valid() && Model() == ProcessArchives(old(Model()), now)
    {
      hide book.Valid;
      var due := DueOrders(now);
      ArchiveDue(due);
    }

    /** Archives the due orders one by one, in any order. */
    method ArchiveDue(due: set<OrderId>)
      requires Valid()
      modifies this`pending, book, book.slots
      ensures Valid() && Model() == ArchiveAll(old(Model()), due)
    {
      hide book.Valid, ArchiveAll, Archive;
      var rest := due;
      NothingDue(Model());
      assert due - rest == {};
      while rest != {}
        invariant rest <= due
        invariant Valid() && Model() == ArchiveAll(old(Model()), due - rest)
        decreases rest
      {
        var id :| id in rest;
        ArchiveOneMore(old(Model()), due - rest, id);
        assert due - (rest - {id}) == (due - rest) + {id};
        var ended := HasEnded(id);
        if ended {
          var _ := book.ArchiveOrder(id);
        }
        pending := pending - {id};
        rest := rest - {id};
      }
      assert due - rest == due;
    }

    method HasEnded(id: OrderId) returns (ended: bool)
      requires Valid()
      ensures ended == Ended(Model(), id)
    {
      hide book.Valid;
      var found := book.FindOrder(id);
      ended := found.Some? && IsTerminal(found.value.state);
    }

    // ---------- Requests ----------

    method HandleOrderRequest(q: Request, s: Surroundings, now: uint64)
      requires Valid()
      modifies router, book, book.slots, positions
      ensures Valid() && Model() == HandleRequest(old(Model()), q, s, now)
    {
      hide book.Valid, Accept, Build, Cost;
      var request := q.entry;
      if request.kind == OrderType.New && request.securityKey == "" && q.code != "" {
        var key := BuildInPlace(q.market, q.code);
        if key.None? {
          return;
        }
        request := request.(securityKey := key.value);
      }
      if request.id == 0 {
        request := request.(id := s.freshId);
      }
      if request.kind == OrderType.New && request.feeEstimate == 0 && 0 < Cost(q.entry) <= U64_MAX {
        request := request.(feeEstimate := s.feeEstimate);
      }
      var entry := request.(submitNs := now, updatedNs := now, isSplitChild := false, parent := 0, fundFrozen := 0,
                            slotIndex := q.slot);
      assert Some(entry) == Prepared(q, s, now);
      hide Prepared;
      AcceptOrder(entry, s, now);
    }

    method AcceptOrder(e: Entry, s: Surroundings, now: uint64)
      requires Valid()
      modifies router, book, book.slots, positions
      ensures Valid() && Model() == Accept(old(Model()), e, s, now)
    {
      hide book.Valid, Add, OrderBookModel.UpdateState, CanAdd, ReserveAndRoute, Manage;
      var added := book.AddOrder(e, now);
      if !added {
        UnchangedUnlessAddable(old(book.view), e, now);
        return;
      }
      AddBooks(old(book.view), e, now);
      StateKeepsKeys(book.view, e.id, RiskControllerPending, now);
      var _ := book.UpdateState(e.id, RiskControllerPending, now);
      if e.kind == OrderType.New && !s.riskPasses {
        var _ := book.UpdateState(e.id, RiskControllerRejected, now);
        return;
      }
      StateKeepsKeys(book.view, e.id, RiskControllerAccepted, now);
      var _ := book.UpdateState(e.id, RiskControllerAccepted, now);
      if e.kind == OrderType.New && s.managed.Some? {
        HandToEngine(e.id, s.managed.value, now);
      } else {
        ReserveThenRoute(e.id, s, now);
      }
    }

    /** The order is the engine's now, and reserves nothing here. */
    method HandToEngine(id: OrderId, start: StartResult, now: uint64)
      requires Valid()
      modifies book, book.slots
      ensures Valid() && Model() == Manage(old(Model()), id, start, now)
    {
      hide book.Valid, OrderBookModel.UpdateState, MarkManaged;
      var _ := book.UpdateState(id, TraderPending, now);
      match start
      case Started => var _ := book.MarkManagedParent(id);
      case Rejected => var _ := book.UpdateState(id, TraderRejected, now);
      case Failed => var _ := book.UpdateState(id, TraderError, now);
    }

    /** The calls a session makes on the shared book and router. */
    method ActForSession(parent: OrderId, action: Action, now: uint64)
      requires Valid()
      modifies router, book, book.slots
      ensures Valid() && Model() == old(Model()).(routing := Act(old(router.Model()), parent, action, now))
    {
      hide book.Valid, SyncManaged, OrderRouter.Submitted;
      match action
      case WriteMirror(view, state) => var _ := book.SyncManagedParentView(parent, view, state, now);
      case SubmitChild(e, attempt) => var _, _ := router.SubmitInternalOrder(ChildOf(e, parent), attempt, now);
    }

    method ReserveThenRoute(id: OrderId, s: Surroundings, now: uint64)
      requires Valid() && id in book.view.entries
      modifies router, book, book.slots, positions
      ensures Valid() && Model() == ReserveAndRoute(old(Model()), id, s, now)
    {
      hide book.Valid, Reserve, OrderBookModel.UpdateState, Route;
      ReserveKeepsWhenFailing(book.view.entries[id], positions.Model());
      var reserved := ReserveOrderResources(id);
      if !reserved {
        assert old(book.view.entries)[id := old(book.view.entries[id])] == old(book.view.entries);
        var _ := book.UpdateState(id, RiskControllerRejected, now);
        return;
      }
      RouteOrder(id, s, now);
    }

    method RouteOrder(id: OrderId, s: Surroundings, now: uint64)
      requires Valid() && id in book.view.entries
      modifies router, book, book.slots, positions
      ensures Valid() && Model() == Route(old(Model()), id, s, now)
    {
      hide book.Valid, OrderBookModel.UpdateState, SentDown, ReleaseOf;
      var ok := SendDown(id, s, now);
      if !ok {
        ReleaseOriginal(id);
        var _ := book.UpdateState(id, TraderError, now);
      }
    }

    method SendDown(id: OrderId, s: Surroundings, now: uint64) returns (ok: bool)
      requires Valid() && id in book.view.entries
      modifies router, book, book.slots
      ensures Valid() && Routed(router.Model(), ok) == SentDown(old(Model()), id, s, now)
    {
      hide book.Valid, RoutedCancel, RoutedNew;
      var found := book.FindOrder(id);
      var e := found.value;
      if e.kind == OrderType.Cancel {
        ok := router.RouteCancel(e.origId, id, s.luck, now);
      } else {
        ok := router.RouteNew(id, e.slotIndex, s.pushed, now);
      }
    }
  }

  lemma ReserveKeepsWhenFailing(e: Entry, f: FundRow.Fund)
    ensures !Reserve(e, f).ok ==> Reserve(e, f) == Settled(e, f, false)
  {
    hide Cost;
  }

  lemma NothingDue(l: Loop)
    ensures ArchiveAll(l, {}) == l
  {
    var b := l.routing.book;
    assert b.entries - {} == b.entries && b.managed - {} == b.managed && b.latched - {} == b.latched
           && l.pending - {} == l.pending;
  }

  lemma ArchiveOneMore(l: Loop, due: set<OrderId>, id: OrderId)
    requires id !in due
    ensures var l1 := ArchiveAll(l, due);
            ArchiveAll(l, due + {id})
            == SetBook(l1, if Ended(l1, id) then Archive(l1.routing.book, id)
                       else l1.routing.book).(pending := l1.pending - {id})
  {
    var b := l.routing.book;
    var gone, gone' := set x | x in due && Ended(l, x), set x | x in due + {id} && Ended(l, x);
    assert gone' == if Ended(l, id) then gone + {id} else gone;
    assert l.pending - (due + {id}) == l.pending - due - {id};
    assert b.entries - (gone + {id}) == b.entries - gone - {id};
    assert b.managed - (gone + {id}) == b.managed - gone - {id};
    assert b.latched - (gone + {id}) == b.latched - gone - {id};
  }
}
