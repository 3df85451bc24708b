/** The event loop's handling of cash: a plain buy order reserves its whole cost before it is routed, fills consume the
    reservation, and whatever ends the order returns the rest; an order that the execution engine manages reserves
    nothing, and neither do its children (src/core/event_loop.cpp). */
module EventLoopModel {
  import opened Integers
  import opened OrderTypes
  import opened Sums
  import opened SecurityIdentity
  import FundRow
  import opened OrderBookModel
  import opened OrderRouter
  import opened SessionActions
  import opened CashNeutral

  /** The book with the router around it, the fund row, and the deadlines of terminal orders waiting to be archived. */
  datatype Loop = Loop(routing: Routing, fund: FundRow.Fund, pending: map<OrderId, uint64>)

  datatype Config = Config(archive: bool, delayNs: uint64)

  /** An order as it comes out of the upstream queue, before it has an id or a security key. */
  datatype Request = Request(entry: Entry, market: Market, code: string, slot: uint32)

  /** How the execution engine answers when asked to start a session: it starts one, rejects the order, or fails. */
  datatype StartResult = Started | Rejected | Failed

  /** What the surroundings of a request decide: the next upstream id, the estimated fee, the verdict of the risk rules,
      whether the engine manages the order and how its session starts, whether the downstream queue takes the order, and
      the pool's answers to a cancel. */
  datatype Surroundings = Surroundings(
    freshId: OrderId, feeEstimate: uint64, riskPasses: bool, managed: Option<StartResult>, pushed: bool,
    luck: nat -> Attempt)

  datatype Response = Response(
    id: OrderId, newState: OrderState, side: TradeSide, volume: uint64, price: uint64, value: uint64, fee: uint64)

  // ---------- Reserving, settling, releasing ----------

  datatype Settled = Settled(entry: Entry, fund: FundRow.Fund, ok: bool)

  predicate Reserves(e: Entry) {
    e.kind == OrderType.New && e.side == Buy
  }

  function Cost(e: Entry): nat {
    e.entrust * e.price
  }

  function Reserve(e: Entry, f: FundRow.Fund): Settled {
    if !Reserves(e) then Settled(e, f, true)
    else if Cost(e) > U64_MAX || Cost(e) + e.feeEstimate > U64_MAX then Settled(e, f, false)
    else
      var total := Cost(e) + e.feeEstimate;
      var o := FundRow.Apply(f, FundRow.Freeze(total));
      if o.ok then Settled(e.(fundFrozen := total), o.fund, true) else Settled(e, f, false)
  }

  function Release(e: Entry, f: FundRow.Fund): Settled {
    if !Reserves(e) || e.fundFrozen == 0 then Settled(e, f, true)
    else
      var o := FundRow.Apply(f, FundRow.Unfreeze(e.fundFrozen));
      if o.ok then Settled(e.(fundFrozen := 0), o.fund, true) else Settled(e, f, false)
  }

  function SettleBuy(e: Entry, f: FundRow.Fund, value: uint64, fee: uint64): Settled {
    if e.fundFrozen == 0 then
      var o := FundRow.Apply(f, FundRow.BuyTrade(value, fee));
      Settled(e, o.fund, o.ok)
    else if value + fee > U64_MAX then Settled(e, f, false)
    else
      var o := FundRow.Apply(f, FundRow.Deduct(value, fee));
      if o.ok then Settled(e.(fundFrozen := FundRow.Minus(e.fundFrozen, value + fee)), o.fund, true)
        else Settled(e, f, false)
  }

  /** The fund side of a fill; the response, not the order, says whether it bought or sold. */
  function Settle(e: Entry, f: FundRow.Fund, r: Response): Settled {
    if e.kind != OrderType.New then Settled(e, f, true)
    else
      match r.side
      case Buy => SettleBuy(e, f, r.value, r.fee)
      case Sell => var o := FundRow.Apply(f, FundRow.SellTrade(r.value, r.fee)); Settled(e, o.fund, o.ok)
      case _ => Settled(e, f, true)
  }

  // ---------- The handlers ----------

  function SetBook(l: Loop, b: Book): Loop {
    l.(routing := l.routing.(book := b))
  }

  /** Writes an entry through the pointer the handlers hold, and the fund row. */
  function Put(l: Loop, id: OrderId, s: Settled): Loop {
    SetBook(l, l.routing.book.(entries := l.routing.book.entries[id := s.entry])).(fund := s.fund)
  }

  function ReleaseOf(l: Loop, id: OrderId): Loop {
    var entries := l.routing.book.entries;
    if id in entries then Put(l, id, Release(entries[id], l.fund)) else l
  }

  function Mark(l: Loop, id: OrderId, state: OrderState, now: uint64): Loop {
    SetBook(l, UpdateState(l.routing.book, id, state, now))
  }

  /** The request once its key, its id and its fee estimate are filled in; None if it names no known security. */
  function Prepared(q: Request, s: Surroundings, now: uint64): Option<Entry> {
    var key := if q.entry.kind == OrderType.New && q.entry.securityKey == "" && q.code != ""
        then Build(q.market, q.code)
               else Some(q.entry.securityKey);
    if key.None? then None
    else
      var id := if q.entry.id == 0 then s.freshId else q.entry.id;
      var noFee := q.entry.kind == OrderType.New && q.entry.feeEstimate == 0 && 0 < Cost(q.entry) <= U64_MAX;
      Some(q.entry.(id := id, securityKey := key.value, feeEstimate := if noFee then s.feeEstimate
                    else q.entry.feeEstimate,
                    submitNs := now, updatedNs := now, isSplitChild := false, parent := 0, fundFrozen := 0,
                    slotIndex := q.slot))
  }

  function SentDown(l: Loop, id: OrderId, s: Surroundings, now: uint64): Routed
    requires id in l.routing.book.entries
  {
    var e := l.routing.book.entries[id];
    if e.kind == OrderType.Cancel then RoutedCancel(l.routing, e.origId, id, s.luck, now)
    else RoutedNew(l.routing, id, e.slotIndex, s.pushed, now)
  }

  function Route(l: Loop, id: OrderId, s: Surroundings, now: uint64): Loop
    requires id in l.routing.book.entries
  {
    var routed := SentDown(l, id, s, now);
    var l' := l.(routing := routed.routing);
    if routed.ok then l' else Mark(ReleaseOf(l', id), id, TraderError, now)
  }

  function ReserveAndRoute(l: Loop, id: OrderId, s: Surroundings, now: uint64): Loop
    requires id in l.routing.book.entries
  {
    var reserved := Reserve(l.routing.book.entries[id], l.fund);
    if !reserved.ok then Mark(l, id, RiskControllerRejected, now)
    else Route(Put(l, id, reserved), id, s, now)
  }

  /** The order goes to the execution engine; once a session runs, its parent is marked as managed. The session's first
      tick is the next event of the run. */
  function Manage(l: Loop, id: OrderId, start: StartResult, now: uint64): Loop {
    var l' := Mark(l, id, TraderPending, now);
    match start
    case Started => SetBook(l', MarkManaged(l'.routing.book, id))
    case Rejected => Mark(l', id, TraderRejected, now)
    case Failed => Mark(l', id, TraderError, now)
  }

  /** The order is booked, passes the risk rules or not, and then is handed to the engine, or reserves its cash and
      is routed. */
  function Accept(l: Loop, e: Entry, s: Surroundings, now: uint64): Loop {
    if !CanAdd(l.routing.book, e.id) then l
    else
      AddBooks(l.routing.book, e, now);
      var l1 := Mark(SetBook(l, Add(l.routing.book, e, now)), e.id, RiskControllerPending, now);
      StateKeepsKeys(Add(l.routing.book, e, now), e.id, RiskControllerPending, now);
      if e.kind == OrderType.New && !s.riskPasses then Mark(l1, e.id, RiskControllerRejected, now)
      else
        StateKeepsKeys(l1.routing.book, e.id, RiskControllerAccepted, now);
        var l2 := Mark(l1, e.id, RiskControllerAccepted, now);
        if e.kind == OrderType.New && s.managed.Some? then Manage(l2, e.id, s.managed.value, now)
        else ReserveAndRoute(l2, e.id, s, now)
  }

  function HandleRequest(l: Loop, q: Request, s: Surroundings, now: uint64): Loop {
    match Prepared(q, s, now)
    case None => l
    case Some(e) => Accept(l, e, s, now)
  }

  function RecordFill(l: Loop, r: Response, now: uint64): Loop {
    if r.volume == 0 then l
    else
      var l1 := SetBook(l, UpdateTrade(l.routing.book, r.id, r.volume, r.price, r.value, r.fee, now));
      var entries := l1.routing.book.entries;
      if r.id in entries then Put(l1, r.id, Settle(entries[r.id], l1.fund, r)) else l1
  }

  predicate Ended(l: Loop, id: OrderId) {
    id in l.routing.book.entries && IsTerminal(l.routing.book.entries[id].state)
  }

  function ReleaseEnded(l: Loop, id: OrderId): Loop {
    if !Ended(l, id) then l
    else
      var l1 := ReleaseOf(l, id);
      var e := l.routing.book.entries[id];
      if e.kind == OrderType.Cancel && e.origId != 0 then ReleaseOf(l1, e.origId) else l1
  }

  function Close(l: Loop, c: Config, r: Response, now: uint64): Loop {
    if !IsTerminal(r.newState) || !c.archive then l.(pending := l.pending - {r.id})
    else if c.delayNs == 0 then SetBook(l, Archive(l.routing.book, r.id)).(pending := l.pending - {r.id})
    else l.(pending := l.pending[r.id := WrapAdd(now, c.delayNs)])
  }

  function HandleResponse(l: Loop, c: Config, r: Response, now: uint64): Loop {
    if r.id == 0 then l
    else Close(ReleaseEnded(RecordFill(Mark(l, r.id, r.newState, now), r, now), r.id), c, r, now)
  }

  function Due(l: Loop, now: uint64): set<OrderId> {
    set id | id in l.pending && now >= l.pending[id]
  }

  /** Drops due orders that are still booked and still terminal, in whatever order. */
  function ArchiveAll(l: Loop, due: set<OrderId>): Loop {
    var b := l.routing.book;
    var gone := set id | id in due && Ended(l, id);
    SetBook(l, b.(entries := b.entries - gone, managed := b.managed - gone, latched := b.latched - gone))
      .(pending := l.pending - due)
  }

  function ProcessArchives(l: Loop, now: uint64): Loop {
    ArchiveAll(l, Due(l, now))
  }

  // ---------- The invariant ----------

  ghost function FrozenOf(entries: map<OrderId, Entry>): map<OrderId, nat> {
    map id | id in entries :: entries[id].fundFrozen
  }

  ghost function FrozenSum(entries: map<OrderId, Entry>): nat {
    Sum(FrozenOf(entries))
  }

  /** A booked order holds cash only while it is a buy order that has not ended. */
  predicate HoldsRightly(e: Entry) {
    e.fundFrozen > 0 ==> Reserves(e) && !IsTerminal(e.state)
  }

  predicate CashFits(f: FundRow.Fund) {
    f.available + f.frozen <= U64_MAX
  }

  /** Every entry is filed under its id and holds cash rightly; those of `open` may have ended already. */
  ghost predicate AllHoldRightly(entries: map<OrderId, Entry>, open: set<OrderId>) {
    forall id :: id in entries ==>
      && entries[id].id == id
      && (entries[id].fundFrozen > 0 ==> Reserves(entries[id]))
      && (id !in open ==> HoldsRightly(entries[id]))
  }

  /** Global frozen cash is what is frozen elsewhere plus the reservations of the booked orders, none of
      them a parent's. */
  ghost predicate Balanced(l: Loop, elsewhere: int, open: set<OrderId>) {
    && ParentsHoldNothing(l.routing.book)
    && AllHoldRightly(l.routing.book.entries, open)
    && CashFits(l.fund)
    && l.fund.frozen == elsewhere + FrozenSum(l.routing.book.entries)
  }

  /** The state between two events: nothing that ended holds cash. */
  ghost predicate Reserved(l: Loop, elsewhere: int) {
    Balanced(l, elsewhere, {})
  }

  lemma FrozenReplace(entries: map<OrderId, Entry>, id: OrderId, e: Entry)
    ensures FrozenSum(entries[id := e]) + (if id in entries then entries[id].fundFrozen else 0)
            == FrozenSum(entries) + e.fundFrozen
  {
    SumUpdate(FrozenOf(entries), id, e.fundFrozen);
    assert FrozenOf(entries[id := e]) == FrozenOf(entries)[id := e.fundFrozen];
  }

  lemma FrozenMember(entries: map<OrderId, Entry>, id: OrderId)
    requires id in entries
    ensures entries[id].fundFrozen <= FrozenSum(entries)
  {
    SumMember(FrozenOf(entries), id);
  }

  lemma {:induction false} FrozenDrop(entries: map<OrderId, Entry>, gone: set<OrderId>)
    requires forall id :: id in gone ==> id in entries && entries[id].fundFrozen == 0
    ensures FrozenSum(entries - gone) == FrozenSum(entries)
    decreases gone
  {
    if gone == {} {
      assert entries - gone == entries;
    } else {
      var id :| id in gone;
      SumRemove(FrozenOf(entries), id);
      assert FrozenOf(entries - {id}) == FrozenOf(entries) - {id};
      FrozenDrop(entries - {id}, gone - {id});
      assert entries - gone == entries - {id} - (gone - {id});
    }
  }

  lemma FrozenGrow(before: map<OrderId, Entry>, after: map<OrderId, Entry>)
    requires forall id :: id in before ==> id in after && after[id].fundFrozen == before[id].fundFrozen
    requires forall id :: id in after && id !in before ==> after[id].fundFrozen == 0
    ensures FrozenSum(after) == FrozenSum(before)
  {
    var grown := after.Keys - before.Keys;
    FrozenDrop(after, grown);
    assert FrozenOf(after - grown) == FrozenOf(before);
  }

  // ---------- What each step does to the balance ----------

  /** Book operations that move no cash keep the balance, up to the orders they name. */
  lemma NeutralBalances(l: Loop, elsewhere: int, open: set<OrderId>, x: set<OrderId>, b: Book)
    requires Balanced(l, elsewhere, open) && Neutral(l.routing.book, b, x)
    ensures Balanced(SetBook(l, b), elsewhere, open + x)
  {
    FrozenGrow(l.routing.book.entries, b.entries);
    hide FrozenSum;
    NeutralHolds(l.routing.book, b, open, x);
  }

  lemma NeutralHolds(b: Book, b': Book, open: set<OrderId>, x: set<OrderId>)
    requires AllHoldRightly(b.entries, open) && Neutral(b, b', x)
    ensures AllHoldRightly(b'.entries, open + x)
  {
  }

  lemma HoldReplace(entries: map<OrderId, Entry>, open: set<OrderId>, open': set<OrderId>, id: OrderId, e: Entry)
    requires AllHoldRightly(entries, open) && e.id == id
    requires e.fundFrozen > 0 ==> Reserves(e)
    requires HoldsRightly(e) || id in open'
    requires open <= open' + {id}
    ensures AllHoldRightly(entries[id := e], open')
  {
  }

  /** Writing what an order holds: a parent may not start to hold anything. */
  lemma PutBalances(l: Loop, elsewhere: int, open: set<OrderId>, open': set<OrderId>, id: OrderId, s: Settled)
    requires Balanced(l, elsewhere, open) && s.entry.id == id && id in l.routing.book.entries
    requires s.entry.fundFrozen > 0 ==> Reserves(s.entry)
    requires s.entry.fundFrozen > 0 ==>
               l.routing.book.entries[id].fundFrozen > 0
                 || (id !in l.routing.book.children && id !in l.routing.book.managed)
    requires HoldsRightly(s.entry) || id in open'
    requires open <= open' + {id} && CashFits(s.fund)
    ensures Balanced(Put(l, id, s),
                     elsewhere + (s.fund.frozen - s.entry.fundFrozen)
                     - (l.fund.frozen - l.routing.book.entries[id].fundFrozen), open')
  {
    hide FrozenSum, AllHoldRightly, HoldsRightly, Reserves;
    HoldReplace(l.routing.book.entries, open, open', id, s.entry);
    FrozenReplace(l.routing.book.entries, id, s.entry);
  }

  lemma HeldByReserving(l: Loop, elsewhere: int, open: set<OrderId>, id: OrderId)
    requires Balanced(l, elsewhere, open) && id in l.routing.book.entries
    ensures l.routing.book.entries[id].id == id
    ensures l.routing.book.entries[id].fundFrozen > 0 ==> Reserves(l.routing.book.entries[id])
    ensures id !in open ==> HoldsRightly(l.routing.book.entries[id])
    ensures elsewhere >= 0 ==> l.routing.book.entries[id].fundFrozen <= l.fund.frozen
    ensures id in l.routing.book.children || id in l.routing.book.managed ==> l.routing.book.entries[id].fundFrozen == 0
  {
    FrozenMember(l.routing.book.entries, id);
    hide FrozenSum;
  }

  lemma Fits(l: Loop, elsewhere: int, open: set<OrderId>)
    requires Balanced(l, elsewhere, open)
    ensures CashFits(l.fund) && ParentsHoldNothing(l.routing.book)
  {
  }

  /** An order that holds cash rightly, or is not booked, need not be named. */
  lemma CloseAt(l: Loop, elsewhere: int, open: set<OrderId>, id: OrderId)
    requires Balanced(l, elsewhere, open + {id})
    requires id in l.routing.book.entries ==> HoldsRightly(l.routing.book.entries[id])
    ensures Balanced(l, elsewhere, open)
  {
    hide FrozenSum, ParentsHoldNothing;
  }

  lemma OpenMore(l: Loop, elsewhere: int, open: set<OrderId>, id: OrderId)
    requires Balanced(l, elsewhere, open)
    ensures Balanced(l, elsewhere, open + {id})
  {
    hide FrozenSum, ParentsHoldNothing;
  }

  /** What marking a state does to the order itself: exactly that, unless it is a parent. */
  lemma MarkedEntry(l: Loop, id: OrderId, state: OrderState, now: uint64)
    requires id in l.routing.book.entries
    ensures var b := Mark(l, id, state, now).routing.book;
            && id in b.entries && KeepsIdentity(l.routing.book.entries[id], b.entries[id])
            && (id !in l.routing.book.children ==>
                b.entries[id] == l.routing.book.entries[id].(state := state, updatedNs := now))
  {
    MarkedBook(l.routing.book, id, state, now);
    hide UpdateState;
  }

  lemma MarkedBook(b: Book, id: OrderId, state: OrderState, now: uint64)
    requires id in b.entries
    ensures var b' := UpdateState(b, id, state, now);
            && id in b'.entries && KeepsIdentity(b.entries[id], b'.entries[id])
            && (id !in b.children ==> b'.entries[id] == b.entries[id].(state := state, updatedNs := now))
  {
    hide Refresh;
    var e := b.entries[id].(state := state, updatedNs := now);
    var latched := if state == TraderError && id in b.children && id !in b.managed then b.latched + {id} else b.latched;
    var b1 := b.(entries := b.entries[id := e], latched := latched);
    if id in b.parentOf {
      RefreshOnlyProgress(b1, b.parentOf[id]);
      NotAParent(b1, id);
    }
  }

  lemma NotAParent(b: Book, id: OrderId)
    ensures id !in b.children ==> Refresh(b, id) == b
  {
  }

  /** Marks do not touch the relations of the book, nor the queue or the fund row. */
  lemma MarkKeepsRest(l: Loop, id: OrderId, state: OrderState, now: uint64)
    ensures var l' := Mark(l, id, state, now);
            && l'.fund == l.fund && l'.routing.queue == l.routing.queue
            && l'.routing.nextOrderId == l.routing.nextOrderId
            && l'.pending == l.pending
            && l'.routing.book.children == l.routing.book.children && l'.routing.book.managed == l.routing.book.managed
            && l'.routing.book.parentOf == l.routing.book.parentOf
            && l'.routing.book.capacity == l.routing.book.capacity
            && l'.routing.book.entries.Keys == l.routing.book.entries.Keys
  {
    StateKeepsKeys(l.routing.book, id, state, now);
    hide Refresh;
  }

  lemma MarkBalances(l: Loop, elsewhere: int, open: set<OrderId>, id: OrderId, state: OrderState, now: uint64)
    requires Balanced(l, elsewhere, open)
    ensures Balanced(Mark(l, id, state, now), elsewhere, open + {id})
    ensures id !in open && !IsTerminal(state) ==> Balanced(Mark(l, id, state, now), elsewhere, open)
    ensures id in l.routing.book.entries && l.routing.book.entries[id].fundFrozen == 0 ==>
            Balanced(Mark(l, id, state, now), elsewhere, open)
  {
    Fits(l, elsewhere, open);
    StateIsNeutral(l.routing.book, id, state, now);
    hide Balanced, UpdateState, Neutral;
    NeutralBalances(l, elsewhere, open, {id}, UpdateState(l.routing.book, id, state, now));
    if id in l.routing.book.entries {
      HeldByReserving(l, elsewhere, open, id);
      MarkedEntry(l, id, state, now);
      if (id !in open && !IsTerminal(state)) || l.routing.book.entries[id].fundFrozen == 0 {
        CloseAt(Mark(l, id, state, now), elsewhere, open, id);
      }
    } else if id !in open && !IsTerminal(state) {
      MarkKeepsRest(l, id, state, now);
      CloseAt(Mark(l, id, state, now), elsewhere, open, id);
    }
  }

  lemma TradeBalances(l: Loop, elsewhere: int, open: set<OrderId>, r: Response, now: uint64)
    requires Balanced(l, elsewhere, open)
    ensures Balanced(SetBook(l, UpdateTrade(l.routing.book, r.id, r.volume, r.price, r.value, r.fee, now)), elsewhere,
                     open + {r.id})
  {
    Fits(l, elsewhere, open);
    TradeIsNeutral(l.routing.book, r.id, r.volume, r.price, r.value, r.fee, now);
    hide Balanced, UpdateTrade, Neutral;
    NeutralBalances(l, elsewhere, open, {r.id},
                    UpdateTrade(l.routing.book, r.id, r.volume, r.price, r.value, r.fee, now));
  }

  /** Releasing an order that is booked and rightly holds its cash always works while nothing was overdrawn. */
  lemma ReleaseNeverFails(l: Loop, elsewhere: int, open: set<OrderId>, id: OrderId)
    requires Balanced(l, elsewhere, open) && id in l.routing.book.entries
    requires elsewhere >= 0 || l.routing.book.entries[id].fundFrozen == 0
    ensures var s := Release(l.routing.book.entries[id], l.fund);
            && s.ok && s.entry == l.routing.book.entries[id].(fundFrozen := 0)
            && s.fund == l.fund.(frozen := l.fund.frozen - l.routing.book.entries[id].fundFrozen,
                                 available := l.fund.available + l.routing.book.entries[id].fundFrozen)
  {
    HeldByReserving(l, elsewhere, open, id);
    Fits(l, elsewhere, open);
    hide Balanced;
  }

  lemma ReleaseBalances(l: Loop, elsewhere: int, open: set<OrderId>, id: OrderId)
    requires Balanced(l, elsewhere, open)
    requires elsewhere >= 0 || (id in l.routing.book.entries && l.routing.book.entries[id].fundFrozen == 0)
    ensures Balanced(ReleaseOf(l, id), elsewhere, open - {id})
    ensures id in l.routing.book.entries ==>
            ReleaseOf(l, id).routing.book.entries[id] == l.routing.book.entries[id].(fundFrozen := 0)
    ensures ReleaseOf(l, id).routing.book.entries.Keys == l.routing.book.entries.Keys
  {
    if id in l.routing.book.entries {
      HeldByReserving(l, elsewhere, open, id);
      Fits(l, elsewhere, open);
      ReleaseNeverFails(l, elsewhere, open, id);
      hide Balanced, Release;
      PutBalances(l, elsewhere, open, open - {id}, id, Release(l.routing.book.entries[id], l.fund));
    } else {
      hide FrozenSum;
    }
  }

  // ---------- Responses ----------

  /** The order a response reports a fill on: booked, and a New order. */
  predicate FillsOrder(l: Loop, r: Response) {
    r.id != 0 && r.volume > 0 && NewChild(l.routing.book.entries, r.id)
  }

  /** The fill costs more than what is left of the order's reservation, and the rest is taken from the cash
      of others. */
  predicate Overdraws(l: Loop, r: Response) {
    && FillsOrder(l, r) && r.side == Buy
    && 0 < l.routing.book.entries[r.id].fundFrozen < r.value + r.fee <= l.fund.frozen
    && r.value + r.fee <= U64_MAX && l.fund.marketValue + r.value <= U64_MAX
  }

  function Overdraft(l: Loop, r: Response): nat {
    if Overdraws(l, r) then r.value + r.fee - l.routing.book.entries[r.id].fundFrozen else 0
  }

  /** A sale's proceeds leave all cash within 64 bits. */
  predicate ProceedsFit(l: Loop, r: Response) {
    FillsOrder(l, r) && r.side == Sell ==> l.fund.available + l.fund.frozen + r.value <= U64_MAX + r.fee
  }

  lemma SettleMoves(e: Entry, f: FundRow.Fund, r: Response)
    requires e.kind == OrderType.New && CashFits(f)
    requires r.side == Sell ==> f.available + f.frozen + r.value <= U64_MAX + r.fee
    ensures var s := Settle(e, f, r);
            && CashFits(s.fund)
            && s.entry == e.(fundFrozen := s.entry.fundFrozen) && (e.fundFrozen == 0 ==> s.entry.fundFrozen == 0)
            && var over := r.side == Buy && 0 < e.fundFrozen < r.value + r.fee <= f.frozen
                           && r.value + r.fee <= U64_MAX && f.marketValue + r.value <= U64_MAX;
               && (f.frozen - e.fundFrozen) - (s.fund.frozen - s.entry.fundFrozen)
                  == (if over then r.value + r.fee - e.fundFrozen else 0)
               && (over ==> s.entry.fundFrozen == 0)
  {
  }

  /** Everything a fill needs to know about the loop it meets. */
  predicate SameForFill(l: Loop, l': Loop, r: Response) {
    && l'.fund == l.fund
    && NewChild(l'.routing.book.entries, r.id) == NewChild(l.routing.book.entries, r.id)
    && (NewChild(l.routing.book.entries, r.id) ==>
          l'.routing.book.entries[r.id].fundFrozen == l.routing.book.entries[r.id].fundFrozen)
  }

  lemma SameOverdraft(l: Loop, l': Loop, r: Response)
    requires SameForFill(l, l', r)
    ensures Overdraft(l', r) == Overdraft(l, r) && ProceedsFit(l', r) == ProceedsFit(l, r)
  {
  }

  lemma NeutralIsSameForFill(l: Loop, r: Response, b: Book, x: set<OrderId>)
    requires Neutral(l.routing.book, b, x) && b.entries.Keys == l.routing.book.entries.Keys
    ensures SameForFill(l, SetBook(l, b), r)
  {
    hide ParentsHoldNothing;
  }

  lemma TradeKeepsKeys(b: Book, r: Response, now: uint64)
    ensures UpdateTrade(b, r.id, r.volume, r.price, r.value, r.fee, now).entries.Keys == b.entries.Keys
  {
    hide Refresh, Trade;
    if r.id in b.entries && r.id in b.parentOf {
      var b1 := b.(entries := b.entries[r.id := Trade(b.entries[r.id], r.volume, r.price, r.value, r.fee, now)]);
      RefreshOnlyProgress(b1, b.parentOf[r.id]);
    }
  }

  lemma SettleBalances(l: Loop, elsewhere: int, open: set<OrderId>, r: Response)
    requires Balanced(l, elsewhere, open) && r.id in l.routing.book.entries && r.id in open && r.id != 0 && r.volume > 0
    requires ProceedsFit(l, r)
    ensures var l' := Put(l, r.id, Settle(l.routing.book.entries[r.id], l.fund, r));
            && Balanced(l', elsewhere - Overdraft(l, r), open)
            && (Overdraft(l, r) > 0 ==>
                  l'.routing.book.entries[r.id].fundFrozen == 0 && l'.routing.book.entries[r.id].kind == OrderType.New)
  {
    var e := l.routing.book.entries[r.id];
    HeldByReserving(l, elsewhere, open, r.id);
    Fits(l, elsewhere, open);
    hide Balanced;
    if e.kind == OrderType.New {
      SettleMoves(e, l.fund, r);
    }
    PutBalances(l, elsewhere, open, open, r.id, Settle(e, l.fund, r));
  }

  lemma RecordFillBalances(l: Loop, elsewhere: int, open: set<OrderId>, r: Response, now: uint64)
    requires Balanced(l, elsewhere, open) && ProceedsFit(l, r) && r.id != 0
    ensures var l' := RecordFill(l, r, now);
            && Balanced(l', elsewhere - Overdraft(l, r), open + {r.id})
            && (Overdraft(l, r) > 0 ==>
                  r.id in l'.routing.book.entries && l'.routing.book.entries[r.id].fundFrozen == 0
                  && l'.routing.book.entries[r.id].kind == OrderType.New)
  {
    Fits(l, elsewhere, open);
    if r.volume == 0 {
      OpenMore(l, elsewhere, open, r.id);
    } else {
      var b := UpdateTrade(l.routing.book, r.id, r.volume, r.price, r.value, r.fee, now);
      TradeBalances(l, elsewhere, open, r, now);
      TradeIsNeutral(l.routing.book, r.id, r.volume, r.price, r.value, r.fee, now);
      TradeKeepsKeys(l.routing.book, r, now);
      hide Balanced, UpdateTrade, SameForFill, Settle, ProceedsFit, Neutral, ParentsHoldNothing;
      NeutralIsSameForFill(l, r, b, {r.id});
      var l1 := SetBook(l, b);
      SameOverdraft(l, l1, r);
      if r.id in l1.routing.book.entries {
        SettleBalances(l1, elsewhere, open + {r.id}, r);
      }
    }
  }

  lemma ReleaseEndedBalances(l: Loop, elsewhere: int, id: OrderId)
    requires Balanced(l, elsewhere, {id})
    requires elsewhere >= 0
             || (id in l.routing.book.entries && l.routing.book.entries[id].fundFrozen == 0
                 && l.routing.book.entries[id].kind == OrderType.New)
    ensures Reserved(ReleaseEnded(l, id), elsewhere)
    ensures id in ReleaseEnded(l, id).routing.book.entries
            && IsTerminal(ReleaseEnded(l, id).routing.book.entries[id].state) ==>
              ReleaseEnded(l, id).routing.book.entries[id].fundFrozen == 0
  {
    hide Release, ReleaseOf;
    if !Ended(l, id) {
      assert {} + {id} == {id};
      CloseAt(l, elsewhere, {}, id);
    } else {
      ReleaseBalances(l, elsewhere, {id}, id);
      hide Balanced;
      var l1, e := ReleaseOf(l, id), l.routing.book.entries[id];
      assert {id} - {id} == {};
      if e.kind == OrderType.Cancel && e.origId != 0 {
        ReleaseBalances(l1, elsewhere, {}, e.origId);
        assert {} - {e.origId} == {};
      }
    }
    ReservedHoldRightly(ReleaseEnded(l, id), elsewhere, id);
  }

  lemma ReservedHoldRightly(l: Loop, elsewhere: int, id: OrderId)
    requires Reserved(l, elsewhere)
    ensures id in l.routing.book.entries ==>
            HoldsRightly(l.routing.book.entries[id]) && l.routing.book.entries[id].id == id
  {
    hide FrozenSum;
  }

  /** Dropping orders that hold nothing. */
  lemma DropReserved(l: Loop, elsewhere: int, gone: set<OrderId>, pending: map<OrderId, uint64>)
    requires Reserved(l, elsewhere)
    requires forall id :: id in gone && id in l.routing.book.entries ==> l.routing.book.entries[id].fundFrozen == 0
    ensures var b := l.routing.book;
            Reserved(SetBook(l, b.(entries := b.entries - gone, managed := b.managed - gone,
                                   latched := b.latched - gone))
                       .(pending := pending), elsewhere)
  {
    var entries := l.routing.book.entries;
    FrozenDrop(entries, gone * entries.Keys);
    assert entries - gone * entries.Keys == entries - gone;
    hide FrozenSum;
  }

  lemma CloseKeepsReserved(l: Loop, elsewhere: int, c: Config, r: Response, now: uint64)
    requires Reserved(l, elsewhere)
    requires IsTerminal(r.newState) && r.id in l.routing.book.entries ==> l.routing.book.entries[r.id].fundFrozen == 0
    ensures Reserved(Close(l, c, r, now), elsewhere)
  {
    if IsTerminal(r.newState) && c.archive && c.delayNs == 0 {
      DropReserved(l, elsewhere, {r.id}, l.pending - {r.id});
      var b := l.routing.book;
      if r.id !in b.entries {
        Fits(l, elsewhere, {});
        SamePending(l, elsewhere, l.pending - {r.id});
      }
    } else {
      hide FrozenSum, AllHoldRightly, ParentsHoldNothing;
    }
  }

  lemma SamePending(l: Loop, elsewhere: int, pending: map<OrderId, uint64>)
    requires Reserved(l, elsewhere)
    ensures Reserved(l.(pending := pending), elsewhere)
  {
    hide FrozenSum, AllHoldRightly, ParentsHoldNothing;
  }

  lemma TradedBook(b: Book, r: Response, now: uint64)
    requires r.id in b.entries
    ensures var b' := UpdateTrade(b, r.id, r.volume, r.price, r.value, r.fee, now);
            && r.id in b'.entries && b'.children == b.children
            && (r.id !in b.children ==>
                  b'.entries[r.id] == Trade(b.entries[r.id], r.volume, r.price, r.value, r.fee, now))
  {
    hide Refresh, Trade;
    var b1 := b.(entries := b.entries[r.id := Trade(b.entries[r.id], r.volume, r.price, r.value, r.fee, now)]);
    if r.id in b.parentOf {
      RefreshOnlyProgress(b1, b.parentOf[r.id]);
      NotAParent(b1, r.id);
    }
  }

  /** A terminal report leaves its order terminal, whatever its fill does, unless the order is a parent. */
  lemma StaysTerminal(l: Loop, r: Response, now: uint64)
    requires r.id in l.routing.book.entries && IsTerminal(r.newState) && r.id !in l.routing.book.children
    ensures Ended(RecordFill(Mark(l, r.id, r.newState, now), r, now), r.id)
  {
    MarkedEntry(l, r.id, r.newState, now);
    MarkKeepsRest(l, r.id, r.newState, now);
    var l1 := Mark(l, r.id, r.newState, now);
    TradedBook(l1.routing.book, r, now);
    var e := l1.routing.book.entries[r.id];
    TradeKeepsTerminal(e, r, now);
    SettleKeepsState(Trade(e, r.volume, r.price, r.value, r.fee, now), l1.fund, r);
    hide Mark, UpdateTrade, Settle, Trade;
  }

  lemma TradeKeepsTerminal(e: Entry, r: Response, now: uint64)
    requires IsTerminal(e.state)
    ensures Trade(e, r.volume, r.price, r.value, r.fee, now).state == e.state
  {
    hide Average;
  }

  lemma SettleKeepsState(e: Entry, f: FundRow.Fund, r: Response)
    ensures Settle(e, f, r).entry.state == e.state
  {
  }

  lemma ReleaseEndedKeepsState(l: Loop, id: OrderId)
    ensures var l' := ReleaseEnded(l, id);
            && l'.routing.book.entries.Keys == l.routing.book.entries.Keys
            && l'.routing.book.children == l.routing.book.children
            && forall x :: x in l.routing.book.entries ==>
               l'.routing.book.entries[x].state == l.routing.book.entries[x].state
  {
    ReleaseOfKeepsState(l, id);
    var l1 := ReleaseOf(l, id);
    if Ended(l, id) {
      ReleaseOfKeepsState(l1, l.routing.book.entries[id].origId);
    }
    hide ReleaseOf;
  }

  lemma ReleaseOfKeepsState(l: Loop, id: OrderId)
    ensures var l' := ReleaseOf(l, id);
            && l'.routing.book.entries.Keys == l.routing.book.entries.Keys
            && l'.routing.book.children == l.routing.book.children
            && forall x :: x in l.routing.book.entries ==>
               l'.routing.book.entries[x].state == l.routing.book.entries[x].state
  {
  }

  lemma FillKeepsKeys(l: Loop, r: Response, now: uint64)
    ensures var l' := RecordFill(Mark(l, r.id, r.newState, now), r, now);
            && l'.routing.book.entries.Keys == l.routing.book.entries.Keys
            && l'.routing.book.children == l.routing.book.children
  {
    MarkKeepsRest(l, r.id, r.newState, now);
    var b := Mark(l, r.id, r.newState, now).routing.book;
    if r.id in b.entries {
      TradedBook(b, r, now);
    }
    TradeKeepsKeys(b, r, now);
    hide Mark, UpdateTrade, Settle;
  }

  /** Main result, one response: global frozen cash minus the booked reservations changes by exactly the overdraft of a
      fill that costs more than its order still had reserved. */
  lemma ResponseMovesByOverdraft(l: Loop, elsewhere: nat, c: Config, r: Response, now: uint64)
    requires Reserved(l, elsewhere) && ProceedsFit(l, r)
    ensures Reserved(HandleResponse(l, c, r, now), elsewhere - Overdraft(l, r))
  {
    hide RecordFill, ReleaseEnded, Close, Balanced, ProceedsFit, Overdraft, UpdateState, Neutral, ParentsHoldNothing;
    if r.id != 0 {
      Fits(l, elsewhere, {});
      var l1 := Mark(l, r.id, r.newState, now);
      MarkBalances(l, elsewhere, {}, r.id, r.newState, now);
      StateIsNeutral(l.routing.book, r.id, r.newState, now);
      MarkKeepsRest(l, r.id, r.newState, now);
      NeutralIsSameForFill(l, r, l1.routing.book, {r.id});
      SameOverdraft(l, l1, r);
      hide Mark;
      assert {} + {r.id} == {r.id} == {r.id} + {r.id};
      RecordFillBalances(l1, elsewhere, {r.id}, r, now);
      var l2 := RecordFill(l1, r, now);
      ReleaseEndedBalances(l2, elsewhere - Overdraft(l, r), r.id);
      FillKeepsKeys(l, r, now);
      EndedHoldsNothing(l, elsewhere - Overdraft(l, r), r, now);
      CloseKeepsReserved(ReleaseEnded(l2, r.id), elsewhere - Overdraft(l, r), c, r, now);
    } else {
      NoFillNoOverdraft(l, r);
    }
  }

  lemma EndedHoldsNothing(l: Loop, elsewhere: int, r: Response, now: uint64)
    requires var l' := ReleaseEnded(RecordFill(Mark(l, r.id, r.newState, now), r, now), r.id);
             Reserved(l', elsewhere)
             && (Ended(l', r.id) ==> l'.routing.book.entries[r.id].fundFrozen == 0)
    ensures var l' := ReleaseEnded(RecordFill(Mark(l, r.id, r.newState, now), r, now), r.id);
            IsTerminal(r.newState) && r.id in l'.routing.book.entries ==> l'.routing.book.entries[r.id].fundFrozen == 0
  {
    var l2 := RecordFill(Mark(l, r.id, r.newState, now), r, now);
    var l' := ReleaseEnded(l2, r.id);
    FillKeepsKeys(l, r, now);
    ReleaseEndedKeepsState(l2, r.id);
    if IsTerminal(r.newState) && r.id in l'.routing.book.entries {
      HeldByReserving(l', elsewhere, {}, r.id);
      if r.id !in l.routing.book.children {
        StaysTerminal(l, r, now);
      }
    }
    hide Mark, RecordFill, ReleaseEnded, Balanced;
  }

  lemma NoFillNoOverdraft(l: Loop, r: Response)
    requires r.id == 0
    ensures Overdraft(l, r) == 0
  {
  }

  /** A response keeps global frozen cash equal to what the booked orders hold exactly if its fill does not overdraw. */
  lemma ResponseKeepsReservedExactly(l: Loop, elsewhere: nat, c: Config, r: Response, now: uint64)
    requires Reserved(l, elsewhere) && ProceedsFit(l, r)
    ensures Reserved(HandleResponse(l, c, r, now), elsewhere) <==> !Overdraws(l, r)
  {
    ResponseMovesByOverdraft(l, elsewhere, c, r, now);
    hide HandleResponse, FrozenSum, AllHoldRightly, ProceedsFit, ParentsHoldNothing;
  }

  // ---------- Archiving ----------

  lemma ArchivesKeepReserved(l: Loop, elsewhere: int, now: uint64)
    requires Reserved(l, elsewhere)
    ensures Reserved(ProcessArchives(l, now), elsewhere)
    ensures ProcessArchives(l, now).fund == l.fund
  {
    var due := Due(l, now);
    var gone := set id | id in due && Ended(l, id);
    forall id | id in gone ensures l.routing.book.entries[id].fundFrozen == 0 {
      ReservedHoldRightly(l, elsewhere, id);
    }
    hide Balanced;
    DropReserved(l, elsewhere, gone, l.pending - due);
  }

  // ---------- Requests ----------

  /** The id of a request was never that of a parent. */
  predicate FreshRequest(l: Loop, q: Request, s: Surroundings, now: uint64) {
    match Prepared(q, s, now)
    case None => true
    case Some(e) => CanAdd(l.routing.book, e.id) ==> e.id !in l.routing.book.children
  }

  lemma SameBookSameBalance(l: Loop, l': Loop, elsewhere: int, open: set<OrderId>)
    requires Balanced(l, elsewhere, open) && l'.routing.book == l.routing.book && l'.fund == l.fund
    ensures Balanced(l', elsewhere, open)
  {
    hide FrozenSum, AllHoldRightly, ParentsHoldNothing;
  }

  /** An order without a parent, just added: it holds nothing and is neither a parent nor managed. */
  ghost predicate JustAdded(l: Loop, id: OrderId) {
    && id in l.routing.book.entries && l.routing.book.entries[id].fundFrozen == 0
    && id !in l.routing.book.children && id !in l.routing.book.managed
  }

  lemma AddEffect(b: Book, e: Entry, now: uint64)
    requires CanAdd(b, e.id) && !e.isSplitChild
    ensures Add(b, e, now) == b.(entries := b.entries[e.id := OrderBookModel.Stored(e, now)],
                                 nextId := Max(b.nextId, SaturatedNextId(e.id)))
  {
    hide OrderBookModel.Stored;
  }

  lemma AddBalances(l: Loop, elsewhere: int, e: Entry, now: uint64)
    requires Reserved(l, elsewhere) && CanAdd(l.routing.book, e.id) && e.fundFrozen == 0 && !e.isSplitChild
    requires e.id !in l.routing.book.children
    ensures var l' := SetBook(l, Add(l.routing.book, e, now));
            Reserved(l', elsewhere) && JustAdded(l', e.id) && l'.routing.book.entries[e.id].kind == e.kind
  {
    Fits(l, elsewhere, {});
    AddIsNeutral(l.routing.book, e, now);
    AddEffect(l.routing.book, e, now);
    StoredKeepsIdentity(e, now);
    hide Balanced, Add, Neutral, OrderBookModel.Stored;
    NeutralBalances(l, elsewhere, {}, {}, Add(l.routing.book, e, now));
    assert NONE + NONE == NONE;
  }

  lemma MarkJustAdded(l: Loop, elsewhere: int, id: OrderId, state: OrderState, now: uint64)
    requires Reserved(l, elsewhere) && JustAdded(l, id)
    ensures var l' := Mark(l, id, state, now);
            && Reserved(l', elsewhere) && JustAdded(l', id)
            && l'.routing.book.entries[id] == l.routing.book.entries[id].(state := state, updatedNs := now)
  {
    hide Balanced;
    MarkBalances(l, elsewhere, {}, id, state, now);
    MarkedEntry(l, id, state, now);
    MarkKeepsRest(l, id, state, now);
    hide Mark;
  }

  lemma ReserveMoves(e: Entry, f: FundRow.Fund)
    requires e.fundFrozen == 0 && CashFits(f)
    ensures var s := Reserve(e, f);
            && CashFits(s.fund) && s.fund.frozen - s.entry.fundFrozen == f.frozen
            && s.entry == e.(fundFrozen := s.entry.fundFrozen)
            && (s.entry.fundFrozen > 0 ==> s.ok && Reserves(e) && s.entry.fundFrozen == Cost(e) + e.feeEstimate)
  {
    hide Cost;
  }

  lemma RouteBalances(l: Loop, elsewhere: nat, id: OrderId, s: Surroundings, now: uint64)
    requires Reserved(l, elsewhere) && id in l.routing.book.entries
    ensures Reserved(Route(l, id, s, now), elsewhere)
  {
    hide Balanced, UpdateState, ReleaseOf, RoutedCancel, Neutral, ParentsHoldNothing;
    Fits(l, elsewhere, {});
    var e := l.routing.book.entries[id];
    assert {} + {id} == {id};
    if e.kind == OrderType.Cancel {
      var b := RoutedCancel(l.routing, e.origId, id, s.luck, now).routing.book;
      RoutedCancelIsNeutral(l.routing, e.origId, id, s.luck, now);
      NeutralBalances(l, elsewhere, {}, {}, b);
      assert NONE + NONE == NONE;
      NeutralKeepsBooked(l.routing.book, b, id);
      var l1 := l.(routing := SentDown(l, id, s, now).routing);
      SameBookSameBalance(SetBook(l, b), l1, elsewhere, {});
      FailedRouteBalances(l1, elsewhere, {}, id, now);
    } else {
      var state := if e.slotIndex == U32_MAX || !s.pushed then TraderError else TraderSubmitted;
      var l1 := l.(routing := RoutedNew(l.routing, id, e.slotIndex, s.pushed, now).routing);
      MarkBalances(l, elsewhere, {}, id, state, now);
      MarkKeepsRest(l, id, state, now);
      if state == TraderError {
        SameBookSameBalance(Mark(l, id, state, now), l1, elsewhere, {id});
        FailedRouteBalances(l1, elsewhere, {id}, id, now);
      } else {
        SameBookSameBalance(Mark(l, id, state, now), l1, elsewhere, {});
      }
    }
  }

  lemma NeutralKeepsBooked(b: Book, b': Book, id: OrderId)
    requires Neutral(b, b', {}) && id in b.entries
    ensures id in b'.entries
  {
  }

  lemma FailedRouteBalances(l: Loop, elsewhere: nat, open: set<OrderId>, id: OrderId, now: uint64)
    requires Balanced(l, elsewhere, open) && open <= {id} && id in l.routing.book.entries
    ensures Reserved(Mark(ReleaseOf(l, id), id, TraderError, now), elsewhere)
  {
    hide Balanced, UpdateState, ReleaseOf;
    ReleaseBalances(l, elsewhere, open, id);
    assert open - {id} == {};
    MarkBalances(ReleaseOf(l, id), elsewhere, {}, id, TraderError, now);
  }

  lemma ReserveAndRouteBalances(l: Loop, elsewhere: nat, id: OrderId, s: Surroundings, now: uint64)
    requires Reserved(l, elsewhere) && JustAdded(l, id) && !IsTerminal(l.routing.book.entries[id].state)
    ensures Reserved(ReserveAndRoute(l, id, s, now), elsewhere)
  {
    var e := l.routing.book.entries[id];
    Fits(l, elsewhere, {});
    ReserveMoves(e, l.fund);
    ReservedHoldRightly(l, elsewhere, id);
    hide Balanced, Reserve, Route, UpdateState;
    if Reserve(e, l.fund).ok {
      PutBalances(l, elsewhere, {}, {}, id, Reserve(e, l.fund));
      RouteBalances(Put(l, id, Reserve(e, l.fund)), elsewhere, id, s, now);
    } else {
      MarkBalances(l, elsewhere, {}, id, RiskControllerRejected, now);
    }
  }

  lemma ManageBalances(l: Loop, elsewhere: nat, id: OrderId, start: StartResult, now: uint64)
    requires Reserved(l, elsewhere) && JustAdded(l, id)
    ensures Reserved(Manage(l, id, start, now), elsewhere)
  {
    hide Balanced, Mark, MarkManaged, Neutral;
    MarkJustAdded(l, elsewhere, id, TraderPending, now);
    var l1 := Mark(l, id, TraderPending, now);
    match start
    case Started =>
      Fits(l1, elsewhere, {});
      ManageIsNeutral(l1.routing.book, id);
      NeutralBalances(l1, elsewhere, {}, {}, MarkManaged(l1.routing.book, id));
      assert NONE + NONE == NONE;
    case Rejected => MarkJustAdded(l1, elsewhere, id, TraderRejected, now);
    case Failed => MarkJustAdded(l1, elsewhere, id, TraderError, now);
  }

  lemma RequestKeepsReserved(l: Loop, elsewhere: nat, q: Request, s: Surroundings, now: uint64)
    requires Reserved(l, elsewhere) && FreshRequest(l, q, s, now)
    ensures Reserved(HandleRequest(l, q, s, now), elsewhere)
  {
    hide Balanced, Add, ReserveAndRoute, Manage, Mark, CanAdd;
    var prepared := Prepared(q, s, now);
    if prepared.Some? && CanAdd(l.routing.book, prepared.value.id) {
      var e := prepared.value;
      PreparedHoldsNothing(q, s, now);
      hide Prepared;
      AddBalances(l, elsewhere, e, now);
      var l0 := SetBook(l, Add(l.routing.book, e, now));
      MarkJustAdded(l0, elsewhere, e.id, RiskControllerPending, now);
      var l1 := Mark(l0, e.id, RiskControllerPending, now);
      if e.kind == OrderType.New && !s.riskPasses {
        MarkJustAdded(l1, elsewhere, e.id, RiskControllerRejected, now);
      } else {
        MarkJustAdded(l1, elsewhere, e.id, RiskControllerAccepted, now);
        var l2 := Mark(l1, e.id, RiskControllerAccepted, now);
        if e.kind == OrderType.New && s.managed.Some? {
          ManageBalances(l2, elsewhere, e.id, s.managed.value, now);
        } else {
          ReserveAndRouteBalances(l2, elsewhere, e.id, s, now);
        }
      }
    }
  }

  lemma PreparedHoldsNothing(q: Request, s: Surroundings, now: uint64)
    requires Prepared(q, s, now).Some?
    ensures Prepared(q, s, now).value.fundFrozen == 0 && !Prepared(q, s, now).value.isSplitChild
  {
    hide Build, Cost;
  }

  // ---------- Whole runs ----------

  /** What happens to the loop: a request comes in, a response comes in, a sweep archives, or a session of the engine
      acts for its parent. */
  datatype Event =
    | Submitted(request: Request, surroundings: Surroundings, now: uint64)
    | Reported(response: Response, now: uint64)
    | Swept(now: uint64)
    | Acted(parent: OrderId, action: Action, now: uint64)

  function Handle(l: Loop, c: Config, e: Event): Loop {
    match e
    case Submitted(q, s, now) => HandleRequest(l, q, s, now)
    case Reported(r, now) => HandleResponse(l, c, r, now)
    case Swept(now) => ProcessArchives(l, now)
    case Acted(parent, action, now) => l.(routing := Act(l.routing, parent, action, now))
  }

  ghost function RunLoop(l: Loop, c: Config, events: seq<Event>): Loop
    decreases |events|
  {
    if events == [] then l else RunLoop(Handle(l, c, events[0]), c, events[1..])
  }

  /** Every reported fill costs at most what its order has reserved, or the order has nothing reserved; sales
      fit; requests come under ids that are no parents'; and sessions act for parents they manage, as long as
      those are booked. */
  predicate Covered(l: Loop, e: Event) {
    match e
    case Submitted(q, s, now) => FreshRequest(l, q, s, now)
    case Reported(r, now) => !Overdraws(l, r) && ProceedsFit(l, r)
    case Swept(_) => true
    case Acted(parent, _, _) => parent in l.routing.book.entries ==> parent in l.routing.book.managed
  }

  ghost predicate CoveredRun(l: Loop, c: Config, events: seq<Event>)
    decreases |events|
  {
    events == [] || (Covered(l, events[0]) && CoveredRun(Handle(l, c, events[0]), c, events[1..]))
  }

  lemma ActionKeepsReserved(l: Loop, elsewhere: nat, parent: OrderId, action: Action, now: uint64)
    requires Reserved(l, elsewhere)
    requires parent in l.routing.book.entries ==> parent in l.routing.book.managed
    ensures Reserved(l.(routing := Act(l.routing, parent, action, now)), elsewhere)
  {
    Fits(l, elsewhere, {});
    hide Balanced, Act, Neutral;
    ActIsNeutral(l.routing, parent, action, now);
    var b := Act(l.routing, parent, action, now).book;
    NeutralBalances(l, elsewhere, {}, {}, b);
    assert NONE + NONE == NONE;
    SameBookSameBalance(SetBook(l, b), l.(routing := Act(l.routing, parent, action, now)), elsewhere, {});
  }

  lemma HandleKeepsReserved(l: Loop, elsewhere: nat, c: Config, e: Event)
    requires Reserved(l, elsewhere) && Covered(l, e)
    ensures Reserved(Handle(l, c, e), elsewhere)
  {
    hide Reserved, HandleRequest, HandleResponse, ProcessArchives, Overdraws, ProceedsFit, FreshRequest, Act;
    match e
    case Submitted(q, s, now) => RequestKeepsReserved(l, elsewhere, q, s, now);
    case Reported(r, now) => ResponseKeepsReservedExactly(l, elsewhere, c, r, now);
    case Swept(now) => ArchivesKeepReserved(l, elsewhere, now);
    case Acted(parent, action, now) => ActionKeepsReserved(l, elsewhere, parent, action, now);
  }

  /** Main result: over every covered run of requests, plain and managed, of responses, archive sweeps and session
      actions, after every handler, global frozen cash is what it was at the start plus the reservations of the booked
      orders; so no release can fail, and orders that ended, parents, and managed orders hold nothing. */
  lemma {:induction false} EveryRunKeepsReserved(l: Loop, elsewhere: nat, c: Config, events: seq<Event>)
    requires Reserved(l, elsewhere) && CoveredRun(l, c, events)
    ensures Reserved(RunLoop(l, c, events), elsewhere)
    decreases |events|
  {
    hide Reserved, Handle, Covered;
    if events != [] {
      HandleKeepsReserved(l, elsewhere, c, events[0]);
      EveryRunKeepsReserved(Handle(l, c, events[0]), elsewhere, c, events[1..]);
    }
  }

  function StartLoop(capacity: nat, nextOrderId: uint32, fund: FundRow.Fund): Loop {
    Loop(Routing(EmptyBook(capacity), nextOrderId, []), fund, map[])
  }

  /** The same from the start, spelled out for a booked order. */
  lemma ReservationsAreAccountedFor(capacity: nat, nextOrderId: uint32, fund: FundRow.Fund, c: Config,
                                    events: seq<Event>)
    requires CashFits(fund) && CoveredRun(StartLoop(capacity, nextOrderId, fund), c, events)
    ensures var l := RunLoop(StartLoop(capacity, nextOrderId, fund), c, events);
            && l.fund.frozen == fund.frozen + FrozenSum(l.routing.book.entries)
            && forall id :: id in l.routing.book.entries ==>
                 && Release(l.routing.book.entries[id], l.fund).ok
                 && (IsTerminal(l.routing.book.entries[id].state) || id in l.routing.book.children
                     || id in l.routing.book.managed ==>
                       l.routing.book.entries[id].fundFrozen == 0)
  {
    hide Reserved, RunLoop, FrozenSum, Release, CoveredRun, StartLoop;
    StartIsReserved(capacity, nextOrderId, fund);
    EveryRunKeepsReserved(StartLoop(capacity, nextOrderId, fund), fund.frozen, c, events);
    var l := RunLoop(StartLoop(capacity, nextOrderId, fund), c, events);
    ReservedFrozen(l, fund.frozen);
    forall id | id in l.routing.book.entries
      ensures && Release(l.routing.book.entries[id], l.fund).ok
              && (IsTerminal(l.routing.book.entries[id].state) || id in l.routing.book.children
                  || id in l.routing.book.managed ==>
                    l.routing.book.entries[id].fundFrozen == 0)
    {
      ReservedEntry(l, fund.frozen, id);
    }
  }

  lemma StartIsReserved(capacity: nat, nextOrderId: uint32, fund: FundRow.Fund)
    requires CashFits(fund)
    ensures Reserved(StartLoop(capacity, nextOrderId, fund), fund.frozen)
  {
    assert FrozenOf(map[]) == map[];
  }

  lemma ReservedFrozen(l: Loop, elsewhere: nat)
    requires Reserved(l, elsewhere)
    ensures l.fund.frozen == elsewhere + FrozenSum(l.routing.book.entries)
  {
  }

  lemma ReservedEntry(l: Loop, elsewhere: nat, id: OrderId)
    requires Reserved(l, elsewhere) && id in l.routing.book.entries
    ensures Release(l.routing.book.entries[id], l.fund).ok
    ensures IsTerminal(l.routing.book.entries[id].state) || id in l.routing.book.children
            || id in l.routing.book.managed ==>
              l.routing.book.entries[id].fundFrozen == 0
  {
    ReleaseNeverFails(l, elsewhere, {}, id);
    ReservedHoldRightly(l, elsewhere, id);
    HeldByReserving(l, elsewhere, {}, id);
    hide Balanced;
  }

  // ---------- Total assets over runs ----------

  lemma CashStepsStayBounded(e: Entry, f: FundRow.Fund, r: Response)
    requires FundRow.Bounded(f)
    ensures FundRow.Bounded(Reserve(e, f).fund) && FundRow.Bounded(Release(e, f).fund)
            && FundRow.Bounded(Settle(e, f, r).fund)
  {
    hide Cost, FundRow.Apply, FundRow.Bounded;
    if Reserve(e, f).ok && Reserves(e) {
      FundRow.StaysBounded(f, FundRow.Freeze(Cost(e) + e.feeEstimate));
    }
    FundRow.StaysBounded(f, FundRow.Unfreeze(e.fundFrozen));
    FundRow.StaysBounded(f, FundRow.BuyTrade(r.value, r.fee));
    FundRow.StaysBounded(f, FundRow.Deduct(r.value, r.fee));
    FundRow.StaysBounded(f, FundRow.SellTrade(r.value, r.fee));
  }

  lemma ReleaseOfStaysBounded(l: Loop, id: OrderId, r: Response)
    requires FundRow.Bounded(l.fund)
    ensures FundRow.Bounded(ReleaseOf(l, id).fund)
  {
    if id in l.routing.book.entries {
      CashStepsStayBounded(l.routing.book.entries[id], l.fund, r);
      hide Release, FundRow.Bounded;
    }
  }

  lemma ResponseStaysBounded(l: Loop, c: Config, r: Response, now: uint64)
    requires FundRow.Bounded(l.fund)
    ensures FundRow.Bounded(HandleResponse(l, c, r, now).fund)
  {
    hide UpdateState, UpdateTrade, Settle, ReleaseOf, FundRow.Bounded, Archive;
    var l1 := Mark(l, r.id, r.newState, now);
    if r.volume > 0 {
      var b := UpdateTrade(l1.routing.book, r.id, r.volume, r.price, r.value, r.fee, now);
      if r.id in b.entries {
        CashStepsStayBounded(b.entries[r.id], l.fund, r);
      }
    }
    var l2 := RecordFill(l1, r, now);
    if Ended(l2, r.id) {
      ReleaseOfStaysBounded(l2, r.id, r);
      ReleaseOfStaysBounded(ReleaseOf(l2, r.id), l2.routing.book.entries[r.id].origId, r);
    }
  }

  lemma RouteStaysBounded(l: Loop, id: OrderId, s: Surroundings, now: uint64, r: Response)
    requires FundRow.Bounded(l.fund) && id in l.routing.book.entries
    ensures FundRow.Bounded(Route(l, id, s, now).fund)
  {
    hide UpdateState, ReleaseOf, FundRow.Bounded, SentDown;
    ReleaseOfStaysBounded(l.(routing := SentDown(l, id, s, now).routing), id, r);
  }

  lemma ReserveAndRouteStaysBounded(l: Loop, id: OrderId, s: Surroundings, now: uint64, r: Response)
    requires FundRow.Bounded(l.fund) && id in l.routing.book.entries
    ensures FundRow.Bounded(ReserveAndRoute(l, id, s, now).fund)
  {
    hide UpdateState, Reserve, FundRow.Bounded, Route;
    CashStepsStayBounded(l.routing.book.entries[id], l.fund, r);
    var reserved := Reserve(l.routing.book.entries[id], l.fund);
    if reserved.ok {
      RouteStaysBounded(Put(l, id, reserved), id, s, now, r);
    }
  }

  lemma AcceptStaysBounded(l: Loop, e: Entry, s: Surroundings, now: uint64, r: Response)
    requires FundRow.Bounded(l.fund)
    ensures FundRow.Bounded(Accept(l, e, s, now).fund)
  {
    hide UpdateState, Add, CanAdd, FundRow.Bounded, ReserveAndRoute;
    if CanAdd(l.routing.book, e.id) {
      AddBooks(l.routing.book, e, now);
      var l1 := Mark(SetBook(l, Add(l.routing.book, e, now)), e.id, RiskControllerPending, now);
      StateKeepsKeys(Add(l.routing.book, e, now), e.id, RiskControllerPending, now);
      StateKeepsKeys(l1.routing.book, e.id, RiskControllerAccepted, now);
      var l2 := Mark(l1, e.id, RiskControllerAccepted, now);
      if !(e.kind == OrderType.New && s.managed.Some?) {
        ReserveAndRouteStaysBounded(l2, e.id, s, now, r);
      }
    }
  }

  /** Main result: over every run of the loop, covered or not, total assets never exceed cash, reservations and
      market value. */
  lemma {:induction false} AssetsAreNeverOverstated(l: Loop, c: Config, events: seq<Event>)
    requires FundRow.Bounded(l.fund)
    ensures FundRow.Bounded(RunLoop(l, c, events).fund)
    decreases |events|
  {
    hide FundRow.Bounded, Accept, HandleResponse, Prepared, ArchiveAll, Act;
    if events != [] {
      match events[0] {
        case Submitted(q, s, now) =>
          if Prepared(q, s, now).Some? {
            AcceptStaysBounded(l, Prepared(q, s, now).value, s, now,
                               Response(0, OrderState.NotSet, TradeSide.NotSet, 0, 0, 0, 0));
          }
        case Reported(r, now) => ResponseStaysBounded(l, c, r, now);
        case Swept(now) => SweepKeepsFund(l, now);
        case Acted(_, _, _) =>
      }
      AssetsAreNeverOverstated(Handle(l, c, events[0]), c, events[1..]);
    }
  }

  lemma SweepKeepsFund(l: Loop, now: uint64)
    ensures ProcessArchives(l, now).fund == l.fund
  {
  }

  // ---------- What a buy request costs ----------

  /** An amount went from available to frozen cash, and nothing else changed. */
  predicate MovedToFrozen(f: FundRow.Fund, f': FundRow.Fund, amount: nat) {
    && f'.available + amount == f.available && f'.frozen == f.frozen + amount
    && f'.total == f.total && f'.marketValue == f.marketValue
  }

  lemma RouteEffect(l: Loop, id: OrderId, s: Surroundings, now: uint64)
    requires id in l.routing.book.entries && Reserves(l.routing.book.entries[id]) && id !in l.routing.book.children
    requires Release(l.routing.book.entries[id], l.fund).ok
    ensures var e, l' := l.routing.book.entries[id], Route(l, id, s, now);
            && id in l'.routing.book.entries
            && if e.slotIndex != U32_MAX && s.pushed then
                 l'.fund == l.fund && l'.routing.queue == l.routing.queue + [e.slotIndex]
                 && l'.routing.book.entries[id] == e.(state := TraderSubmitted, updatedNs := now)
               else
                 l'.fund == Release(e, l.fund).fund && l'.routing.queue == l.routing.queue
                 && l'.routing.book.entries[id].state == TraderError && l'.routing.book.entries[id].fundFrozen == 0
  {
    var e := l.routing.book.entries[id];
    var state := if e.slotIndex == U32_MAX || !s.pushed then TraderError else TraderSubmitted;
    MarkedEntry(l, id, state, now);
    MarkKeepsRest(l, id, state, now);
    hide UpdateState;
    if state == TraderError {
      var l1 := l.(routing := RoutedNew(l.routing, id, e.slotIndex, s.pushed, now).routing);
      assert l1.routing.book == Mark(l, id, TraderError, now).routing.book;
      ReleaseIgnoresState(e, l.fund, TraderError, now);
      hide Release;
      MarkedEntry(ReleaseOf(l1, id), id, TraderError, now);
      MarkKeepsRest(ReleaseOf(l1, id), id, TraderError, now);
    }
  }

  lemma ReleaseIgnoresState(e: Entry, f: FundRow.Fund, state: OrderState, now: uint64)
    requires Reserves(e) && Release(e, f).ok
    ensures var s, s' := Release(e, f), Release(e.(state := state, updatedNs := now), f);
            s'.fund == s.fund && s'.entry.fundFrozen == 0 && s'.entry == s.entry.(state := state, updatedNs := now)
  {
  }

  lemma ReleaseUndoesReserve(e: Entry, f: FundRow.Fund)
    requires Reserves(e) && e.fundFrozen == 0 && Reserve(e, f).ok
    ensures var s := Reserve(e, f);
            && s.entry == e.(fundFrozen := Cost(e) + e.feeEstimate)
            && MovedToFrozen(f, s.fund, s.entry.fundFrozen)
            && Release(s.entry, s.fund) == Settled(e, f, true)
  {
    hide Cost;
  }

  lemma ReserveAndRouteEffect(l: Loop, id: OrderId, s: Surroundings, now: uint64)
    requires id in l.routing.book.entries && id !in l.routing.book.children
    requires Reserves(l.routing.book.entries[id]) && l.routing.book.entries[id].fundFrozen == 0
    ensures var e, l' := l.routing.book.entries[id], ReserveAndRoute(l, id, s, now);
            var r := Reserve(e, l.fund);
            && id in l'.routing.book.entries
            && var e' := l'.routing.book.entries[id];
               if r.ok && s.pushed && e.slotIndex != U32_MAX then
                 && e'.state == TraderSubmitted && e'.fundFrozen == r.entry.fundFrozen && l'.fund == r.fund
                 && l'.routing.queue == l.routing.queue + [e.slotIndex]
               else
                 && e'.state == (if r.ok then TraderError else RiskControllerRejected) && e'.fundFrozen == 0
                 && l'.fund == l.fund && l'.routing.queue == l.routing.queue
  {
    hide Cost;
    var e := l.routing.book.entries[id];
    var reserved := Reserve(e, l.fund);
    if reserved.ok {
      ReleaseUndoesReserve(e, l.fund);
      hide Reserve, Release, Route;
      RouteEffect(Put(l, id, reserved), id, s, now);
    } else {
      MarkedEntry(l, id, RiskControllerRejected, now);
      MarkKeepsRest(l, id, RiskControllerRejected, now);
    }
  }

  /** The loop once an order is booked and waits for the risk rules' verdict. */
  function Booked(l: Loop, e: Entry, now: uint64): Loop {
    Mark(SetBook(l, Add(l.routing.book, e, now)), e.id, RiskControllerPending, now)
  }

  lemma BookedEntry(l: Loop, e: Entry, state: OrderState, now: uint64)
    requires CanAdd(l.routing.book, e.id) && !e.isSplitChild && e.id !in l.routing.book.children
    ensures var l' := Mark(Booked(l, e, now), e.id, state, now);
            && l'.fund == l.fund && l'.routing.queue == l.routing.queue
            && l'.routing.book.children == l.routing.book.children && l'.routing.book.managed == l.routing.book.managed
            && e.id in Booked(l, e, now).routing.book.entries
            && e.id in l'.routing.book.entries
            && var e' := l'.routing.book.entries[e.id];
               e' == OrderBookModel.Stored(e, now).(state := state, updatedNs := now)
  {
    AddEffect(l.routing.book, e, now);
    hide Add, OrderBookModel.Stored, UpdateState;
    var l0 := SetBook(l, Add(l.routing.book, e, now));
    MarkedEntry(l0, e.id, RiskControllerPending, now);
    MarkKeepsRest(l0, e.id, RiskControllerPending, now);
    var l1 := Mark(l0, e.id, RiskControllerPending, now);
    MarkedEntry(l1, e.id, state, now);
    MarkKeepsRest(l1, e.id, state, now);
  }

  /** No plain buy order goes downstream without its cash: after a buy request that the risk rules pass, either
      the order is on the queue with its whole cost frozen, or it has ended, holds nothing, and the fund row is as
      it was. */
  lemma BuyIsSentWithItsWholeCost(l: Loop, e: Entry, s: Surroundings, now: uint64)
    requires CanAdd(l.routing.book, e.id) && Reserves(e) && !e.isSplitChild && e.fundFrozen == 0
    requires e.id !in l.routing.book.children && s.riskPasses && s.managed.None?
    ensures var l' := Accept(l, e, s, now);
            && e.id in l'.routing.book.entries
            && var e' := l'.routing.book.entries[e.id];
               if l'.routing.queue != l.routing.queue then
                 && e'.state == TraderSubmitted && e'.fundFrozen == e.entrust * e.price + e.feeEstimate
                 && MovedToFrozen(l.fund, l'.fund, e'.fundFrozen)
               else IsTerminal(e'.state) && e'.fundFrozen == 0 && l'.fund == l.fund
  {
    BookedEntry(l, e, RiskControllerAccepted, now);
    StoredKeepsCost(e, now);
    var l2 := Mark(Booked(l, e, now), e.id, RiskControllerAccepted, now);
    var e2 := l2.routing.book.entries[e.id];
    if Reserve(e2, l2.fund).ok {
      ReleaseUndoesReserve(e2, l2.fund);
    }
    assert Cost(e2) == e.entrust * e.price;
    hide Add, OrderBookModel.Stored, UpdateState, Cost, Reserve, Release, ReserveAndRoute, Mark;
    ReserveAndRouteEffect(l2, e.id, s, now);
  }

  lemma StoredKeepsCost(e: Entry, now: uint64)
    ensures var s := OrderBookModel.Stored(e, now);
            && s.kind == e.kind && s.side == e.side && s.fundFrozen == e.fundFrozen
            && s.entrust == e.entrust && s.price == e.price && s.feeEstimate == e.feeEstimate && Cost(s) == Cost(e)
  {
  }

  /** An order that the risk rules reject never holds cash and never goes downstream. */
  lemma RejectedOrderStaysOut(l: Loop, e: Entry, s: Surroundings, now: uint64)
    requires CanAdd(l.routing.book, e.id) && e.kind == OrderType.New && !e.isSplitChild && e.fundFrozen == 0
             && !s.riskPasses
    requires e.id !in l.routing.book.children
    ensures var l' := Accept(l, e, s, now);
            && l'.fund == l.fund && l'.routing.queue == l.routing.queue
            && e.id in l'.routing.book.entries
            && l'.routing.book.entries[e.id].state == RiskControllerRejected
            && l'.routing.book.entries[e.id].fundFrozen == 0
  {
    BookedEntry(l, e, RiskControllerRejected, now);
    StoredKeepsIdentity(e, now);
    hide Add, OrderBookModel.Stored, UpdateState, Mark;
  }

  /** An order that the engine takes over holds no cash and does not go downstream itself; it is managed exactly if its
      session started, and has ended otherwise. */
  lemma ManagedOrderHoldsNothing(l: Loop, e: Entry, s: Surroundings, now: uint64)
    requires CanAdd(l.routing.book, e.id) && e.kind == OrderType.New && !e.isSplitChild && e.fundFrozen == 0
             && s.riskPasses
    requires s.managed.Some? && e.id !in l.routing.book.children && e.id !in l.routing.book.managed
    ensures var l' := Accept(l, e, s, now);
            && l'.fund == l.fund && l'.routing.queue == l.routing.queue
            && e.id in l'.routing.book.entries && l'.routing.book.entries[e.id].fundFrozen == 0
            && (e.id in l'.routing.book.managed <==> s.managed.value == Started)
            && l'.routing.book.entries[e.id].state
               == (match s.managed.value
                   case Started => TraderPending case Rejected => TraderRejected case Failed => TraderError)
  {
    BookedEntry(l, e, RiskControllerAccepted, now);
    StoredKeepsIdentity(e, now);
    hide Add, OrderBookModel.Stored, UpdateState, Mark;
    hide Manage, Booked;
    ManageEffect(Mark(Booked(l, e, now), e.id, RiskControllerAccepted, now), e.id, s.managed.value, now);
  }

  lemma ManageEffect(l: Loop, id: OrderId, start: StartResult, now: uint64)
    requires id in l.routing.book.entries && id !in l.routing.book.children && id !in l.routing.book.managed
    ensures var l' := Manage(l, id, start, now);
            && l'.fund == l.fund && l'.routing.queue == l.routing.queue
            && id in l'.routing.book.entries
            && l'.routing.book.entries[id].fundFrozen == l.routing.book.entries[id].fundFrozen
            && (id in l'.routing.book.managed <==> start == Started)
            && l'.routing.book.entries[id].state
               == (match start case Started => TraderPending case Rejected => TraderRejected case Failed => TraderError)
  {
    hide Mark;
    MarkedEntry(l, id, TraderPending, now);
    MarkKeepsRest(l, id, TraderPending, now);
    var l1 := Mark(l, id, TraderPending, now);
    if start != Started {
      var state := if start == Rejected then TraderRejected else TraderError;
      MarkedEntry(l1, id, state, now);
      MarkKeepsRest(l1, id, state, now);
    }
  }

  // ---------- User cancels ----------

  /** A cancel that arrives as a request is booked under its own id before it is routed, so the router finds its id
      taken: if the order it aims at has no children, it never goes downstream, and the order is left as it was. */
  lemma UserCancelNeverGoesDown(l: Loop, q: Request, s: Surroundings, now: uint64)
    requires q.entry.kind == OrderType.Cancel && ChildrenOf(l.routing.book, q.entry.origId) == []
    requires Prepared(q, s, now).Some? && CanAdd(l.routing.book, Prepared(q, s, now).value.id)
    requires Prepared(q, s, now).value.id !in l.routing.book.children
             && Prepared(q, s, now).value.id !in l.routing.book.parentOf
    ensures var l' := HandleRequest(l, q, s, now);
            var id := Prepared(q, s, now).value.id;
            && l'.routing.queue == l.routing.queue && l'.fund == l.fund
            && id in l'.routing.book.entries && l'.routing.book.entries[id].state == TraderError
            && forall x :: x in l.routing.book.entries ==>
               x in l'.routing.book.entries && l'.routing.book.entries[x] == l.routing.book.entries[x]
  {
    PreparedHoldsNothing(q, s, now);
    PreparedKeepsCancel(q, s, now);
    CancelEndsInError(l, Prepared(q, s, now).value, s, now);
    hide Prepared, Accept;
  }

  lemma PreparedKeepsCancel(q: Request, s: Surroundings, now: uint64)
    requires Prepared(q, s, now).Some?
    ensures Prepared(q, s, now).value.kind == q.entry.kind && Prepared(q, s, now).value.origId == q.entry.origId
  {
    hide Build, Cost;
  }

  /** An order that is neither child nor parent. */
  predicate Alone(b: Book, id: OrderId) {
    id !in b.children && id !in b.parentOf
  }

  /** Marking such an order touches that order alone. */
  lemma MarkingAlone(b: Book, id: OrderId, state: OrderState, now: uint64)
    requires id in b.entries && Alone(b, id)
    ensures UpdateState(b, id, state, now)
            == b.(entries := b.entries[id := b.entries[id].(state := state, updatedNs := now)])
  {
  }

  lemma CancelEndsInError(l: Loop, e: Entry, s: Surroundings, now: uint64)
    requires e.kind == OrderType.Cancel && !e.isSplitChild && CanAdd(l.routing.book, e.id)
    requires ChildrenOf(l.routing.book, e.origId) == [] && e.id !in l.routing.book.children
             && e.id !in l.routing.book.parentOf
    ensures var l' := Accept(l, e, s, now);
            && l'.routing.queue == l.routing.queue && l'.fund == l.fund
            && e.id in l'.routing.book.entries && l'.routing.book.entries[e.id].state == TraderError
            && forall x :: x in l.routing.book.entries ==>
               x in l'.routing.book.entries && l'.routing.book.entries[x] == l.routing.book.entries[x]
  {
    AddEffect(l.routing.book, e, now);
    StoredKeepsIdentity(e, now);
    hide Add, OrderBookModel.Stored, UpdateState;
    var l0 := SetBook(l, Add(l.routing.book, e, now));
    MarkingAlone(l0.routing.book, e.id, RiskControllerPending, now);
    var l1 := Mark(l0, e.id, RiskControllerPending, now);
    MarkingAlone(l1.routing.book, e.id, RiskControllerAccepted, now);
    var l2 := Mark(l1, e.id, RiskControllerAccepted, now);
    DuplicateCancelIsRefused(l2.routing, e.origId, e.id, s.luck, now);
    hide RoutedCancel;
    assert l2.routing.book.entries[e.id].origId == e.origId;
    var settled := Settled(l2.routing.book.entries[e.id], l2.fund, true);
    assert Put(l2, e.id, settled) == l2;
    MarkingAlone(l2.routing.book, e.id, TraderError, now);
  }

  /** For a parent with live children, the cancel, booked under its id, is fanned out under a taken id: with
      willing surroundings every live child but the first gets its cancel, the first gets none, and the parent is
      marked failed. */
  lemma UserCancelMissesTheFirstChild(l: Loop, id: OrderId, s: Surroundings, now: uint64)
    requires id in l.routing.book.entries && l.routing.book.entries[id].kind == OrderType.Cancel
    requires var b, orig := l.routing.book, l.routing.book.entries[id].origId;
             && orig != 0 && orig in b.entries && orig !in b.parentOf
             && Distinct(ChildrenOf(b, orig)) && orig !in ChildrenOf(b, orig)
             && LiveAmong(b.entries, ChildrenOf(b, orig)) != []
             && Fresh(b, CounterIds(l.routing.nextOrderId, |LiveAmong(b.entries, ChildrenOf(b, orig))| - 1))
             && forall k :: 0 <= k < |ChildrenOf(b, orig)| ==> Willing(s.luck(k))
    ensures var b, orig := l.routing.book, l.routing.book.entries[id].origId;
            var live, sent := LiveAmong(b.entries, ChildrenOf(b, orig)), SentDown(l, id, s, now);
            && Cancelled(b, sent.routing.book, orig, live[1..], CounterIds(l.routing.nextOrderId, |live| - 1))
            && (forall x :: x in sent.routing.book.entries && x !in b.entries ==>
                sent.routing.book.entries[x].origId != live[0])
            && orig in sent.routing.book.entries && sent.routing.book.entries[orig].state == TraderError
            && sent.ok == (|live| > 1)
  {
    TakenIdMissesTheFirstChild(l.routing, l.routing.book.entries[id].origId, id, s.luck, now);
  }
}
