/** The execution engine: it starts sessions, ticks them all, routes responses to them, and drops those that ended
    (src/execution/execution_engine.cpp). The sessions are objects of their own, and all of them read and write one
    order book; each still goes through exactly what it would go through alone. */
module ExecutionEngine {
  import opened Integers
  import opened OrderTypes
  import opened Sums
  import opened TwapPlan
  import opened ExecutionModel
  import opened ExecutionConservation
  import opened ExecutionPacing
  import opened ExecutionSessions
  import B = OrderBookModel
  import R = OrderRouter
  import A = SessionActions

  /** A FixedSize or Iceberg session with its clip volume, or a TWAP session. */
  datatype Live = Clipped(session: Session, clip: uint64) | Sliced(twap: Twap)

  function BaseOf(x: Live): Session {
    if x.Clipped? then x.session else x.twap.base
  }

  ghost function TickOne(x: Live, now: uint64, around: Surroundings): Live {
    match x
    case Clipped(s, clip) => Clipped(SequentialTick(s, clip, around).session, clip)
    case Sliced(t) => Sliced(TwapTick(t, now, around).twap)
  }

  ghost function RespondOne(x: Live, r: TradeResponse): Live {
    match x
    case Clipped(s, clip) => Clipped(OnTradeResponse(s, r), clip)
    case Sliced(t) => Sliced(TwapOnTradeResponse(t, r))
  }

  /** The sessions by the id of their parent order. */
  type Engine = map<OrderId, Live>

  // ---------- What a session is told, and what it reads of the book ----------

  /** What the market data, the active strategy and the router answer to one session. */
  datatype Answers = Answers(
    market: Option<MarketView>, decision: ActiveDecision, activeRoute: Option<OrderId>, passiveRoute: Option<OrderId>)

  /** All that a session's tick depends on, with the book as it is. */
  function See(b: B.Book, parent: OrderId, a: Answers): Surroundings {
    Surroundings(parent in b.entries, A.CancelsUnder(b, parent), a.market, a.decision, a.activeRoute, a.passiveRoute)
  }

  /** Another book that a session would read the same, unless its parent came into it. */
  ghost predicate SameSight(b: B.Book, b': B.Book, p: OrderId) {
    A.CancelsUnder(b', p) == A.CancelsUnder(b, p) && (p in b.entries ==> p in b'.entries)
  }

  const UNSEEN: Surroundings := Surroundings(false, {}, None, ActiveDecision(false, 0), None, None)

  function At(saw: map<OrderId, Surroundings>, id: OrderId): Surroundings {
    if id in saw then saw[id] else UNSEEN
  }

  // ---------- Starting a session ----------

  datatype StartResult = Started | Duplicate | Unsupported | MarketDataUnavailable | Unsplittable | InvalidConfig

  /** The algorithm that a request and the configured default resolve to. */
  datatype Algo = NoAlgo | FixedSize | Iceberg | Twap | Vwap

  /** What a session needs to know of its parent order. */
  datatype ParentOrder = ParentOrder(id: OrderId, isNew: bool, algo: Algo, target: uint64, orderPrice: uint64)

  /** Why no session can be created for an order, in the order of the checks: an order that is not managed at all, one
      that has a session, VWAP, no market to read and none to do without, and a TWAP plan that cannot be made. */
  function Refusal(e: set<OrderId>, order: ParentOrder, config: SplitConfig, marketReady: bool, allowFallback: bool)
    : Option<StartResult>
  {
    if !order.isNew || order.algo == NoAlgo then Some(InvalidConfig)
    else if order.id in e then Some(Duplicate)
    else if order.algo == Vwap then Some(Unsupported)
    else if !marketReady && !allowFallback then Some(MarketDataUnavailable)
    else if order.algo == Algo.Twap && (config.intervalMs == 0 || order.target == 0 || config.maxChildCount == 0)
      then Some(Unsplittable)
    else None
  }

  /** A session can be created exactly for a new order of a known algorithm other than VWAP that has no session yet,
      with a market to read or leave to do without, and, for TWAP, an interval, a volume and room for a child. */
  lemma CreatableExactly(e: set<OrderId>, order: ParentOrder, config: SplitConfig, marketReady: bool,
                         allowFallback: bool)
    ensures var why := Refusal(e, order, config, marketReady, allowFallback);
            && (why.None? <==>
                && order.isNew && order.algo in {FixedSize, Iceberg, Algo.Twap} && order.id !in e
                && (marketReady || allowFallback)
                && (order.algo == Algo.Twap ==> config.intervalMs > 0 && order.target > 0 && config.maxChildCount > 0))
            && (why == Some(Unsplittable) ==> order.algo == Algo.Twap)
            && (why == Some(MarketDataUnavailable) ==> !marketReady && !allowFallback)
            && (why == Some(Unsupported) ==> order.algo == Vwap)
            && (why == Some(Duplicate) ==> order.id in e)
            && (order.isNew && order.algo == Vwap && order.id !in e ==> why == Some(Unsupported))
            && why != Some(Started)
  {
  }

  /** A session as it is created for an order. */
  ghost predicate Newborn(x: Live, order: ParentOrder, config: SplitConfig, allowFallback: bool, hasActive: bool,
                          now: uint64)
  {
    && BaseOf(x) == Start(order.target, order.orderPrice, allowFallback, hasActive)
    && (x.Sliced? <==> order.algo == Algo.Twap)
    && (x.Clipped? ==> x.clip == ResolveClipVolume(config) && x.clip > 0)
    && (x.Sliced? ==>
          && x.twap == StartTwap(x.twap.base, x.twap.slices, now, config.intervalMs * 1_000_000)
          && SeqSum(x.twap.slices) == order.target && AllPositive(x.twap.slices)
          && |x.twap.slices| == PlannedCount(order.target, ResolveClipVolume(config), config.maxChildCount))
  }

  // ---------- Rounds and responses ----------

  /** One round: every session ticks with what it saw, and those that ended are gone. */
  ghost function TickAll(e: Engine, now: uint64, saw: map<OrderId, Surroundings>): Engine {
    map id | id in e && !BaseOf(TickOne(e[id], now, At(saw, id))).terminal :: TickOne(e[id], now, At(saw, id))
  }

  /** A round in which all but the sessions of `rest` had their turn, and those of `finished` ended in it. */
  ghost predicate TurnsTaken(
    was: Engine, e: Engine, rest: set<OrderId>, finished: set<OrderId>, now: uint64, saw: map<OrderId, Surroundings>)
  {
    && e.Keys == was.Keys
    && (forall id :: id in e ==> e[id] == if id in rest then was[id] else TickOne(was[id], now, At(saw, id)))
    && (forall id :: id in finished <==> id in e && id !in rest && BaseOf(e[id]).terminal)
  }

  lemma NoTurnYet(was: Engine, b: B.Book, answers: OrderId -> Answers, now: uint64)
    ensures TurnsTaken(was, was, was.Keys, {}, now, map[])
    ensures OthersQuiet(was.Keys, was.Keys, b, b, answers, map[])
  {
    hide TickOne;
  }

  lemma OneMoreTurn(
    was: Engine, e: Engine, rest: set<OrderId>, finished: set<OrderId>, now: uint64, saw: map<OrderId, Surroundings>,
    id: OrderId, around: Surroundings)
    requires TurnsTaken(was, e, rest, finished, now, saw) && id in rest && id in was
    ensures var e' := e[id := TickOne(e[id], now, around)];
            && TurnsTaken(was, e', rest - {id}, if BaseOf(e'[id]).terminal then finished + {id}
                          else finished, now, saw[id := around])
  {
    hide TickOne;
  }

  lemma AllTurnsTaken(
    was: Engine, e: Engine, finished: set<OrderId>, now: uint64, saw: map<OrderId, Surroundings>,
    start: B.Book, after: B.Book, answers: OrderId -> Answers)
    requires TurnsTaken(was, e, {}, finished, now, saw) && OthersQuiet(was.Keys, {}, start, after, answers, saw)
    ensures SawTheStart(was.Keys, start, after, answers, saw)
    ensures e - finished == TickAll(was, now, saw)
  {
    hide TickOne, SawTheStart;
    assert was.Keys - {} == was.Keys;
  }

  /** The parent that the book names for an order, even for an order that has left it. */
  function OwnerOf(b: B.Book, id: OrderId): Option<OrderId> {
    if id in b.parentOf then Some(b.parentOf[id]) else None
  }

  /** A response goes to the session of its order's parent, if there is one. */
  ghost function Deliver(e: Engine, r: TradeResponse, owner: Option<OrderId>): Engine {
    if owner.None? || owner.value !in e then e else e[owner.value := RespondOne(e[owner.value], r)]
  }

  /** A new session has its first tick at once. */
  ghost function Begun(e: Engine, parent: OrderId, born: Live, now: uint64, around: Surroundings): Engine {
    e[parent := TickOne(born, now, around)]
  }

  lemma BeginsOnce(e: Engine, parent: OrderId, born: Live, now: uint64, around: Surroundings)
    ensures var e' := e[parent := born];
            e'[parent := TickOne(e'[parent], now, around)] == Begun(e, parent, born, now, around)
  {
    hide TickOne;
  }

  // ---------- Turns over one shared book ----------

  /** Each of the sessions saw the book of the start, unless its parent came in on the way. */
  ghost predicate SawTheStart(
    ids: set<OrderId>, start: B.Book, after: B.Book, answers: OrderId -> Answers, saw: map<OrderId, Surroundings>)
  {
    && (forall id :: id in start.entries ==> id in after.entries)
    && forall id :: id in ids && (id in start.entries || id !in after.entries) ==>
       At(saw, id) == See(start, id, answers(id))
  }

  /** The sessions of `rest` would still read what the book held at the start, and the others did. */
  ghost predicate OthersQuiet(
    ids: set<OrderId>, rest: set<OrderId>, start: B.Book, b: B.Book, answers: OrderId -> Answers,
    saw: map<OrderId, Surroundings>)
  {
    SawTheStart(ids - rest, start, b, answers, saw) && forall p :: p in rest ==> SameSight(start, b, p)
  }

  /** One more turn: the session `id` reads the book, then acts. */
  lemma OneMoreSaw(
    ids: set<OrderId>, rest: set<OrderId>, start: B.Book, b: B.Book, b': B.Book, answers: OrderId -> Answers,
    saw: map<OrderId, Surroundings>, id: OrderId)
    requires OthersQuiet(ids, rest, start, b, answers, saw) && id in rest && A.Quiet(b, b', id)
    ensures OthersQuiet(ids, rest - {id}, start, b', answers, saw[id := See(b, id, answers(id))])
  {
    hide A.CancelsUnder, B.ChildrenOf;
    forall p | p in rest && p != id ensures SameSight(start, b', p) {
      A.QuietKeepsSight(b, b', id, p);
    }
  }

  // ---------- The engine's objects ----------

  datatype SessionRef = ClippedRef(clipped: SequentialClipSession) | SlicedRef(sliced: TwapSession)

  function ReprOf(x: SessionRef): set<object> {
    match x
    case ClippedRef(s) => {s, s.base}
    case SlicedRef(t) => {t, t.base}
  }

  ghost function ModelOf(x: SessionRef): Live
    reads ReprOf(x)
  {
    match x
    case ClippedRef(s) => Clipped(s.base.Model(), s.clip)
    case SlicedRef(t) => Sliced(t.Model())
  }

  method TickSession(x: SessionRef, now: uint64, around: Surroundings) returns (terminal: bool)
    modifies ReprOf(x)
    ensures ModelOf(x) == TickOne(old(ModelOf(x)), now, around)
    ensures terminal == BaseOf(ModelOf(x)).terminal
  {
    hide SequentialTick, TwapTick;
    match x
    case ClippedRef(s) =>
      var _ := s.Tick(around);
      terminal := s.base.terminal;
    case SlicedRef(t) =>
      var _ := t.Tick(now, around);
      terminal := t.base.terminal;
  }

  method RespondSession(x: SessionRef, r: TradeResponse)
    modifies ReprOf(x)
    ensures ModelOf(x) == RespondOne(old(ModelOf(x)), r)
  {
    hide OnTradeResponse, TwapOnTradeResponse;
    match x
    case ClippedRef(s) => s.OnTradeResponse(r);
    case SlicedRef(t) => t.OnTradeResponse(r);
  }

  class Sessions {
    const config: SplitConfig
    const allowFallback: bool
    const hasActive: bool
    var sessions: map<OrderId, SessionRef>
    ghost var Repr: set<object>

    /** No two sessions share an object. */
    ghost predicate Valid()
      reads this
    {
      && this !in Repr
      && (forall id :: id in sessions ==> ReprOf(sessions[id]) <= Repr)
      && (forall a, b :: a in sessions && b in sessions && a != b ==> ReprOf(sessions[a]) !! ReprOf(sessions[b]))
    }

    ghost function Model(): (e: Engine)
      requires Valid()
      reads this, Repr
      ensures e.Keys == sessions.Keys
    {
      map id | id in sessions :: ModelOf(sessions[id])
    }

    constructor (config: SplitConfig, allowFallback: bool, hasActive: bool)
      ensures Valid() && Model() == map[] && Repr == {}
      ensures this.config == config && this.allowFallback == allowFallback && this.hasActive == hasActive
    {
      this.config, this.allowFallback, this.hasActive := config, allowFallback, hasActive;
      sessions, Repr := map[], {};
    }

    lemma OwnsItsSessions(id: OrderId)
      requires Valid() && id in sessions
      ensures ReprOf(sessions[id]) <= Repr
    {
    }

    /** The turn of one session; the objects of the others are not its own. */
    method TickNext(id: OrderId, now: uint64, around: Surroundings) returns (terminal: bool)
      requires Valid() && id in sessions
      modifies ReprOf(sessions[id])
      ensures sessions == old(sessions) && Repr == old(Repr)
      ensures Valid() && Model() == old(Model())[id := TickOne(old(Model())[id], now, around)]
      ensures terminal == BaseOf(Model()[id]).terminal
    {
      hide TickOne, ModelOf;
      terminal := TickSession(sessions[id], now, around);
    }

    method RespondTo(id: OrderId, r: TradeResponse)
      requires Valid() && id in sessions
      modifies ReprOf(sessions[id])
      ensures Valid() && Model() == old(Model())[id := RespondOne(old(Model())[id], r)]
    {
      hide RespondOne, ModelOf;
      RespondSession(sessions[id], r);
    }

    /** Erases the sessions that ended, one by one. */
    method Erase(finished: set<OrderId>)
      modifies this`sessions
      ensures sessions == old(sessions) - finished
    {
      var todo := finished;
      while todo != {}
        invariant todo <= finished && sessions == old(sessions) - (finished - todo)
        decreases todo
      {
        var id :| id in todo;
        sessions := sessions - {id};
        todo := todo - {id};
      }
      assert finished - todo == finished;
    }

    method Drop(finished: set<OrderId>)
      requires Valid()
      modifies this`sessions
      ensures Valid() && Model() == old(Model()) - finished
    {
      hide ModelOf, ReprOf;
      Erase(finished);
    }

    /** Main result: the sessions take their turns in any order, each reading the book as it is by then and leaving it
        changed by whatever it does for its parent; those that ended are collected and dropped. The round is still the
        one in which every session ticks with what the book held at the start, whatever the others did, except that a
        parent which comes into the book during the round may be seen. */
    method Tick(routing: R.Routing, now: uint64, answers: OrderId -> Answers, actions: OrderId -> seq<A.Action>)
      returns (after: R.Routing, ghost saw: map<OrderId, Surroundings>)
      requires Valid()
      modifies this`sessions, Repr
      ensures Valid() && Model() == TickAll(old(Model()), now, saw)
      ensures SawTheStart(old(sessions).Keys, routing.book, after.book, answers, saw)
    {
      hide *;
      ghost var was := Model();
      var finished: set<OrderId> := {};
      var rest := sessions.Keys;
      after, saw := routing, map[];
      NoTurnYet(was, routing.book, answers, now);
      while rest != {}
        invariant Valid() && sessions == old(sessions) && Repr == old(Repr) && rest <= sessions.Keys
        invariant TurnsTaken(was, Model(), rest, finished, now, saw)
        invariant OthersQuiet(was.Keys, rest, routing.book, after.book, answers, saw)
        decreases rest
      {
        var id :| id in rest;
        var around := See(after.book, id, answers(id));
        var before := after;
        ghost var model := Model();
        OwnsItsSessions(id);
        var terminal := TickNext(id, now, around);
        after := A.ActAll(after, id, actions(id), now);
        A.ActAllIsQuiet(before, id, actions(id), now);
        OneMoreTurn(was, model, rest, finished, now, saw, id, around);
        OneMoreSaw(was.Keys, rest, routing.book, before.book, after.book, answers, saw, id);
        if terminal {
          finished := finished + {id};
        }
        saw := saw[id := around];
        rest := rest - {id};
      }
      AllTurnsTaken(was, Model(), finished, now, saw, routing.book, after.book, answers);
      Drop(finished);
    }

    /** A response is delivered to the session whose parent the book names. */
    method OnTradeResponse(r: TradeResponse, book: B.Book)
      requires Valid()
      modifies Repr
      ensures Valid() && Model() == Deliver(old(Model()), r, OwnerOf(book, r.orderId))
    {
      hide RespondOne, ModelOf;
      var owner := OwnerOf(book, r.orderId);
      if owner.None? {
        return;
      }
      if owner.value !in sessions {
        return;
      }
      RespondTo(owner.value, r);
    }

    method Create(order: ParentOrder, now: uint64) returns (x: SessionRef, valid: bool)
      requires order.algo in {FixedSize, Iceberg, Algo.Twap}
      ensures fresh(ReprOf(x))
      ensures valid <==> (order.algo == Algo.Twap ==>
                          config.intervalMs != 0 && order.target != 0 && config.maxChildCount != 0)
      ensures valid ==> Newborn(ModelOf(x), order, config, allowFallback, hasActive, now)
    {
      if order.algo == Algo.Twap {
        var t := new TwapSession(order.target, order.orderPrice, allowFallback, hasActive, config, now);
        x, valid := SlicedRef(t), t.valid;
      } else {
        var s := new SequentialClipSession(order.target, order.orderPrice, allowFallback, hasActive, config);
        x, valid := ClippedRef(s), s.clip != 0;
      }
    }

    /** A new session shares no object with the others. */
    method Insert(id: OrderId, x: SessionRef)
      requires Valid() && id !in sessions && ReprOf(x) !! Repr && this !in ReprOf(x)
      modifies this`sessions, this`Repr
      ensures Valid() && Model() == old(Model())[id := ModelOf(x)] && Repr == old(Repr) + ReprOf(x)
      ensures sessions == old(sessions)[id := x] && ModelOf(x) == old(ModelOf(x))
    {
      hide ModelOf, ReprOf;
      sessions, Repr := sessions[id := x], Repr + ReprOf(x);
    }

    /** Creates a session for a parent order that is booked, marks the parent as managed, and ticks the session. */
    method StartSession(
      order: ParentOrder, marketReady: bool, routing: R.Routing, now: uint64, answers: Answers, actions: seq<A.Action>)
      returns (result: StartResult, after: R.Routing, ghost born: Option<Live>)
      requires Valid()
      modifies this`sessions, this`Repr
      ensures Valid() && fresh(Repr - old(Repr))
      ensures var why := Refusal(old(sessions).Keys, order, config, marketReady, allowFallback);
              result == if why.Some? then why.value else if order.id in routing.book.entries then Started
                else InvalidConfig
      ensures result != Started ==> after == routing && Model() == old(Model())
      ensures result == Started ==>
                var marked := B.MarkManaged(routing.book, order.id);
                && born.Some? && Newborn(born.value, order, config, allowFallback, hasActive, now)
                && Model() == Begun(old(Model()), order.id, born.value, now, See(marked, order.id, answers))
                && after == A.ActAll(routing.(book := marked), order.id, actions, now)
    {
      hide ModelOf, ReprOf, TickOne, See, Newborn, A.ActAll;
      after, born := routing, None;
      if !order.isNew || order.algo == NoAlgo {
        return InvalidConfig, after, born;
      }
      if order.id in sessions {
        return Duplicate, after, born;
      }
      if order.algo == Vwap {
        return Unsupported, after, born;
      }
      if !marketReady && !allowFallback {
        return MarketDataUnavailable, after, born;
      }
      var x, valid := Create(order, now);
      if !valid {
        return Unsplittable, after, born;
      }
      if order.id !in routing.book.entries {
        return InvalidConfig, after, born;
      }
      born := Some(ModelOf(x));
      after := routing.(book := B.MarkManaged(routing.book, order.id));
      assert Model() == old(Model());
      BeginsOnce(Model(), order.id, born.value, now, See(after.book, order.id, answers));
      Insert(order.id, x);
      var _ := TickNext(order.id, now, See(after.book, order.id, answers));
      after := A.ActAll(after, order.id, actions, now);
      result := Started;
    }
  }

  // ---------- Whole runs ----------

  datatype EngineEvent =
    | Begin(parent: OrderId, born: Live, now: uint64, around: Surroundings)
    | Round(now: uint64, saw: map<OrderId, Surroundings>)
    | Report(response: TradeResponse, owner: Option<OrderId>)

  /** One event; a session begins only for a parent that has none. */
  ghost function EngineStep(e: Engine, event: EngineEvent): Engine {
    match event
    case Begin(parent, born, now, around) => if parent in e then e else Begun(e, parent, born, now, around)
    case Round(now, saw) => TickAll(e, now, saw)
    case Report(r, owner) => Deliver(e, r, owner)
  }

  ghost function RunEngine(e: Engine, events: seq<EngineEvent>): Engine
    decreases |events|
  {
    if events == [] then e else RunEngine(EngineStep(e, events[0]), events[1..])
  }

  predicate AtRest(s: Session) {
    s == Start(s.target, s.orderPrice, s.allowFallback, s.hasActive)
  }

  /** Every session begins at rest, as every created one does. */
  predicate BeginAtRest(event: EngineEvent) {
    event.Begin? ==> AtRest(BaseOf(event.born))
  }

  ghost predicate AllConserving(e: Engine) {
    forall id :: id in e ==> Conserving(BaseOf(e[id]))
  }

  lemma TickOneConserves(x: Live, now: uint64, around: Surroundings)
    requires Conserving(BaseOf(x))
    ensures Conserving(BaseOf(TickOne(x, now, around)))
  {
    hide Conserving, SequentialTick, TwapTick;
    match x
    case Clipped(s, clip) => SequentialTickConserves(s, clip, around);
    case Sliced(t) => TwapTickConserves(t, now, around);
  }

  lemma RespondOneConserves(x: Live, r: TradeResponse)
    requires Conserving(BaseOf(x))
    ensures Conserving(BaseOf(RespondOne(x, r)))
  {
    hide Conserving, OnTradeResponse;
    match x
    case Clipped(s, clip) => ResponseConserves(s, r);
    case Sliced(t) =>
      ResponseConserves(t.base, r);
      AdvanceConserves(t.(base := OnTradeResponse(t.base, r)));
  }

  lemma StepConserves(e: Engine, event: EngineEvent)
    requires AllConserving(e) && BeginAtRest(event)
    ensures AllConserving(EngineStep(e, event))
  {
    hide Conserving, TickOne, RespondOne;
    match event
    case Begin(parent, born, now, around) =>
      var s := BaseOf(born);
      StartConserves(s.target, s.orderPrice, s.allowFallback, s.hasActive);
      TickOneConserves(born, now, around);
    case Round(now, saw) =>
      forall id | id in TickAll(e, now, saw) ensures Conserving(BaseOf(TickAll(e, now, saw)[id])) {
        TickOneConserves(e[id], now, At(saw, id));
      }
    case Report(r, owner) =>
      if owner.Some? && owner.value in e {
        RespondOneConserves(e[owner.value], r);
      }
  }

  /** Main result: however sessions begin, tick and end, and whichever responses come, in every session the engine holds
      traded + working + schedulable is exactly its target, and no total has saturated. */
  lemma {:induction false} EverySessionIsBalanced(e: Engine, events: seq<EngineEvent>, id: OrderId)
    requires AllConserving(e) && (forall k :: 0 <= k < |events| ==> BeginAtRest(events[k]))
    requires id in RunEngine(e, events)
    ensures var s := BaseOf(RunEngine(e, events)[id]); ExactlyBalanced(s, s.target)
    decreases |events|
  {
    hide Conserving, ExactlyBalanced, EngineStep;
    if events == [] {
      BalancedNow(BaseOf(e[id]));
    } else {
      StepConserves(e, events[0]);
      EverySessionIsBalanced(EngineStep(e, events[0]), events[1..], id);
    }
  }

  lemma BalancedNow(s: Session)
    requires Conserving(s)
    ensures ExactlyBalanced(s, s.target)
  {
    ConservingIsBalanced(s);
  }

  // ---------- Cancels and reports find their session ----------

  /** The cancels a session reads after some of its children were cancelled: those from before, and these. */
  lemma CancelledAreSeen(before: B.Book, after: B.Book, orig: OrderId, live: seq<OrderId>, ids: seq<OrderId>)
    requires R.Cancelled(before, after, orig, live, ids) && orig !in B.ChildrenOf(before, orig)
    requires forall id :: id in ids ==> id !in before.entries
    requires orig in before.entries
    ensures A.CancelsUnder(after, orig) == A.CancelsUnder(before, orig) + (set id | id in live)
    ensures orig in after.entries
  {
    hide B.ChildrenOf;
    forall x | x in A.CancelsUnder(after, orig) ensures x in A.CancelsUnder(before, orig) || x in live {
      var c :| c in B.ChildrenOf(after, orig) && c in after.entries && after.entries[c].kind == OrderType.Cancel
               && after.entries[c].origId == x;
      if c in ids {
        var k :| 0 <= k < |ids| && ids[k] == c;
        assert R.Cancels(after, ids[k], live[k], orig);
      } else {
        assert c in before.entries && c != orig && c in B.ChildrenOf(before, orig);
      }
    }
    forall x | x in live ensures x in A.CancelsUnder(after, orig) {
      var k :| 0 <= k < |live| && live[k] == x;
      assert R.Cancels(after, ids[k], live[k], orig);
      assert ids[k] in B.ChildrenOf(after, orig);
    }
    forall x | x in A.CancelsUnder(before, orig) ensures x in A.CancelsUnder(after, orig) {
      var c :| c in B.ChildrenOf(before, orig) && c in before.entries && before.entries[c].kind == OrderType.Cancel
               && before.entries[c].origId == x;
      assert c != orig && c in after.entries && c in B.ChildrenOf(after, orig);
    }
  }

  ghost function SentBy(x: Live, now: uint64, around: Surroundings): Option<Submission> {
    match x
    case Clipped(s, clip) => SequentialTick(s, clip, around).sent
    case Sliced(t) => TwapTick(t, now, around).sent
  }

  lemma StoppedSendsNothing(x: Live, now: uint64, around: Surroundings)
    requires Conserving(BaseOf(x)) && around.cancels != {}
    ensures SentBy(x, now, around).None?
    ensures WorkingVolume(BaseOf(x)) == 0 ==> BaseOf(TickOne(x, now, around)).terminal
  {
    hide Conserving, SequentialTick, TwapTick, WorkingVolume;
    match x
    case Clipped(s, clip) => StoppedSequentialSendsNothing(s, clip, around);
    case Sliced(t) => StoppedTwapSendsNothing(t, now, around);
  }

  /** Main result: once a parent with live children is cancelled under fresh ids, with willing surroundings, its session
      reads a cancel for each of them and sends nothing more; it ends as soon as nothing works. */
  lemma CancelStopsItsSession(
    r: R.Routing, orig: OrderId, cancelId: OrderId, luck: nat -> R.Attempt, now: uint64, x: Live, a: Answers)
    requires B.Distinct(B.ChildrenOf(r.book, orig)) && orig !in B.ChildrenOf(r.book, orig)
    requires orig != 0 && orig in r.book.entries && R.LiveAmong(r.book.entries, B.ChildrenOf(r.book, orig)) != []
    requires R.Fresh(r.book, R.CancelIds(cancelId, r.nextOrderId,
                                         |R.LiveAmong(r.book.entries, B.ChildrenOf(r.book, orig))|))
    requires forall k :: 0 <= k < |B.ChildrenOf(r.book, orig)| ==> R.Willing(luck(k))
    requires Conserving(BaseOf(x))
    ensures var b := R.RoutedCancel(r, orig, cancelId, luck, now).routing.book;
            var around, live := See(b, orig, a), R.LiveAmong(r.book.entries, B.ChildrenOf(r.book, orig));
            && (forall c :: c in live ==> c in around.cancels)
            && SentBy(x, now, around).None?
            && (WorkingVolume(BaseOf(x)) == 0 ==> BaseOf(TickOne(x, now, around)).terminal)
  {
    hide Conserving, R.Willing, R.CancelIds, R.RoutedCancel, SentBy, TickOne, WorkingVolume, B.Distinct, R.Cancelled,
      R.LiveAmong;
    var live := R.LiveAmong(r.book.entries, B.ChildrenOf(r.book, orig));
    var b := R.RoutedCancel(r, orig, cancelId, luck, now).routing.book;
    assert live[0] in live;
    assert B.ChildrenOf(r.book, orig) != [] by {
      R.LiveAmongExactly(r.book.entries, B.ChildrenOf(r.book, orig));
    }
    R.CancelReachesEveryLiveChild(r, orig, cancelId, luck, now);
    CancelledAreSeen(r.book, b, orig, live, R.CancelIds(cancelId, r.nextOrderId, |live|));
    assert live[0] in See(b, orig, a).cancels;
    StoppedSendsNothing(x, now, See(b, orig, a));
  }

  /** Main result: under an id that is booked already, as that of every cancel a user sends, the session reads cancels
      for all live children but the first. So it goes on as if nothing had happened exactly if no other child is live
      that was not being cancelled: the cancel of an order with one live child stops nothing. */
  lemma UserCancelIsSeenExactly(
    r: R.Routing, orig: OrderId, cancelId: OrderId, luck: nat -> R.Attempt, now: uint64, a: Answers)
    requires B.Distinct(B.ChildrenOf(r.book, orig)) && orig !in B.ChildrenOf(r.book, orig)
    requires orig != 0 && orig in r.book.entries && orig !in r.book.parentOf && cancelId in r.book.entries
    requires R.LiveAmong(r.book.entries, B.ChildrenOf(r.book, orig)) != []
    requires R.Fresh(r.book, R.CounterIds(r.nextOrderId, |R.LiveAmong(r.book.entries, B.ChildrenOf(r.book, orig))| - 1))
    requires forall k :: 0 <= k < |B.ChildrenOf(r.book, orig)| ==> R.Willing(luck(k))
    ensures var b := R.RoutedCancel(r, orig, cancelId, luck, now).routing.book;
            var rest := R.LiveAmong(r.book.entries, B.ChildrenOf(r.book, orig))[1..];
            && See(b, orig, a).cancels == See(r.book, orig, a).cancels + (set id | id in rest)
            && (See(b, orig, a) == See(r.book, orig, a) <==>
                forall id :: id in rest ==> id in See(r.book, orig, a).cancels)
  {
    hide R.Willing, R.CounterIds, R.RoutedCancel, B.Distinct, R.Cancelled, R.LiveAmong, A.CancelsUnder;
    var live := R.LiveAmong(r.book.entries, B.ChildrenOf(r.book, orig));
    var b := R.RoutedCancel(r, orig, cancelId, luck, now).routing.book;
    R.TakenIdMissesTheFirstChild(r, orig, cancelId, luck, now);
    CancelledAreSeen(r.book, b, orig, live[1..], R.CounterIds(r.nextOrderId, |live| - 1));
    var rest := set id | id in live[1..];
    assert A.CancelsUnder(b, orig) == A.CancelsUnder(r.book, orig) + rest;
  }

  /** A report on a child that a session submitted goes to that session, and still does after the child was archived. */
  lemma ReportFindsItsSession(
    e: Engine, r: R.Routing, parent: OrderId, entry: B.Entry, attempt: R.Attempt, now: uint64, response: TradeResponse)
    requires parent in e && parent != 0 && parent != r.nextOrderId && r.nextOrderId !in r.book.children
    requires B.CanAdd(r.book, r.nextOrderId) && attempt.slot.Some? && response.orderId == r.nextOrderId
    ensures var b := A.Act(r, parent, A.SubmitChild(entry, attempt), now).book;
            && Deliver(e, response, OwnerOf(b, response.orderId)) == e[parent := RespondOne(e[parent], response)]
            && Deliver(e, response, OwnerOf(B.Archive(b, response.orderId), response.orderId))
               == e[parent := RespondOne(e[parent], response)]
  {
    hide A.Act, RespondOne;
    A.ChildIsBooked(r, parent, entry, attempt, now);
  }
}
