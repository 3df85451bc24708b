/** Execution sessions as values: what each callback of a session does to its ledgers and its published view
    (src/execution/execution_engine.cpp). The classes of module ExecutionSessions are proved against these functions. */
module ExecutionModel {
  import opened Integers
  import opened OrderTypes
  import opened Sums

  datatype Ledger = Ledger(
    entrust: uint64, price: uint64,
    traded: uint64, value: uint64, fee: uint64,
    cancelled: uint64, finalized: bool, cancelRequested: bool, state: OrderState)

  datatype ExecutionState = Running | Cancelling | Finished | Failed

  /** The mirror of the parent order that monitors read. */
  datatype ParentView = ParentView(
    executionState: ExecutionState,
    target: uint64, working: uint64, schedulable: uint64, traded: uint64, value: uint64, fee: uint64)

  datatype Session = Session(
    target: uint64, orderPrice: uint64, allowFallback: bool, hasActive: bool,
    children: map<OrderId, Ledger>,
    cancelRequested: bool, failed: bool, terminal: bool,
    lastActiveSeq: uint64,
    view: Option<ParentView>)

  datatype TradeResponse = TradeResponse(
    orderId: OrderId, newState: OrderState, volume: uint64, cancelled: uint64, value: uint64, fee: uint64)

  /** A market data read: its prediction sequence number and freshness, and the price its book offers, if any. */
  datatype MarketView = MarketView(publishSeq: uint64, isFresh: bool, price: Option<uint64>)

  datatype ActiveDecision = ActiveDecision(shouldSubmit: bool, volume: uint64)

  /** Everything a tick learns from its surroundings: the parent's presence in the book, the orders its booked cancels
      aim at, the market, the active strategy's answer, and the ids the router gives to an active and to a passive
      submission (None where routing fails). */
  datatype Surroundings = Surroundings(
    parentBooked: bool, cancels: set<OrderId>,
    market: Option<MarketView>, decision: ActiveDecision,
    activeRoute: Option<OrderId>, passiveRoute: Option<OrderId>)

  /** A child order the router accepted. */
  datatype Submission = Submission(id: OrderId, volume: uint64, price: uint64, active: bool)

  datatype TickResult = TickResult(session: Session, sent: Option<Submission>)

  /** Two states of one session: what the session was created with does not change. */
  predicate SameOrder(s: Session, s': Session) {
    && s'.target == s.target && s'.orderPrice == s.orderPrice
    && s'.allowFallback == s.allowFallback && s'.hasActive == s.hasActive
  }

  // ---------- Ledger arithmetic ----------

  function Unresolved(l: Ledger): uint64 {
    var known := WrapAdd(l.traded, l.cancelled);
    if l.finalized || known >= l.entrust then 0 else l.entrust - known
  }

  function NewLedger(volume: uint64, price: uint64): Ledger {
    Ledger(volume, price, 0, 0, 0, 0, false, false, TraderSubmitted)
  }

  function ApplyFill(l: Ledger, r: TradeResponse): Ledger {
    if r.volume > 0 then
      l.(traded := Min(l.entrust, WrapAdd(l.traded, r.volume)),
         value := SaturatingAdd(l.value, r.value),
         fee := SaturatingAdd(l.fee, r.fee))
    else l
  }

  function FinishChild(l: Ledger, cancelled: uint64): Ledger {
    var final :=
      if cancelled > 0 then Min(cancelled, if l.traded >= l.entrust then 0 else l.entrust - l.traded)
      else Unresolved(l);
    l.(cancelled := final, finalized := true)
  }

  function FailChild(l: Ledger): Ledger {
    l.(cancelled := Unresolved(l), finalized := true)
  }

  // ---------- Derived volumes ----------

  function Traded(c: map<OrderId, Ledger>): map<OrderId, uint64> { map id | id in c :: c[id].traded }
  function Values(c: map<OrderId, Ledger>): map<OrderId, uint64> { map id | id in c :: c[id].value }
  function Fees(c: map<OrderId, Ledger>): map<OrderId, uint64> { map id | id in c :: c[id].fee }
  function Open(c: map<OrderId, Ledger>): map<OrderId, uint64> { map id | id in c :: Unresolved(c[id]) }
  function Entrusted(c: map<OrderId, Ledger>): map<OrderId, uint64> { map id | id in c :: c[id].entrust }

  ghost function TradedVolume(s: Session): uint64 { Cap(Sum(Traded(s.children))) }
  ghost function WorkingVolume(s: Session): uint64 { Cap(Sum(Open(s.children))) }

  ghost function RemainingTarget(s: Session): uint64 {
    if TradedVolume(s) >= s.target then 0 else s.target - TradedVolume(s)
  }

  ghost function Schedulable(s: Session): uint64 {
    if WorkingVolume(s) >= RemainingTarget(s) then 0 else RemainingTarget(s) - WorkingVolume(s)
  }

  function StateOf(s: Session): ExecutionState {
    if s.failed then Failed
    else if s.terminal then ExecutionState.Finished
    else if s.cancelRequested then Cancelling
    else Running
  }

  ghost function ViewOf(s: Session): ParentView {
    ParentView(StateOf(s), s.target, WorkingVolume(s), Schedulable(s), TradedVolume(s),
               Cap(Sum(Values(s.children))), Cap(Sum(Fees(s.children))))
  }

  ghost function Publish(s: Session): (s': Session)
    ensures SameOrder(s, s') && s'.children == s.children
    ensures s'.cancelRequested == s.cancelRequested && s'.failed == s.failed && s'.terminal == s.terminal
  {
    s.(view := Some(ViewOf(s)))
  }

  // ---------- Callbacks ----------

  function Start(target: uint64, orderPrice: uint64, allowFallback: bool, hasActive: bool): Session {
    Session(target, orderPrice, allowFallback, hasActive, map[], false, false, false, 0, None)
  }

  /** Whether a response ends a child that is still open in the ledger. */
  predicate Finalizes(s: Session, r: TradeResponse) {
    && r.orderId in s.children
    && !s.children[r.orderId].finalized
    && (r.newState == OrderState.Finished || IsFailure(r.newState))
  }

  /** A ledger after a response to its open child. */
  function Respond(l0: Ledger, r: TradeResponse): Ledger {
    var l := ApplyFill(l0, r).(state := r.newState);
    if r.newState == OrderState.Finished then FinishChild(l, r.cancelled)
    else if IsFailure(r.newState) then FailChild(l)
    else l
  }

  ghost function OnTradeResponse(s: Session, r: TradeResponse): (s': Session)
    ensures SameOrder(s, s')
  {
    if r.orderId !in s.children || s.children[r.orderId].finalized then s
    else
      var s' := s.(children := s.children[r.orderId := Respond(s.children[r.orderId], r)],
                   failed := s.failed || IsFailure(r.newState));
      if r.newState == OrderState.Finished && s'.cancelRequested && WorkingVolume(s') == 0 then s'.(lastActiveSeq := 0)
      else s'
  }

  function MarkCancels(c: map<OrderId, Ledger>, cancels: set<OrderId>): map<OrderId, Ledger> {
    map id | id in c :: c[id].(cancelRequested := c[id].cancelRequested || id in cancels)
  }

  function Refresh(s: Session, around: Surroundings): (s': Session)
    ensures SameOrder(s, s')
  {
    if !around.parentBooked then s.(failed := true, terminal := true)
    else
      s.(cancelRequested := around.cancels != {},
         children := MarkCancels(s.children, around.cancels))
  }

  /** The price a child is sent at: the market's, or the parent's own price where falling back is allowed. */
  function SubmitPrice(s: Session, market: Option<MarketView>): Option<uint64> {
    if market.Some? && market.value.price.Some? && market.value.price.value != 0 then market.value.price
    else if s.allowFallback && s.orderPrice != 0 then Some(s.orderPrice)
    else None
  }

  ghost function SubmitChild(s: Session, volume: uint64, price: uint64, active: bool,
                             route: Option<OrderId>): (r: TickResult)
    ensures SameOrder(s, r.session)
  {
    if volume == 0 || price == 0 then TickResult(s, None)
    else if route.None? then TickResult(Publish(s.(failed := true, terminal := true)), None)
    else
      var id := route.value;
      var children := if id in s.children then s.children else s.children[id := NewLedger(volume, price)];
      TickResult(s.(children := children), Some(Submission(id, volume, price, active)))
  }

  ghost function TryActiveSubmit(s: Session, view: MarketView, price: uint64, budget: uint64,
                                 around: Surroundings): (r: TickResult)
    ensures SameOrder(s, r.session)
  {
    if !s.hasActive || budget == 0 || !view.isFresh || view.publishSeq == s.lastActiveSeq then TickResult(s, None)
    else
      var s' := s.(lastActiveSeq := view.publishSeq);
      var d := around.decision;
      if !d.shouldSubmit || d.volume == 0 || d.volume > budget then TickResult(s', None)
      else SubmitChild(s', d.volume, price, true, around.activeRoute)
  }

  ghost function ActiveAttempt(s: Session, price: uint64, budget: uint64, around: Surroundings): (r: TickResult)
    ensures SameOrder(s, r.session)
  {
    if around.market.Some? then TryActiveSubmit(s, around.market.value, price, budget, around) else TickResult(s, None)
  }

  ghost function FinalizeIfIdle(s: Session): (s': Session)
    ensures SameOrder(s, s')
  {
    if s.failed
       || (s.cancelRequested && WorkingVolume(s) == 0)
       || (RemainingTarget(s) == 0 && WorkingVolume(s) == 0)
    then Publish(s.(terminal := true))
    else s
  }

  ghost function PublishUnlessTerminal(s: Session): (s': Session)
    ensures SameOrder(s, s')
  {
    if s.terminal then s else Publish(s)
  }

  // ---------- FixedSize and Iceberg ----------

  /** The submission part of a tick: the active strategy first, else the whole budget passively. */
  ghost function SequentialRelease(s: Session, budget: uint64, price: uint64, around: Surroundings): (r: TickResult)
    ensures SameOrder(s, r.session)
  {
    var a := ActiveAttempt(s, price, budget, around);
    if a.sent.Some? then a else SubmitChild(a.session, budget, price, false, around.passiveRoute)
  }

  ghost function SequentialTick(s0: Session, clip: uint64, around: Surroundings): (r: TickResult)
    ensures SameOrder(s0, r.session)
  {
    var s := Refresh(s0, around);
    if !around.parentBooked then TickResult(s, None)
    else if s.failed then TickResult(Publish(s.(terminal := true)), None)
    else if WorkingVolume(s) > 0 then TickResult(Publish(s), None)
    else if s.cancelRequested then TickResult(Publish(s.(terminal := true)), None)
    else
      var budget := Min(clip, Schedulable(s));
      var price := SubmitPrice(s, around.market);
      if budget == 0 then TickResult(PublishUnlessTerminal(FinalizeIfIdle(s)), None)
      else if price.None? then TickResult(Publish(s), None)
      else
        var r := SequentialRelease(s, budget, price.value, around);
        r.(session := Publish(r.session))
  }

  // ---------- TWAP ----------

  datatype Twap = Twap(
    base: Session, slices: seq<uint64>, startNs: uint64, intervalNs: uint64,
    deadlineNs: uint64, index: nat, consumed: bool)

  datatype TwapTickResult = TwapTickResult(twap: Twap, sent: Option<Submission>)

  predicate SamePlan(t: Twap, t': Twap) {
    SameOrder(t.base, t'.base) && t'.slices == t.slices && t'.startNs == t.startNs && t'.intervalNs == t.intervalNs
  }

  function Deadline(startNs: uint64, intervalNs: uint64, index: nat): uint64 {
    WrapAdd(startNs, (index * intervalNs) % (U64_MAX + 1))
  }

  function StartTwap(base: Session, slices: seq<uint64>, startNs: uint64, intervalNs: uint64): Twap {
    Twap(base, slices, startNs, intervalNs, startNs, 0, false)
  }

  ghost function AdvanceSlice(t: Twap): (t': Twap)
    ensures SamePlan(t, t')
  {
    if !t.consumed || WorkingVolume(t.base) > 0 then t
    else
      var index := if t.index < |t.slices| then t.index + 1 else t.index;
      t.(index := index, consumed := false, base := t.base.(lastActiveSeq := 0),
         deadlineNs := Deadline(t.startNs, t.intervalNs, index))
  }

  ghost function TwapOnTradeResponse(t: Twap, r: TradeResponse): (t': Twap)
    ensures SamePlan(t, t')
  {
    var t' := t.(base := OnTradeResponse(t.base, r));
    if Finalizes(t.base, r) then AdvanceSlice(t') else t'
  }

  /** The submission part of a tick: the active strategy first, the passive slice once its deadline has come. */
  ghost function TwapRelease(t: Twap, now: uint64, price: uint64, around: Surroundings): (r: TwapTickResult)
    requires t.index < |t.slices|
    ensures SamePlan(t, r.twap)
  {
    var budget := Min(t.slices[t.index], Schedulable(t.base));
    var a := if t.consumed then TickResult(t.base, None) else ActiveAttempt(t.base, price, budget, around);
    var consumed := t.consumed || a.sent.Some?;
    if consumed || now < t.deadlineNs then TwapTickResult(t.(base := a.session, consumed := consumed), a.sent)
    else
      var b := SubmitChild(a.session, budget, price, false, around.passiveRoute);
      TwapTickResult(t.(base := b.session, consumed := b.sent.Some?), b.sent)
  }

  /** The end of a tick: step on to the next slice if this one is done, and publish unless the session has ended. */
  ghost function TwapClose(t0: Twap): (t': Twap)
    ensures SamePlan(t0, t')
  {
    var t := AdvanceSlice(t0);
    var s := if t.index >= |t.slices| && WorkingVolume(t.base) == 0 then t.base.(terminal := true) else t.base;
    t.(base := PublishUnlessTerminal(s))
  }

  /** The body of a tick with a slice left to serve. */
  ghost function TwapServe(t: Twap, now: uint64, around: Surroundings): (r: TwapTickResult)
    requires t.index < |t.slices|
    ensures SamePlan(t, r.twap)
  {
    if Min(t.slices[t.index], Schedulable(t.base)) == 0 then TwapTickResult(TwapClose(t), None)
    else
      var price := SubmitPrice(t.base, around.market);
      if price.None? then TwapTickResult(t.(base := Publish(t.base)), None)
      else
        var r := TwapRelease(t, now, price.value, around);
        TwapTickResult(TwapClose(r.twap), r.sent)
  }

  ghost function TwapTick(t0: Twap, now: uint64, around: Surroundings): (r: TwapTickResult)
    ensures SamePlan(t0, r.twap)
  {
    var t1 := t0.(base := Refresh(t0.base, around));
    if !around.parentBooked then TwapTickResult(t1, None)
    else if t1.base.failed then TwapTickResult(t1.(base := Publish(t1.base.(terminal := true))), None)
    else
      var t := AdvanceSlice(t1);
      if t.index >= |t.slices| then
        var s := if WorkingVolume(t.base) == 0 then t.base.(terminal := true) else t.base;
        TwapTickResult(t.(base := Publish(s)), None)
      else if t.base.cancelRequested then
        TwapTickResult(t.(base := PublishUnlessTerminal(FinalizeIfIdle(t.base))), None)
      else TwapServe(t, now, around)
  }
}
