/** Conservation of the parent's volume: whatever fills, cancels, rejections and routing failures interleave, what a
    session has traded, has working and may still release add up to its target. */
module ExecutionConservation {
  import opened Integers
  import opened OrderTypes
  import opened Sums
  import opened ExecutionModel

  ghost predicate LedgerOk(l: Ledger) {
    && l.traded <= l.entrust
    && (if l.finalized then l.traded + l.cancelled <= l.entrust else l.cancelled == 0)
  }

  /** The part of the parent's target that a child holds: what it has traded and what it may still trade. */
  ghost function Held(l: Ledger): nat {
    l.traded + Unresolved(l)
  }

  ghost function HeldBy(c: map<OrderId, Ledger>): map<OrderId, nat> {
    map id | id in c :: Held(c[id])
  }

  ghost predicate Balanced(v: ParentView) {
    v.traded + v.working + v.schedulable == v.target
  }

  ghost predicate Conserving(s: Session) {
    && (forall id :: id in s.children ==> LedgerOk(s.children[id]))
    && Sum(HeldBy(s.children)) <= s.target
    && (s.view.Some? ==> Balanced(s.view.value) && s.view.value.target == s.target)
  }

  // ---------- What the invariant means ----------

  /** In a conserving session no volume total saturates, and traded + working + schedulable is the target. */
  lemma ConservingIsBalanced(s: Session)
    requires Conserving(s)
    ensures TradedVolume(s) == Sum(Traded(s.children))
    ensures WorkingVolume(s) == Sum(Open(s.children))
    ensures TradedVolume(s) + WorkingVolume(s) + Schedulable(s) == s.target
    ensures Sum(HeldBy(s.children)) + Schedulable(s) == s.target
    ensures Conserving(Publish(s)) && Conserving(s.(terminal := true))
  {
    SumPointwise(Traded(s.children), Open(s.children), HeldBy(s.children));
  }

  // ---------- Preservation ----------

  lemma ReplaceChild(s: Session, id: OrderId, l: Ledger)
    requires Conserving(s) && id in s.children
    requires LedgerOk(l) && Held(l) <= Held(s.children[id])
    ensures Conserving(s.(children := s.children[id := l]))
  {
    var c := s.children[id := l];
    assert HeldBy(c) == HeldBy(s.children)[id := Held(l)];
    SumUpdate(HeldBy(s.children), id, Held(l));
  }

  /** A fill of any reported size, even one that wraps the ledger's counter, leaves an open child holding its
      entrusted volume. */
  lemma FillKeepsHeld(l: Ledger, r: TradeResponse)
    requires LedgerOk(l) && !l.finalized
    ensures var l' := ApplyFill(l, r).(state := r.newState);
            LedgerOk(l') && !l'.finalized && l'.entrust == l.entrust && Held(l') == l.entrust == Held(l)
  {
  }

  /** A fill moves a child's traded volume backwards exactly when adding it overflows 64 bits. */
  lemma FillNeverGoesBackExactly(l: Ledger, r: TradeResponse)
    requires LedgerOk(l)
    ensures ApplyFill(l, r).traded >= l.traded <==> l.traded + r.volume <= U64_MAX
  {
  }

  lemma EndingReleases(l: Ledger, cancelled: uint64)
    requires LedgerOk(l) && !l.finalized
    ensures LedgerOk(FinishChild(l, cancelled)) && Held(FinishChild(l, cancelled)) == l.traded
    ensures LedgerOk(FailChild(l)) && Held(FailChild(l)) == l.traded
    ensures FinishChild(l, cancelled).entrust == FailChild(l).entrust == l.entrust
    ensures cancelled == 0 ==> l.traded + FinishChild(l, cancelled).cancelled == l.entrust
    ensures l.traded + FailChild(l).cancelled == l.entrust
  {
  }

  /** A response leaves a ledger in order, with its entrusted volume, and holding no more than before. */
  lemma RespondKeepsHeld(l: Ledger, r: TradeResponse)
    requires LedgerOk(l) && !l.finalized
    ensures LedgerOk(Respond(l, r)) && Held(Respond(l, r)) <= Held(l) && Respond(l, r).entrust == l.entrust
  {
    hide ApplyFill, FinishChild, FailChild, Unresolved, WrapAdd;
    FillKeepsHeld(l, r);
    EndingReleases(ApplyFill(l, r).(state := r.newState), r.cancelled);
  }

  lemma ResponseConserves(s: Session, r: TradeResponse)
    requires Conserving(s)
    ensures Conserving(OnTradeResponse(s, r))
  {
    hide Sum, Respond, Held, HeldBy, WorkingVolume;
    if r.orderId in s.children && !s.children[r.orderId].finalized {
      RespondKeepsHeld(s.children[r.orderId], r);
      ReplaceChild(s, r.orderId, Respond(s.children[r.orderId], r));
    }
  }

  lemma MarkingKeepsHeld(c: map<OrderId, Ledger>, cancels: set<OrderId>)
    ensures HeldBy(MarkCancels(c, cancels)) == HeldBy(c) && Open(MarkCancels(c, cancels)) == Open(c)
  {
    hide WrapAdd;
    assert HeldBy(MarkCancels(c, cancels)) == HeldBy(c);
    assert Open(MarkCancels(c, cancels)) == Open(c);
  }

  /** Refreshing marks ledgers as being cancelled and touches no volume. */
  lemma MarkingKeepsVolumes(c: map<OrderId, Ledger>, cancels: set<OrderId>)
    ensures var c' := MarkCancels(c, cancels);
            && c'.Keys == c.Keys
            && HeldBy(c') == HeldBy(c) && Open(c') == Open(c) && Traded(c') == Traded(c)
            && Entrusted(c') == Entrusted(c)
    ensures (forall id :: id in c ==> LedgerOk(c[id])) ==>
              forall id :: id in c ==> LedgerOk(MarkCancels(c, cancels)[id])
  {
    hide HeldBy, Open;
    MarkingKeepsHeld(c, cancels);
  }

  lemma RefreshConserves(s: Session, around: Surroundings)
    requires Conserving(s)
    ensures Conserving(Refresh(s, around))
  {
    hide Sum, Held, HeldBy, LedgerOk, MarkCancels;
    MarkingKeepsVolumes(s.children, around.cancels);
  }

  lemma SubmitConserves(s: Session, volume: uint64, price: uint64, active: bool, route: Option<OrderId>)
    requires Conserving(s) && volume <= Schedulable(s)
    ensures Conserving(SubmitChild(s, volume, price, active, route).session)
  {
    hide Sum, Schedulable, ViewOf;
    ConservingIsBalanced(s);
    ConservingIsBalanced(s.(failed := true, terminal := true));
    if route.Some? && route.value !in s.children {
      AddChild(s.children, route.value, volume, price);
    }
  }

  lemma AddChild(c: map<OrderId, Ledger>, id: OrderId, volume: uint64, price: uint64)
    requires id !in c
    ensures Sum(HeldBy(c[id := NewLedger(volume, price)])) == Sum(HeldBy(c)) + volume
  {
    assert HeldBy(c[id := NewLedger(volume, price)]) == HeldBy(c)[id := volume];
    SumUpdate(HeldBy(c), id, volume);
  }

  /** An active attempt conserves; when it sends nothing, the ledgers are as they were. */
  lemma ActiveAttemptConserves(s: Session, price: uint64, budget: uint64, around: Surroundings)
    requires Conserving(s) && budget <= Schedulable(s)
    ensures var a := ActiveAttempt(s, price, budget, around);
            Conserving(a.session) && (a.sent.None? ==>
                                      a.session.children == s.children && Schedulable(a.session) == Schedulable(s))
    ensures var a := ActiveAttempt(s, price, budget, around);
            a.sent.Some? ==> 0 < a.sent.value.volume <= budget && a.sent.value.active
  {
    if around.market.Some? && s.hasActive && around.decision.volume <= budget {
      var s' := s.(lastActiveSeq := around.market.value.publishSeq);
      SubmitConserves(s', around.decision.volume, price, true, around.activeRoute);
    }
  }

  lemma FinalizeConserves(s: Session)
    requires Conserving(s)
    ensures Conserving(FinalizeIfIdle(s)) && Conserving(PublishUnlessTerminal(s))
    ensures FinalizeIfIdle(s).children == s.children
  {
    ConservingIsBalanced(s);
    ConservingIsBalanced(s.(terminal := true));
  }

  lemma SequentialReleaseConserves(s: Session, budget: uint64, price: uint64, around: Surroundings)
    requires Conserving(s) && budget <= Schedulable(s)
    ensures Conserving(SequentialRelease(s, budget, price, around).session)
  {
    hide Conserving, Schedulable, ActiveAttempt, SubmitChild;
    ActiveAttemptConserves(s, price, budget, around);
    var a := ActiveAttempt(s, price, budget, around);
    if a.sent.None? {
      SubmitConserves(a.session, budget, price, false, around.passiveRoute);
    }
  }

  lemma SequentialTickConserves(s0: Session, clip: uint64, around: Surroundings)
    requires Conserving(s0)
    ensures Conserving(SequentialTick(s0, clip, around).session)
  {
    hide Conserving, WorkingVolume, Schedulable, RemainingTarget, ViewOf, SequentialRelease, Refresh;
    RefreshConserves(s0, around);
    var s := Refresh(s0, around);
    ConservingIsBalanced(s);
    FinalizeConserves(s);
    FinalizeConserves(FinalizeIfIdle(s));
    ConservingIsBalanced(s.(terminal := true));
    var price := SubmitPrice(s, around.market);
    if price.Some? {
      var budget := Min(clip, Schedulable(s));
      SequentialReleaseConserves(s, budget, price.value, around);
      ConservingIsBalanced(SequentialRelease(s, budget, price.value, around).session);
    }
  }

  lemma AdvanceConserves(t: Twap)
    requires Conserving(t.base)
    ensures Conserving(AdvanceSlice(t).base) && AdvanceSlice(t).base.children == t.base.children
  {
  }

  lemma TwapReleaseConserves(t: Twap, now: uint64, price: uint64, around: Surroundings)
    requires Conserving(t.base) && t.index < |t.slices|
    ensures Conserving(TwapRelease(t, now, price, around).twap.base)
  {
    var budget := Min(t.slices[t.index], Schedulable(t.base));
    ActiveAttemptConserves(t.base, price, budget, around);
    var a := ActiveAttempt(t.base, price, budget, around);
    ConservingIsBalanced(t.base);
    ConservingIsBalanced(a.session);
    if a.sent.None? {
      SubmitConserves(a.session, budget, price, false, around.passiveRoute);
    }
  }

  lemma TwapCloseConserves(t: Twap)
    requires Conserving(t.base)
    ensures Conserving(TwapClose(t).base)
  {
    hide Conserving, WorkingVolume, Publish;
    AdvanceConserves(t);
    var u := AdvanceSlice(t);
    ConservingIsBalanced(u.base);
    FinalizeConserves(u.base);
  }

  lemma TwapServeConserves(t: Twap, now: uint64, around: Surroundings)
    requires Conserving(t.base) && t.index < |t.slices|
    ensures Conserving(TwapServe(t, now, around).twap.base)
  {
    hide Conserving, TwapRelease, TwapClose, Publish, Schedulable;
    ConservingIsBalanced(t.base);
    TwapCloseConserves(t);
    var price := SubmitPrice(t.base, around.market);
    if price.Some? {
      TwapReleaseConserves(t, now, price.value, around);
      TwapCloseConserves(TwapRelease(t, now, price.value, around).twap);
    }
  }

  lemma TwapTickConserves(t0: Twap, now: uint64, around: Surroundings)
    requires Conserving(t0.base)
    ensures Conserving(TwapTick(t0, now, around).twap.base)
  {
    hide Conserving, WorkingVolume, Publish, FinalizeIfIdle, TwapServe, Refresh, AdvanceSlice;
    RefreshConserves(t0.base, around);
    var t1 := t0.(base := Refresh(t0.base, around));
    ConservingIsBalanced(t1.base);
    ConservingIsBalanced(t1.base.(terminal := true));
    AdvanceConserves(t1);
    var t := AdvanceSlice(t1);
    ConservingIsBalanced(t.base);
    ConservingIsBalanced(t.base.(terminal := true));
    FinalizeConserves(t.base);
    FinalizeConserves(FinalizeIfIdle(t.base));
    if t.index < |t.slices| {
      TwapServeConserves(t, now, around);
    }
  }

  // ---------- Whole runs ----------

  datatype Event = Tick(now: uint64, around: Surroundings) | Response(response: TradeResponse)

  ghost function SequentialStep(s: Session, clip: uint64, e: Event): (s': Session)
    ensures SameOrder(s, s')
  {
    match e
    case Tick(_, around) => SequentialTick(s, clip, around).session
    case Response(r) => OnTradeResponse(s, r)
  }

  ghost function TwapStep(t: Twap, e: Event): (t': Twap)
    ensures SamePlan(t, t')
  {
    match e
    case Tick(now, around) => TwapTick(t, now, around).twap
    case Response(r) => TwapOnTradeResponse(t, r)
  }

  ghost function RunSequential(s: Session, clip: uint64, events: seq<Event>): Session
    decreases |events|
  {
    if events == [] then s else RunSequential(SequentialStep(s, clip, events[0]), clip, events[1..])
  }

  ghost function RunTwap(t: Twap, events: seq<Event>): Twap
    decreases |events|
  {
    if events == [] then t else RunTwap(TwapStep(t, events[0]), events[1..])
  }

  lemma {:induction false} SequentialRunConserves(s: Session, clip: uint64, events: seq<Event>)
    requires Conserving(s)
    ensures Conserving(RunSequential(s, clip, events))
    decreases |events|
  {
    hide Conserving, SequentialTick, OnTradeResponse;
    if events != [] {
      match events[0] {
        case Tick(_, around) => SequentialTickConserves(s, clip, around);
        case Response(r) => ResponseConserves(s, r);
      }
      SequentialRunConserves(SequentialStep(s, clip, events[0]), clip, events[1..]);
    }
  }

  lemma {:induction false} TwapRunConserves(t: Twap, events: seq<Event>)
    requires Conserving(t.base)
    ensures Conserving(RunTwap(t, events).base)
    decreases |events|
  {
    hide Conserving, TwapTick, OnTradeResponse;
    if events != [] {
      match events[0] {
        case Tick(now, around) => TwapTickConserves(t, now, around);
        case Response(r) =>
          ResponseConserves(t.base, r);
          AdvanceConserves(t.(base := OnTradeResponse(t.base, r)));
      }
      TwapRunConserves(TwapStep(t, events[0]), events[1..]);
    }
  }

  lemma StartConserves(target: uint64, orderPrice: uint64, allowFallback: bool, hasActive: bool)
    ensures Conserving(Start(target, orderPrice, allowFallback, hasActive))
  {
    assert HeldBy(map[]) == map[];
  }

  ghost predicate ExactlyBalanced(s: Session, target: uint64) {
    && s.target == target
    && TradedVolume(s) == Sum(Traded(s.children)) && WorkingVolume(s) == Sum(Open(s.children))
    && TradedVolume(s) + WorkingVolume(s) + Schedulable(s) == target
    && (s.view.Some? ==> Balanced(s.view.value) && s.view.value.target == target)
  }

  lemma {:induction false} TargetIsFixed(s: Session, t: Twap, clip: uint64, events: seq<Event>)
    ensures SameOrder(s, RunSequential(s, clip, events))
    ensures SamePlan(t, RunTwap(t, events))
    decreases |events|
  {
    hide SequentialStep, TwapStep;
    if events != [] {
      TargetIsFixed(SequentialStep(s, clip, events[0]), TwapStep(t, events[0]), clip, events[1..]);
    }
  }

  /** Main result: in every state that any FixedSize, Iceberg or TWAP session can reach, and in every view it
      publishes, traded + working + schedulable is exactly the parent's target, with no total saturated. */
  lemma EveryReachableSessionIsBalanced(
    target: uint64, orderPrice: uint64, allowFallback: bool, hasActive: bool, clip: uint64,
    slices: seq<uint64>, startNs: uint64, intervalNs: uint64, events: seq<Event>)
    ensures var s := Start(target, orderPrice, allowFallback, hasActive);
            && ExactlyBalanced(RunSequential(s, clip, events), target)
            && ExactlyBalanced(RunTwap(StartTwap(s, slices, startNs, intervalNs), events).base, target)
  {
    var s := Start(target, orderPrice, allowFallback, hasActive);
    var t := StartTwap(s, slices, startNs, intervalNs);
    StartConserves(target, orderPrice, allowFallback, hasActive);
    SequentialRunConserves(s, clip, events);
    TwapRunConserves(t, events);
    TargetIsFixed(s, t, clip, events);
    ConservingIsBalanced(RunSequential(s, clip, events));
    ConservingIsBalanced(RunTwap(t, events).base);
  }
}
