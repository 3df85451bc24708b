/** How sessions release children: one at a time for FixedSize and Iceberg, one slice after the other for TWAP. */
module ExecutionPacing {
  import opened Integers
  import opened OrderTypes
  import opened Sums
  import opened TwapPlan
  import opened ExecutionModel
  import opened ExecutionConservation

  // ---------- Reopening ----------

  /** A child that is fully traded but not yet reported finished is opened again by a fill that overflows
      its counter. */
  ghost predicate Reopens(s: Session, r: TradeResponse) {
    && r.orderId in s.children
    && !s.children[r.orderId].finalized
    && Unresolved(s.children[r.orderId]) == 0
    && s.children[r.orderId].traded + r.volume > U64_MAX
    && !Finalizes(s, r)
  }

  lemma RespondOpensByOverflow(l: Ledger, r: TradeResponse)
    requires LedgerOk(l) && !l.finalized && Unresolved(l) == 0
    ensures Unresolved(Respond(l, r)) > 0
            <==> l.traded + r.volume > U64_MAX && r.newState != OrderState.Finished && !IsFailure(r.newState)
  {
  }

  /** The only child whose open volume a response changes is the one it names, and it opens a child that had nothing
      left to trade exactly when its fill overflows. */
  lemma ResponseOpensByOverflow(s: Session, r: TradeResponse)
    requires Conserving(s)
    ensures var c, c' := Open(s.children), Open(OnTradeResponse(s, r).children);
            && c'.Keys == c.Keys
            && (forall id :: id in c && id != r.orderId ==> c'[id] == c[id])
            && (r.orderId in c && c[r.orderId] == 0 ==> (c'[r.orderId] > 0 <==> Reopens(s, r)))
  {
    hide Respond, WorkingVolume, Sum, Unresolved, HeldBy;
    if r.orderId in s.children && !s.children[r.orderId].finalized && Unresolved(s.children[r.orderId]) == 0 {
      RespondOpensByOverflow(s.children[r.orderId], r);
    }
  }

  // ---------- FixedSize and Iceberg ----------

  ghost predicate AtMostOneOpen(open: map<OrderId, uint64>) {
    forall a, b :: a in open && b in open && open[a] > 0 && open[b] > 0 ==> a == b
  }

  /** At most one child of the session has volume left to trade. */
  ghost predicate OneWorking(s: Session) {
    AtMostOneOpen(Open(s.children))
  }

  lemma IdleIsAllClosed(s: Session)
    ensures WorkingVolume(s) == 0 <==> forall id :: id in Open(s.children) ==> Open(s.children)[id] == 0
  {
    hide Sum;
    SumZero(Open(s.children));
  }

  /** A response leaves at most one child working, unless it reopens a traded child while another one works. */
  lemma ResponseKeepsOneWorkingExactly(s: Session, r: TradeResponse)
    requires Conserving(s) && OneWorking(s)
    ensures OneWorking(OnTradeResponse(s, r)) <==> !(Reopens(s, r) && WorkingVolume(s) > 0)
  {
    ResponseOpensByOverflow(s, r);
    IdleIsAllClosed(s);
    assert Reopens(s, r) ==> r.orderId in Open(s.children) && Open(s.children)[r.orderId] == 0;
    hide OnTradeResponse, WorkingVolume, Conserving, Open, Reopens;
    var c, c' := Open(s.children), Open(OnTradeResponse(s, r).children);
    if Reopens(s, r) && WorkingVolume(s) > 0 {
      var other :| other in c && c[other] != 0;
      assert c'[other] > 0 && c'[r.orderId] > 0;
    }
  }

  lemma SubmitKeepsOneWorking(s: Session, volume: uint64, price: uint64, active: bool, route: Option<OrderId>)
    requires WorkingVolume(s) == 0
    ensures OneWorking(SubmitChild(s, volume, price, active, route).session)
  {
    IdleIsAllClosed(s);
    hide WorkingVolume, ViewOf, WrapAdd;
    if route.Some? {
      var c := s.children[route.value := NewLedger(volume, price)];
      assert forall id :: id in Open(c) && id != route.value ==> Open(c)[id] == Open(s.children)[id];
    }
  }

  lemma ActiveAttemptKeepsOneWorking(s: Session, price: uint64, budget: uint64, around: Surroundings)
    requires WorkingVolume(s) == 0
    ensures var a := ActiveAttempt(s, price, budget, around);
            OneWorking(a.session) && (a.sent.None? ==> WorkingVolume(a.session) == 0)
  {
    IdleIsAllClosed(s);
    if around.market.Some? {
      var s' := s.(lastActiveSeq := around.market.value.publishSeq);
      SubmitKeepsOneWorking(s', around.decision.volume, price, true, around.activeRoute);
    }
    hide ViewOf, Sum, Unresolved;
  }

  lemma OneWorkingIgnoresRest(s: Session)
    ensures OneWorking(Publish(s)) == OneWorking(s)
    ensures OneWorking(Publish(s.(terminal := true))) == OneWorking(s)
    ensures OneWorking(PublishUnlessTerminal(FinalizeIfIdle(s))) == OneWorking(s)
  {
    hide AtMostOneOpen, Open, ViewOf, WorkingVolume, RemainingTarget;
  }

  /** A tick never puts a second child to work, whatever the router and the active strategy answer. */
  lemma SequentialTickKeepsOneWorking(s0: Session, clip: uint64, around: Surroundings)
    requires OneWorking(s0)
    ensures OneWorking(SequentialTick(s0, clip, around).session)
  {
    hide AtMostOneOpen, Open, WorkingVolume, Schedulable, SubmitChild, ActiveAttempt, SubmitPrice, ViewOf, MarkCancels,
      Publish, FinalizeIfIdle, PublishUnlessTerminal;
    MarkingKeepsVolumes(s0.children, around.cancels);
    var s := Refresh(s0, around);
    OneWorkingIgnoresRest(s);
    var budget := Min(clip, Schedulable(s));
    var price := SubmitPrice(s, around.market);
    if WorkingVolume(s) == 0 && price.Some? {
      ActiveAttemptKeepsOneWorking(s, price.value, budget, around);
      var a := ActiveAttempt(s, price.value, budget, around);
      if a.sent.None? {
        SubmitKeepsOneWorking(a.session, budget, price.value, false, around.passiveRoute);
      }
      OneWorkingIgnoresRest(SequentialRelease(s, budget, price.value, around).session);
    }
  }

  /** A response that reopens a traded child while another one works. */
  ghost predicate OpensSecond(s: Session, e: Event) {
    e.Response? && Reopens(s, e.response) && WorkingVolume(s) > 0
  }

  ghost predicate NeverOpensSecond(s: Session, clip: uint64, events: seq<Event>)
    decreases |events|
  {
    events == [] || (!OpensSecond(s, events[0])
                     && NeverOpensSecond(SequentialStep(s, clip, events[0]), clip, events[1..]))
  }

  ghost predicate AlwaysOneWorking(s: Session, clip: uint64, events: seq<Event>)
    decreases |events|
  {
    OneWorking(s) && (events != [] ==> AlwaysOneWorking(SequentialStep(s, clip, events[0]), clip, events[1..]))
  }

  lemma StepKeepsOneWorkingExactly(s: Session, clip: uint64, e: Event)
    requires Conserving(s) && OneWorking(s)
    ensures Conserving(SequentialStep(s, clip, e))
    ensures OneWorking(SequentialStep(s, clip, e)) <==> !OpensSecond(s, e)
  {
    hide Conserving, OneWorking, SequentialTick, OnTradeResponse, Reopens, WorkingVolume;
    match e
    case Tick(_, around) =>
      SequentialTickConserves(s, clip, around);
      SequentialTickKeepsOneWorking(s, clip, around);
    case Response(r) =>
      ResponseConserves(s, r);
      ResponseKeepsOneWorkingExactly(s, r);
  }

  lemma {:induction false} SequentialRunKeepsOneWorking(s: Session, clip: uint64, events: seq<Event>)
    requires Conserving(s) && OneWorking(s)
    ensures AlwaysOneWorking(s, clip, events) <==> NeverOpensSecond(s, clip, events)
    decreases |events|
  {
    hide Conserving, OneWorking, SequentialStep, OpensSecond;
    if events != [] {
      StepKeepsOneWorkingExactly(s, clip, events[0]);
      if OpensSecond(s, events[0]) {
        TwoWorkingNow(SequentialStep(s, clip, events[0]), clip, events[1..]);
      } else {
        SequentialRunKeepsOneWorking(SequentialStep(s, clip, events[0]), clip, events[1..]);
      }
    }
  }

  lemma TwoWorkingNow(s: Session, clip: uint64, events: seq<Event>)
    requires !OneWorking(s)
    ensures !AlwaysOneWorking(s, clip, events)
  {
    hide OneWorking;
  }

  /** Main result for FixedSize and Iceberg: from its start a session never has two children working at once, exactly as
      long as no response reopens a traded child while another one works. */
  lemma OneChildAtATime(
    target: uint64, orderPrice: uint64, allowFallback: bool, hasActive: bool, clip: uint64, events: seq<Event>)
    ensures var s := Start(target, orderPrice, allowFallback, hasActive);
            AlwaysOneWorking(s, clip, events) <==> NeverOpensSecond(s, clip, events)
  {
    StartConserves(target, orderPrice, allowFallback, hasActive);
    SequentialRunKeepsOneWorking(Start(target, orderPrice, allowFallback, hasActive), clip, events);
  }

  /** Main result for FixedSize and Iceberg: an idle, priced and routable tick makes progress. It sends between
      one unit and a full clip, never more than is still missing and exactly that much when passive, or it finds
      nothing missing. */
  lemma SequentialTickMakesProgress(s0: Session, clip: uint64, around: Surroundings)
    requires Conserving(s0) && clip > 0
    requires around.parentBooked && around.cancels == {} && !s0.failed && WorkingVolume(s0) == 0
    requires around.passiveRoute.Some?
    requires (around.market.Some? && around.market.value.price.Some? && around.market.value.price.value > 0)
             || (s0.allowFallback && s0.orderPrice > 0)
    ensures var r := SequentialTick(s0, clip, around);
            var most := Min(clip, RemainingTarget(s0));
            if r.sent.Some? then
              0 < r.sent.value.volume <= most && (!r.sent.value.active ==> r.sent.value.volume == most)
            else r.session.terminal && TradedVolume(s0) == s0.target
  {
    hide Sum, TradedVolume, WorkingVolume, Schedulable, SequentialRelease, SubmitPrice, MarkCancels, Conserving,
      Publish;
    RefreshedVolumes(s0, around);
    var s := Refresh(s0, around);
    var price := SubmitPrice(s, around.market);
    var budget := Min(clip, Schedulable(s));
    SubmitPriceIsPriced(s, around.market);
    if budget > 0 {
      RoutableReleaseSends(s, budget, price.value, around);
    }
  }

  lemma RoutableReleaseSends(s: Session, budget: uint64, price: uint64, around: Surroundings)
    requires Conserving(s) && 0 < budget <= Schedulable(s) && price > 0 && around.passiveRoute.Some?
    ensures var r := SequentialRelease(s, budget, price, around);
            r.sent.Some? && 0 < r.sent.value.volume <= budget
              && (!r.sent.value.active ==> r.sent.value.volume == budget)
  {
    hide ActiveAttempt, SubmitChild, Conserving, Schedulable;
    ActiveAttemptConserves(s, price, budget, around);
    RoutableSubmitSends(ActiveAttempt(s, price, budget, around).session, budget, price, around.passiveRoute);
  }

  lemma RoutableSubmitSends(s: Session, volume: uint64, price: uint64, route: Option<OrderId>)
    requires price > 0 && route.Some?
    ensures SubmitChild(s, volume, price, false, route).sent
            == if volume > 0 then Some(Submission(route.value, volume, price, false)) else None
  {
    hide Publish;
  }

  /** A child is priced at the market's valid price where there is one; elsewhere only if falling back is allowed, and
      then at the parent's own price, which is not zero. */
  predicate Priced(s: Session, market: Option<MarketView>, price: uint64) {
    if market.Some? && market.value.price.Some? && market.value.price.value > 0 then price == market.value.price.value
    else s.allowFallback && s.orderPrice > 0 && price == s.orderPrice
  }

  lemma SubmitPriceIsPriced(s: Session, market: Option<MarketView>)
    ensures var p := SubmitPrice(s, market);
            && (p.Some? <==> (market.Some? && market.value.price.Some? && market.value.price.value > 0)
                             || (s.allowFallback && s.orderPrice > 0))
            && (p.Some? ==> p.value > 0 && Priced(s, market, p.value))
  {
  }

  lemma RefreshedVolumes(s0: Session, around: Surroundings)
    requires Conserving(s0)
    ensures var s := Refresh(s0, around);
            && Conserving(s) && SubmitPrice(s, around.market) == SubmitPrice(s0, around.market)
            && TradedVolume(s) == TradedVolume(s0) && WorkingVolume(s) == WorkingVolume(s0)
            && TradedVolume(s) + WorkingVolume(s) + Schedulable(s) == s0.target
            && Entrusted(s.children) == Entrusted(s0.children) && s.children.Keys == s0.children.Keys
  {
    RefreshConserves(s0, around);
    MarkingKeepsVolumes(s0.children, around.cancels);
    ConservingIsBalanced(Refresh(s0, around));
    hide Conserving, Sum, Schedulable, MarkCancels, Unresolved;
  }

  /** Whether a tick finds its session stopped: the parent gone, the session failed before, or a cancel booked. */
  predicate Stopped(s: Session, around: Surroundings) {
    !around.parentBooked || s.failed || around.cancels != {}
  }

  /** A stopped session sends nothing more, and it ends with this tick unless it waits for a working child to come back
      after a cancel. */
  lemma StoppedSequentialSendsNothing(s0: Session, clip: uint64, around: Surroundings)
    requires Conserving(s0) && Stopped(s0, around)
    ensures var r := SequentialTick(s0, clip, around);
            r.sent.None? && (!around.parentBooked || s0.failed || WorkingVolume(s0) == 0 ==> r.session.terminal)
  {
    hide Conserving, WorkingVolume, Schedulable, SequentialRelease, MarkCancels, ViewOf;
    RefreshedVolumes(s0, around);
  }

  lemma StoppedTwapSendsNothing(t0: Twap, now: uint64, around: Surroundings)
    requires Conserving(t0.base) && Stopped(t0.base, around)
    ensures var r := TwapTick(t0, now, around);
            r.sent.None? && (!around.parentBooked || t0.base.failed || WorkingVolume(t0.base) == 0 ==>
                             r.twap.base.terminal)
  {
    hide Conserving, WorkingVolume, Schedulable, TwapServe, MarkCancels, ViewOf;
    RefreshedVolumes(t0.base, around);
    AdvanceKeepsVolumes(t0.(base := Refresh(t0.base, around)));
    hide AdvanceSlice;
  }

  /** A FixedSize or Iceberg session that a tick ends, neither failed nor cancelled, has traded its whole target. */
  lemma FinishedMeansFilled(s0: Session, clip: uint64, around: Surroundings)
    requires Conserving(s0) && clip > 0 && !s0.terminal && around.cancels == {}
    requires var s := SequentialTick(s0, clip, around).session; s.terminal && !s.failed
    ensures TradedVolume(s0) == s0.target && WorkingVolume(s0) == 0
  {
    hide Sum, TradedVolume, WorkingVolume, ActiveAttempt, SubmitChild, MarkCancels, SubmitPrice, Conserving, ViewOf;
    RefreshedVolumes(s0, around);
    var s := Refresh(s0, around);
    var price := SubmitPrice(s, around.market);
    if price.Some? {
      SendingNeverEnds(s, price.value, Min(clip, Schedulable(s)), around);
    }
  }

  /** Sending ends a session only by failing it. */
  lemma SendingNeverEnds(s: Session, price: uint64, budget: uint64, around: Surroundings)
    requires !s.terminal
    ensures var a := ActiveAttempt(s, price, budget, around);
            (a.session.terminal ==> a.session.failed)
            && (var b := SubmitChild(a.session, budget, price, false, around.passiveRoute);
                b.session.terminal ==> b.session.failed)
  {
    hide ViewOf;
  }

  /** Whether a tick with this budget hands a child of the active strategy to the router. */
  predicate AttemptsActive(s: Session, budget: uint64, around: Surroundings) {
    && s.hasActive && around.market.Some? && around.market.value.isFresh
    && around.market.value.publishSeq != s.lastActiveSeq
    && around.decision.shouldSubmit && 0 < around.decision.volume <= budget
  }

  /** A session that has just failed still sends a child in one case only: the active child was refused by the router
      and the passive one, tried right after it, was accepted. */
  lemma FailedSessionSendsExactly(s: Session, budget: uint64, price: uint64, around: Surroundings)
    requires !s.failed && budget > 0 && price > 0
    ensures var r := SequentialRelease(s, budget, price, around);
            r.session.failed && r.sent.Some?
            <==> AttemptsActive(s, budget, around) && around.activeRoute.None? && around.passiveRoute.Some?
  {
    hide ViewOf;
  }

  // ---------- TWAP ----------

  /** The state of a TWAP session relative to its plan: one child per slice already started, none larger than its slice,
      and the next deadline a whole number of intervals after the start. */
  ghost predicate Paced(t: Twap) {
    && Conserving(t.base)
    && AllPositive(t.slices) && SeqSum(t.slices) == t.base.target
    && |t.base.children| == t.index + (if t.consumed then 1 else 0) <= |t.slices|
    && Sum(Entrusted(t.base.children)) <= SeqSum(t.slices[..|t.base.children|])
    && t.deadlineNs == Deadline(t.startNs, t.intervalNs, t.index)
  }

  /** The clamp of a slice to the schedulable volume never binds: a paced session can always send its whole
      next slice. */
  lemma NextSliceIsSchedulable(t: Twap)
    requires Paced(t) && |t.base.children| < |t.slices|
    ensures Schedulable(t.base) >= t.slices[|t.base.children|]
  {
    var c := t.base.children;
    hide Sum, SeqSum, Schedulable;
    ConservingIsBalanced(t.base);
    SumMonotone(HeldBy(c), Entrusted(c));
    SeqSumSplit(t.slices, |c|);
  }

  lemma StartIsPaced(base: Session, slices: seq<uint64>, startNs: uint64, intervalNs: uint64)
    requires Conserving(base) && base.children == map[]
    requires AllPositive(slices) && SeqSum(slices) == base.target
    ensures Paced(StartTwap(base, slices, startNs, intervalNs))
  {
    assert Entrusted(map[]) == map[];
    assert 0 * intervalNs == 0;
  }

  lemma AdvanceKeepsPace(t: Twap)
    requires Paced(t)
    ensures Paced(AdvanceSlice(t)) && AdvanceSlice(t).base.children == t.base.children
  {
    hide Sum, SeqSum, WorkingVolume;
  }

  /** What a session's flags, price memory and published view are does not matter to its pace. */
  lemma PaceIgnoresFlags(t: Twap, s: Session)
    requires Paced(t) && Conserving(s) && SameOrder(t.base, s)
    requires s.children.Keys == t.base.children.Keys && Entrusted(s.children) == Entrusted(t.base.children)
    ensures Paced(t.(base := s))
  {
    hide Sum, SeqSum, Conserving;
    assert |s.children| == |s.children.Keys| == |t.base.children.Keys| == |t.base.children|;
  }

  lemma ResponseKeepsEntrusted(s: Session, r: TradeResponse)
    requires Conserving(s)
    ensures var s' := OnTradeResponse(s, r);
            s'.children.Keys == s.children.Keys && Entrusted(s'.children) == Entrusted(s.children)
  {
    hide Respond, WorkingVolume, Conserving, LedgerOk;
    if r.orderId in s.children && !s.children[r.orderId].finalized {
      LedgerInOrder(s, r.orderId);
      RespondKeepsHeld(s.children[r.orderId], r);
    }
  }

  lemma LedgerInOrder(s: Session, id: OrderId)
    requires Conserving(s) && id in s.children
    ensures LedgerOk(s.children[id])
  {
    hide Sum, HeldBy;
  }

  lemma ResponseKeepsPace(t: Twap, r: TradeResponse)
    requires Paced(t)
    ensures Paced(TwapOnTradeResponse(t, r))
  {
    ResponseConserves(t.base, r);
    ResponseKeepsEntrusted(t.base, r);
    var s := OnTradeResponse(t.base, r);
    PaceIgnoresFlags(t, s);
    AdvanceKeepsPace(t.(base := s));
    hide OnTradeResponse, Paced, AdvanceSlice;
  }

  ghost predicate FreshRoute(s: Session, route: Option<OrderId>) {
    route.Some? ==> route.value !in s.children
  }

  /** One accepted child of at most a slice takes a session that has not started its slice one slice further. */
  lemma SubmitKeepsPace(t: Twap, volume: uint64, price: uint64, active: bool, route: Option<OrderId>)
    requires Paced(t) && !t.consumed && t.index < |t.slices| && volume <= t.slices[t.index]
    requires FreshRoute(t.base, route)
    ensures var b := SubmitChild(t.base, volume, price, active, route);
            && Paced(t.(base := b.session, consumed := b.sent.Some?))
            && |b.session.children| == |t.base.children| + (if b.sent.Some? then 1 else 0)
            && (b.sent.Some? ==> b.sent.value == Submission(route.value, volume, price, active) && volume > 0)
  {
    hide Conserving, Sum, SeqSum, Schedulable, ViewOf;
    NextSliceIsSchedulable(t);
    SubmitConserves(t.base, volume, price, active, route);
    if route.Some? {
      EntrustOneMore(t.base.children, route.value, volume, price);
      SeqSumSplit(t.slices, |t.base.children|);
    }
  }

  lemma EntrustOneMore(c: map<OrderId, Ledger>, id: OrderId, volume: uint64, price: uint64)
    requires id !in c
    ensures |c[id := NewLedger(volume, price)]| == |c| + 1
    ensures Sum(Entrusted(c[id := NewLedger(volume, price)])) == Sum(Entrusted(c)) + volume
  {
    assert Entrusted(c[id := NewLedger(volume, price)]) == Entrusted(c)[id := volume];
    SumUpdate(Entrusted(c), id, volume);
  }

  /** What a release at slice `i` may have sent: nothing, an active child within the slice, or the whole slice
      once due. */
  ghost predicate FollowsPlan(t: Twap, i: nat, now: uint64, sent: Option<Submission>) {
    sent.Some? ==>
      && i < |t.slices|
      && 0 < sent.value.volume <= t.slices[i]
      && (!sent.value.active ==> sent.value.volume == t.slices[i] && now >= Deadline(t.startNs, t.intervalNs, i))
  }

  lemma PaceIgnoresMemory(t: Twap, seqNo: uint64)
    requires Paced(t)
    ensures Paced(t.(base := t.base.(lastActiveSeq := seqNo)))
  {
    hide Sum, SeqSum, HeldBy, LedgerOk, Balanced, Deadline;
  }

  lemma ActiveAttemptKeepsPace(t: Twap, price: uint64, around: Surroundings)
    requires Paced(t) && !t.consumed && t.index < |t.slices|
    requires FreshRoute(t.base, around.activeRoute)
    ensures var a := ActiveAttempt(t.base, price, t.slices[t.index], around);
            && Paced(t.(base := a.session, consumed := a.sent.Some?))
            && |a.session.children| == |t.base.children| + (if a.sent.Some? then 1 else 0)
            && (a.sent.None? ==> a.session.children == t.base.children)
            && (a.sent.Some? ==> a.sent.value.active && 0 < a.sent.value.volume <= t.slices[t.index])
  {
    hide Paced, ViewOf;
    assert t.(base := t.base, consumed := false) == t;
    if around.market.Some? {
      PaceIgnoresMemory(t, around.market.value.publishSeq);
    }
    if around.market.Some? && around.decision.volume <= t.slices[t.index] {
      var s := t.base.(lastActiveSeq := around.market.value.publishSeq);
      SubmitKeepsPace(t.(base := s), around.decision.volume, price, true, around.activeRoute);
    }
  }

  lemma ReleaseFollowsPlan(t: Twap, now: uint64, price: uint64, around: Surroundings)
    requires Paced(t) && t.index < |t.slices|
    requires FreshRoute(t.base, around.activeRoute) && FreshRoute(t.base, around.passiveRoute)
    ensures var r := TwapRelease(t, now, price, around);
            && Paced(r.twap)
            && FollowsPlan(t, t.index, now, r.sent)
            && |r.twap.base.children| == |t.base.children| + (if r.sent.Some? then 1 else 0)
            && (t.consumed ==> r.sent.None?)
  {
    hide ActiveAttempt, SubmitChild, Schedulable, Conserving, Sum, SeqSum;
    if !t.consumed {
      NextSliceIsSchedulable(t);
      ActiveAttemptKeepsPace(t, price, around);
      var a := ActiveAttempt(t.base, price, t.slices[t.index], around);
      if a.sent.None? {
        SubmitKeepsPace(t.(base := a.session), t.slices[t.index], price, false, around.passiveRoute);
      }
    }
  }

  lemma CloseKeepsPace(t: Twap)
    requires Paced(t)
    ensures Paced(TwapClose(t)) && TwapClose(t).base.children == t.base.children
  {
    hide Paced, AdvanceSlice, Publish, WorkingVolume;
    AdvanceKeepsPace(t);
    EndingKeepsPace(AdvanceSlice(t));
    PublishingKeepsPace(AdvanceSlice(t));
    PublishingKeepsPace(AdvanceSlice(t).(base := AdvanceSlice(t).base.(terminal := true)));
  }

  lemma ServeFollowsPlan(t: Twap, now: uint64, around: Surroundings)
    requires Paced(t) && t.index < |t.slices|
    requires FreshRoute(t.base, around.activeRoute) && FreshRoute(t.base, around.passiveRoute)
    ensures var r := TwapServe(t, now, around);
            && Paced(r.twap)
            && FollowsPlan(t, t.index, now, r.sent)
            && |r.twap.base.children| == |t.base.children| + (if r.sent.Some? then 1 else 0)
            && (t.consumed ==> r.sent.None?)
  {
    hide Paced, TwapRelease, TwapClose, SubmitPrice, Schedulable, Publish, FreshRoute, Deadline;
    CloseKeepsPace(t);
    PublishingKeepsPace(t);
    var price := SubmitPrice(t.base, around.market);
    if price.Some? {
      ReleaseFollowsPlan(t, now, price.value, around);
      CloseKeepsPace(TwapRelease(t, now, price.value, around).twap);
    }
  }

  /** A tick of a paced session keeps its pace, and what it sends, if anything, is the child of the next slice:
      the position of that slice is the number of children sent before. */
  lemma TwapTickFollowsPlan(t0: Twap, now: uint64, around: Surroundings)
    requires Paced(t0)
    requires FreshRoute(t0.base, around.activeRoute) && FreshRoute(t0.base, around.passiveRoute)
    ensures var r := TwapTick(t0, now, around);
            && Paced(r.twap)
            && FollowsPlan(t0, |t0.base.children|, now, r.sent)
            && |r.twap.base.children| == |t0.base.children| + (if r.sent.Some? then 1 else 0)
  {
    hide Paced, TwapServe, Publish, FinalizeIfIdle, PublishUnlessTerminal, AdvanceSlice, Refresh, WorkingVolume,
      FollowsPlan, FreshRoute;
    RefreshKeepsPace(t0, around);
    var t1 := t0.(base := Refresh(t0.base, around));
    PublishingKeepsPace(t1);
    EndingKeepsPace(t1);
    PublishingKeepsPace(t1.(base := t1.base.(terminal := true)));
    AdvanceKeepsPace(t1);
    var t := AdvanceSlice(t1);
    PublishingKeepsPace(t);
    EndingKeepsPace(t);
    PublishingKeepsPace(t.(base := t.base.(terminal := true)));
    FinalizingKeepsPace(t);
    NothingSentFollowsPlan(t0, now);
    if t.index < |t.slices| {
      SameChildrenSameRoutes(t1.base, t.base, around);
      ServeFollowsPlan(t, now, around);
      SliceIsPosition(t0, t, now, TwapServe(t, now, around).sent);
    }
  }

  lemma SameChildrenSameRoutes(s: Session, s': Session, around: Surroundings)
    requires s'.children == s.children
    ensures FreshRoute(s', around.activeRoute) == FreshRoute(s, around.activeRoute)
    ensures FreshRoute(s', around.passiveRoute) == FreshRoute(s, around.passiveRoute)
  {
  }

  lemma NothingSentFollowsPlan(t: Twap, now: uint64)
    ensures FollowsPlan(t, |t.base.children|, now, None)
  {
  }

  lemma SliceIsPosition(t0: Twap, t: Twap, now: uint64, sent: Option<Submission>)
    requires Paced(t) && SamePlan(t0, t) && |t.base.children| == |t0.base.children|
    requires FollowsPlan(t, t.index, now, sent) && (t.consumed ==> sent.None?)
    ensures FollowsPlan(t0, |t0.base.children|, now, sent)
  {
    hide Sum, SeqSum, Conserving, Deadline;
  }

  lemma RefreshKeepsPace(t: Twap, around: Surroundings)
    requires Paced(t)
    ensures Paced(t.(base := Refresh(t.base, around)))
    ensures |Refresh(t.base, around).children| == |t.base.children|
    ensures FreshRoute(t.base, around.activeRoute) ==> FreshRoute(Refresh(t.base, around), around.activeRoute)
    ensures FreshRoute(t.base, around.passiveRoute) ==> FreshRoute(Refresh(t.base, around), around.passiveRoute)
  {
    RefreshedVolumes(t.base, around);
    PaceIgnoresFlags(t, Refresh(t.base, around));
    hide Paced, Refresh, Conserving, Schedulable, Sum;
    var c, c' := t.base.children, Refresh(t.base, around).children;
    assert |c'| == |c'.Keys| == |c.Keys| == |c|;
  }

  lemma PublishingKeepsPace(t: Twap)
    requires Paced(t)
    ensures Paced(t.(base := Publish(t.base))) && Paced(t.(base := PublishUnlessTerminal(t.base)))
    ensures PublishUnlessTerminal(t.base).children == t.base.children
  {
    hide Conserving, Sum, SeqSum, Deadline, ViewOf;
    ConservingIsBalanced(t.base);
  }

  lemma EndingKeepsPace(t: Twap)
    requires Paced(t)
    ensures Paced(t.(base := t.base.(terminal := true)))
  {
    hide Conserving, Sum, SeqSum, Deadline;
    ConservingIsBalanced(t.base);
  }

  lemma FinalizingKeepsPace(t: Twap)
    requires Paced(t)
    ensures Paced(t.(base := PublishUnlessTerminal(FinalizeIfIdle(t.base))))
    ensures PublishUnlessTerminal(FinalizeIfIdle(t.base)).children == t.base.children
  {
    hide Paced, Publish, WorkingVolume, RemainingTarget;
    EndingKeepsPace(t);
    PublishingKeepsPace(t);
    PublishingKeepsPace(t.(base := t.base.(terminal := true)));
  }

  // ---------- TWAP runs ----------

  ghost predicate FreshIds(t: Twap, e: Event) {
    match e
    case Tick(_, around) => FreshRoute(t.base, around.activeRoute) && FreshRoute(t.base, around.passiveRoute)
    case Response(_) => true
  }

  /** The router never hands a session an id it already uses. */
  ghost predicate RunWithFreshIds(t: Twap, events: seq<Event>)
    decreases |events|
  {
    events == [] || (FreshIds(t, events[0]) && RunWithFreshIds(TwapStep(t, events[0]), events[1..]))
  }

  datatype Sent = Sent(now: uint64, submission: Submission)

  /** The children a run sends, with the time of the tick that sent each. */
  ghost function SentBy(t: Twap, events: seq<Event>): seq<Sent>
    decreases |events|
  {
    if events == [] then []
    else
      var first := match events[0]
                   case Tick(now, around) =>
                     (match TwapTick(t, now, around).sent case Some(x) => [Sent(now, x)] case None => [])
                   case Response(_) => [];
      first + SentBy(TwapStep(t, events[0]), events[1..])
  }

  ghost predicate SentFollowsPlan(t: Twap, k: nat, sent: seq<Sent>) {
    && k + |sent| <= |t.slices|
    && forall i :: 0 <= i < |sent| ==> FollowsPlan(t, k + i, sent[i].now, Some(sent[i].submission))
  }

  lemma {:induction false} RunFollowsPlan(t: Twap, events: seq<Event>)
    requires Paced(t) && RunWithFreshIds(t, events)
    ensures Paced(RunTwap(t, events))
    ensures SentFollowsPlan(t, |t.base.children|, SentBy(t, events))
    ensures |RunTwap(t, events).base.children| == |t.base.children| + |SentBy(t, events)|
    decreases |events|
  {
    hide Conserving, Sum, SeqSum, TwapTick, TwapOnTradeResponse, FollowsPlan;
    if events != [] {
      var t' := TwapStep(t, events[0]);
      match events[0] {
        case Tick(now, around) => TwapTickFollowsPlan(t, now, around);
        case Response(r) =>
          ResponseKeepsPace(t, r);
          ResponseKeepsCount(t, r);
      }
      RunFollowsPlan(t', events[1..]);
      ShiftPlan(t, t', |t'.base.children|, SentBy(t', events[1..]));
    }
  }

  lemma ResponseKeepsCount(t: Twap, r: TradeResponse)
    requires Paced(t)
    ensures |TwapOnTradeResponse(t, r).base.children| == |t.base.children|
  {
    ResponseKeepsEntrusted(t.base, r);
    hide OnTradeResponse, WorkingVolume, Paced;
    var c, c' := t.base.children, OnTradeResponse(t.base, r).children;
    assert |c'| == |c'.Keys| == |c.Keys| == |c|;
  }

  lemma ShiftPlan(t: Twap, t': Twap, k: nat, sent: seq<Sent>)
    requires SamePlan(t, t') && SentFollowsPlan(t', k, sent)
    ensures SentFollowsPlan(t, k, sent)
  {
    hide Deadline;
    forall i | 0 <= i < |sent| ensures FollowsPlan(t, k + i, sent[i].now, Some(sent[i].submission)) {
      assert FollowsPlan(t', k + i, sent[i].now, Some(sent[i].submission));
    }
  }

  ghost function Volumes(sent: seq<Sent>): seq<uint64> {
    seq(|sent|, i requires 0 <= i < |sent| => sent[i].submission.volume)
  }

  lemma {:induction false} VolumesWithinSlices(t: Twap, sent: seq<Sent>)
    requires SentFollowsPlan(t, 0, sent)
    ensures SeqSum(Volumes(sent)) <= SeqSum(t.slices[..|sent|])
    decreases |sent|
  {
    if sent != [] {
      var n := |sent| - 1;
      assert forall i :: 0 <= i < n ==> FollowsPlan(t, i, sent[i].now, Some(sent[i].submission));
      VolumesWithinSlices(t, sent[..n]);
      assert Volumes(sent) == Volumes(sent[..n]) + [sent[n].submission.volume];
      SeqSumAppend(Volumes(sent[..n]), sent[n].submission.volume);
      SeqSumSplit(t.slices, n);
      assert FollowsPlan(t, n, sent[n].now, Some(sent[n].submission));
    }
  }

  /** Deadlines are whole intervals after the start, as long as the schedule ends within the 64-bit clock. */
  lemma DeadlineIsExact(startNs: uint64, intervalNs: uint64, index: nat)
    requires startNs + index * intervalNs <= U64_MAX
    ensures Deadline(startNs, intervalNs, index) == startNs + index * intervalNs
  {
    assert 0 <= index * intervalNs;
  }

  /** A time no earlier than a number of whole intervals after the start; beyond the 64-bit clock, that sum wraps. */
  predicate NotBefore(now: uint64, startNs: uint64, intervalNs: uint64, index: nat) {
    && now >= Deadline(startNs, intervalNs, index)
    && (startNs + index * intervalNs <= U64_MAX ==> now >= startNs + index * intervalNs)
  }

  /** A child of a slice: within it, and, unless the active strategy sent it, all of it and not before its time. */
  predicate OnPlan(x: Sent, slice: uint64, startNs: uint64, intervalNs: uint64, index: nat) {
    && 0 < x.submission.volume <= slice
    && (!x.submission.active ==> x.submission.volume == slice && NotBefore(x.now, startNs, intervalNs, index))
  }

  lemma DueIsNotBefore(now: uint64, startNs: uint64, intervalNs: uint64, index: nat)
    requires now >= Deadline(startNs, intervalNs, index)
    ensures NotBefore(now, startNs, intervalNs, index)
  {
    hide Deadline;
    if startNs + index * intervalNs <= U64_MAX {
      DeadlineIsExact(startNs, intervalNs, index);
    }
  }

  /** Main result for TWAP: over any run the i-th child is the child of slice i. A passive one is exactly that slice and
      is sent no earlier than i intervals after the start; an active one is within the slice; all together stay within
      the target. */
  lemma TwapRunFollowsPlan(
    target: uint64, orderPrice: uint64, allowFallback: bool, hasActive: bool,
    slices: seq<uint64>, startNs: uint64, intervalNs: uint64, events: seq<Event>)
    requires AllPositive(slices) && SeqSum(slices) == target
    requires var t := StartTwap(Start(target, orderPrice, allowFallback, hasActive), slices, startNs, intervalNs);
             RunWithFreshIds(t, events)
    ensures var t := StartTwap(Start(target, orderPrice, allowFallback, hasActive), slices, startNs, intervalNs);
            var sent := SentBy(t, events);
            && |sent| <= |slices|
            && (forall i :: 0 <= i < |sent| ==> OnPlan(sent[i], slices[i], startNs, intervalNs, i))
            && SeqSum(Volumes(sent)) <= target
            && |RunTwap(t, events).base.children| == |sent|
  {
    var t := StartTwap(Start(target, orderPrice, allowFallback, hasActive), slices, startNs, intervalNs);
    StartConserves(target, orderPrice, allowFallback, hasActive);
    StartIsPaced(t.base, slices, startNs, intervalNs);
    RunFollowsPlan(t, events);
    hide Paced, Deadline, SeqSum, RunTwap, SentBy, Conserving, FollowsPlan, OnPlan;
    var sent := SentBy(t, events);
    VolumesWithinSlices(t, sent);
    SeqSumSplit(slices, |sent|);
    forall i | 0 <= i < |sent| ensures OnPlan(sent[i], slices[i], startNs, intervalNs, i) {
      assert FollowsPlan(t, 0 + i, sent[i].now, Some(sent[i].submission));
      PlannedChild(t, i, sent[i]);
    }
  }

  lemma PlannedChild(t: Twap, i: nat, x: Sent)
    requires FollowsPlan(t, i, x.now, Some(x.submission))
    ensures i < |t.slices| && OnPlan(x, t.slices[i], t.startNs, t.intervalNs, i)
  {
    hide Deadline, NotBefore;
    if !x.submission.active {
      DueIsNotBefore(x.now, t.startNs, t.intervalNs, i);
    }
  }

  /** A due slice is sent: past its deadline, an idle, priced and routable tick sends a child. */
  lemma DueSliceIsSent(t: Twap, now: uint64, around: Surroundings)
    requires Paced(t) && !t.base.failed && WorkingVolume(t.base) == 0 && |t.base.children| < |t.slices|
    requires around.parentBooked && around.cancels == {}
    requires around.passiveRoute.Some?
    requires (around.market.Some? && around.market.value.price.Some? && around.market.value.price.value > 0)
             || (t.base.allowFallback && t.base.orderPrice > 0)
    requires now >= Deadline(t.startNs, t.intervalNs, |t.base.children|)
    ensures TwapTick(t, now, around).sent.Some?
  {
    hide Sum, SeqSum, Conserving, Deadline, Schedulable, WorkingVolume, SubmitPrice, TwapServe;
    RefreshedVolumes(t.base, around);
    var t1 := t.(base := Refresh(t.base, around));
    RefreshKeepsPace(t, around);
    AdvanceKeepsPace(t1);
    AdvanceOpensSlice(t1);
    SamePrice(t.base, AdvanceSlice(t1).base, around.market);
    SubmitPriceIsPriced(t.base, around.market);
    DueServeSends(AdvanceSlice(t1), now, around);
  }

  lemma DueServeSends(t: Twap, now: uint64, around: Surroundings)
    requires Paced(t) && !t.consumed && t.index < |t.slices| && now >= t.deadlineNs
    requires SubmitPrice(t.base, around.market).Some? && around.passiveRoute.Some?
    ensures TwapServe(t, now, around).sent.Some?
  {
    hide Sum, SeqSum, Conserving, Deadline, Schedulable, SubmitPrice, ActiveAttempt, SubmitChild, TwapClose;
    NextSliceIsSchedulable(t);
    SubmitPriceIsPriced(t.base, around.market);
    var price := SubmitPrice(t.base, around.market).value;
    var a := ActiveAttempt(t.base, price, t.slices[t.index], around);
    RoutableSubmitSends(a.session, t.slices[t.index], price, around.passiveRoute);
  }

  /** A TWAP session that a tick ends, neither failed nor cancelled, has sent every slice and has no child working. */
  lemma EndedMeansAllSlicesSent(t: Twap, now: uint64, around: Surroundings)
    requires Paced(t) && !t.base.terminal && around.cancels == {}
    requires var u := TwapTick(t, now, around).twap; u.base.terminal && !u.base.failed
    ensures var u := TwapTick(t, now, around).twap; u.index == |t.slices| && WorkingVolume(u.base) == 0
  {
    hide Sum, SeqSum, Conserving, WorkingVolume, Publish, MarkCancels, TwapServe, Deadline;
    RefreshedVolumes(t.base, around);
    var t1 := t.(base := Refresh(t.base, around));
    RefreshKeepsPace(t, around);
    AdvanceKeepsPace(t1);
    AdvanceKeepsVolumes(t1);
    var v := AdvanceSlice(t1);
    IdleIgnoresRest(v.base);
    if v.index < |v.slices| {
      ServeEndsOnlyDone(v, now, around);
    }
  }

  lemma AdvanceKeepsVolumes(t: Twap)
    ensures WorkingVolume(AdvanceSlice(t).base) == WorkingVolume(t.base)
    ensures AdvanceSlice(t).base.terminal == t.base.terminal && AdvanceSlice(t).base.failed == t.base.failed
    ensures AdvanceSlice(t).base.cancelRequested == t.base.cancelRequested
    ensures t.index <= |t.slices| ==> AdvanceSlice(t).index <= |t.slices|
  {
    hide Sum, Open;
  }

  lemma ServeEndsOnlyDone(t: Twap, now: uint64, around: Surroundings)
    requires !t.base.terminal && t.index < |t.slices|
    requires var u := TwapServe(t, now, around).twap; u.base.terminal && !u.base.failed
    ensures var u := TwapServe(t, now, around).twap; u.index == |t.slices| && WorkingVolume(u.base) == 0
  {
    hide WorkingVolume, Schedulable, SubmitPrice, TwapRelease, TwapClose;
    var price := SubmitPrice(t.base, around.market);
    CloseEndsOnlyDone(t);
    if price.Some? {
      ReleaseEndsByFailing(t, now, price.value, around);
      CloseEndsOnlyDone(TwapRelease(t, now, price.value, around).twap);
    }
  }

  lemma ReleaseEndsByFailing(t: Twap, now: uint64, price: uint64, around: Surroundings)
    requires !t.base.terminal && t.index < |t.slices|
    ensures var u := TwapRelease(t, now, price, around).twap;
            (u.base.terminal ==> u.base.failed) && u.index == t.index
  {
    hide ActiveAttempt, SubmitChild, Schedulable;
    SendingNeverEnds(t.base, price, Min(t.slices[t.index], Schedulable(t.base)), around);
  }

  lemma CloseEndsOnlyDone(t: Twap)
    requires t.index <= |t.slices|
    ensures TwapClose(t).base.failed == t.base.failed
    ensures TwapClose(t).base.terminal && !t.base.terminal ==>
            TwapClose(t).index == |t.slices| && WorkingVolume(TwapClose(t).base) == 0
  {
    hide WorkingVolume, AdvanceSlice, Publish;
    AdvanceKeepsVolumes(t);
    IdleIgnoresRest(AdvanceSlice(t).base);
  }

  lemma SamePrice(s: Session, s': Session, market: Option<MarketView>)
    requires SameOrder(s, s')
    ensures SubmitPrice(s', market) == SubmitPrice(s, market)
  {
  }

  lemma AdvanceOpensSlice(t: Twap)
    requires Paced(t) && WorkingVolume(t.base) == 0 && |t.base.children| < |t.slices|
    ensures var u := AdvanceSlice(t);
            !u.consumed && u.index == |t.base.children| && u.base.failed == t.base.failed
              && u.base.cancelRequested == t.base.cancelRequested
  {
    hide Sum, SeqSum, Conserving, Deadline, WorkingVolume;
  }

  // ---------- No child works while its slice is unconsumed ----------

  ghost predicate IdleWhileUnconsumed(t: Twap) {
    !t.consumed ==> WorkingVolume(t.base) == 0
  }

  /** A response lets a child work under an unconsumed slice exactly when it reopens a traded child. */
  lemma ResponseKeepsIdleExactly(t: Twap, r: TradeResponse)
    requires Conserving(t.base) && IdleWhileUnconsumed(t)
    ensures IdleWhileUnconsumed(TwapOnTradeResponse(t, r)) <==> t.consumed || !Reopens(t.base, r)
  {
    ResponseOpensByOverflow(t.base, r);
    IdleIsAllClosed(t.base);
    IdleIsAllClosed(OnTradeResponse(t.base, r));
    assert Reopens(t.base, r) ==> r.orderId in Open(t.base.children) && Open(t.base.children)[r.orderId] == 0;
    assert Reopens(t.base, r) ==> !Finalizes(t.base, r);
    hide OnTradeResponse, WorkingVolume, Conserving, Open, Reopens, Finalizes;
    var c, c' := Open(t.base.children), Open(OnTradeResponse(t.base, r).children);
    if !t.consumed && Reopens(t.base, r) {
      assert c'[r.orderId] > 0;
    }
  }

  /** A tick never lets a child work under an unconsumed slice. */
  lemma TickKeepsIdle(t0: Twap, now: uint64, around: Surroundings)
    requires Conserving(t0.base) && IdleWhileUnconsumed(t0)
    ensures IdleWhileUnconsumed(TwapTick(t0, now, around).twap)
  {
    hide Conserving, Schedulable, WorkingVolume, Publish, FinalizeIfIdle, PublishUnlessTerminal, TwapServe,
      AdvanceSlice, Refresh;
    RefreshedVolumes(t0.base, around);
    var t1 := t0.(base := Refresh(t0.base, around));
    AdvanceStaysIdle(t1);
    IdleIgnoresRest(t1.base);
    var t := AdvanceSlice(t1);
    IdleIgnoresRest(t.base);
    if t.index < |t.slices| {
      ServeStaysIdle(t, now, around);
    }
  }

  lemma CloseStaysIdle(t: Twap)
    requires IdleWhileUnconsumed(t)
    ensures IdleWhileUnconsumed(TwapClose(t))
  {
    hide WorkingVolume, AdvanceSlice, PublishUnlessTerminal;
    AdvanceStaysIdle(t);
    IdleIgnoresRest(AdvanceSlice(t).base);
    IdleIgnoresRest(AdvanceSlice(t).base.(terminal := true));
  }

  lemma ServeStaysIdle(t: Twap, now: uint64, around: Surroundings)
    requires IdleWhileUnconsumed(t) && t.index < |t.slices|
    ensures IdleWhileUnconsumed(TwapServe(t, now, around).twap)
  {
    hide WorkingVolume, Schedulable, SubmitPrice, Publish, TwapRelease, TwapClose;
    CloseStaysIdle(t);
    IdleIgnoresRest(t.base);
    var price := SubmitPrice(t.base, around.market);
    if price.Some? {
      ReleaseStaysIdle(t, now, price.value, around);
      CloseStaysIdle(TwapRelease(t, now, price.value, around).twap);
    }
  }

  lemma AdvanceStaysIdle(t: Twap)
    requires IdleWhileUnconsumed(t)
    ensures IdleWhileUnconsumed(AdvanceSlice(t))
  {
    hide Sum, Open;
  }

  lemma IdleIgnoresRest(s: Session)
    ensures WorkingVolume(s.(terminal := true)) == WorkingVolume(Publish(s))
            == WorkingVolume(Publish(s.(terminal := true))) == WorkingVolume(s)
    ensures WorkingVolume(PublishUnlessTerminal(s)) == WorkingVolume(PublishUnlessTerminal(FinalizeIfIdle(s)))
            == WorkingVolume(s)
  {
    hide Sum, Open, RemainingTarget;
  }

  lemma ReleaseStaysIdle(t: Twap, now: uint64, price: uint64, around: Surroundings)
    requires IdleWhileUnconsumed(t) && t.index < |t.slices|
    ensures IdleWhileUnconsumed(TwapRelease(t, now, price, around).twap)
  {
    if !t.consumed {
      ActiveAttemptKeepsOneWorking(t.base, price, Min(t.slices[t.index], Schedulable(t.base)), around);
    }
    hide Sum, Open, Schedulable, ActiveAttempt;
  }

  /** A response that reopens a traded child before the next slice has been started. */
  ghost predicate ReopensEarly(t: Twap, e: Event) {
    e.Response? && !t.consumed && Reopens(t.base, e.response)
  }

  ghost predicate NeverReopensEarly(t: Twap, events: seq<Event>)
    decreases |events|
  {
    events == [] || (!ReopensEarly(t, events[0]) && NeverReopensEarly(TwapStep(t, events[0]), events[1..]))
  }

  ghost predicate AlwaysIdleWhileUnconsumed(t: Twap, events: seq<Event>)
    decreases |events|
  {
    IdleWhileUnconsumed(t) && (events != [] ==> AlwaysIdleWhileUnconsumed(TwapStep(t, events[0]), events[1..]))
  }

  lemma StepKeepsIdleExactly(t: Twap, e: Event)
    requires Conserving(t.base) && IdleWhileUnconsumed(t)
    ensures Conserving(TwapStep(t, e).base)
    ensures IdleWhileUnconsumed(TwapStep(t, e)) <==> !ReopensEarly(t, e)
  {
    hide Conserving, IdleWhileUnconsumed, TwapTick, OnTradeResponse, Reopens, AdvanceSlice;
    match e
    case Tick(now, around) =>
      TwapTickConserves(t, now, around);
      TickKeepsIdle(t, now, around);
    case Response(r) =>
      ResponseConserves(t.base, r);
      AdvanceConserves(t.(base := OnTradeResponse(t.base, r)));
      ResponseKeepsIdleExactly(t, r);
  }

  lemma {:induction false} TwapRunKeepsIdle(t: Twap, events: seq<Event>)
    requires Conserving(t.base) && IdleWhileUnconsumed(t)
    ensures AlwaysIdleWhileUnconsumed(t, events) <==> NeverReopensEarly(t, events)
    decreases |events|
  {
    hide Conserving, IdleWhileUnconsumed, TwapStep, ReopensEarly;
    if events != [] {
      StepKeepsIdleExactly(t, events[0]);
      if ReopensEarly(t, events[0]) {
        WorkingNow(TwapStep(t, events[0]), events[1..]);
      } else {
        TwapRunKeepsIdle(TwapStep(t, events[0]), events[1..]);
      }
    }
  }

  lemma WorkingNow(t: Twap, events: seq<Event>)
    requires !IdleWhileUnconsumed(t)
    ensures !AlwaysIdleWhileUnconsumed(t, events)
  {
    hide IdleWhileUnconsumed;
  }

  /** Main result for TWAP: from its start no child of a session works while its next slice is not started, exactly as
      long as no response reopens a traded child then. */
  lemma SlicesNeverOverlap(
    target: uint64, orderPrice: uint64, allowFallback: bool, hasActive: bool,
    slices: seq<uint64>, startNs: uint64, intervalNs: uint64, events: seq<Event>)
    ensures var t := StartTwap(Start(target, orderPrice, allowFallback, hasActive), slices, startNs, intervalNs);
            AlwaysIdleWhileUnconsumed(t, events) <==> NeverReopensEarly(t, events)
  {
    var s := Start(target, orderPrice, allowFallback, hasActive);
    StartConserves(target, orderPrice, allowFallback, hasActive);
    IdleIsAllClosed(s);
    TwapRunKeepsIdle(StartTwap(s, slices, startNs, intervalNs), events);
  }
}
