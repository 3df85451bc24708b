/** When a tick sends a child, and which one: in terms of what the session meets
    (src/execution/execution_engine.cpp). */
module ExecutionDecisions {
  import opened Integers
  import opened OrderTypes
  import opened Sums
  import opened TwapPlan
  import opened ExecutionModel
  import opened ExecutionConservation
  import opened ExecutionPacing

  // ---------- FixedSize and Iceberg ----------

  /** Whether a session can send at all: its parent is booked, it has not failed, nothing is being cancelled, nothing
      works, something is missing, and there is a price. */
  ghost predicate CanSend(s: Session, around: Surroundings) {
    && around.parentBooked && !s.failed && around.cancels == {} && WorkingVolume(s) == 0 && TradedVolume(s) < s.target
    && ((around.market.Some? && around.market.value.price.Some? && around.market.value.price.value > 0)
        || (s.allowFallback && s.orderPrice > 0))
  }

  /** Whether the active strategy hands a child of at most this volume to the router: it sees a fresh prediction that it
      has not seen before, and wants to submit that much. */
  predicate WantsActive(s: Session, lastSeen: uint64, most: nat, around: Surroundings) {
    && s.hasActive && around.market.Some? && around.market.value.isFresh && around.market.value.publishSeq != lastSeen
    && around.decision.shouldSubmit && 0 < around.decision.volume <= most
  }

  /** What may be sent within a volume: the active child if there is one and it is routed, else all of the volume as a
      passive child if that is routed. */
  predicate SentWithin(s: Session, lastSeen: uint64, most: nat, passive: bool, around: Surroundings,
                       sent: Option<Submission>)
  {
    if WantsActive(s, lastSeen, most, around) && around.activeRoute.Some? then
      && sent.Some? && sent.value.active && sent.value.id == around.activeRoute.value
      && sent.value.volume == around.decision.volume && Priced(s, around.market, sent.value.price)
    else if passive && around.passiveRoute.Some? then
      && sent.Some? && !sent.value.active && sent.value.id == around.passiveRoute.value
      && sent.value.volume == most && Priced(s, around.market, sent.value.price)
    else sent.None?
  }

  /** The child that a tick wants to hand over first is refused by the router. */
  predicate FirstIsRefused(s: Session, lastSeen: uint64, most: nat, passive: bool, around: Surroundings) {
    if WantsActive(s, lastSeen, most, around) then around.activeRoute.None? else passive && around.passiveRoute.None?
  }

  /** What a release leaves behind: a new ledger for what was sent, the prediction as seen, and failure if the
      router refused. */
  ghost predicate Released(s: Session, budget: nat, passive: bool, around: Surroundings, r: TickResult) {
    && SentWithin(s, s.lastActiveSeq, budget, passive, around, r.sent)
    && (r.session.failed <==> s.failed || FirstIsRefused(s, s.lastActiveSeq, budget, passive, around))
    && (r.session.terminal <==> s.terminal || FirstIsRefused(s, s.lastActiveSeq, budget, passive, around))
    && Enters(s.children, r.session.children, r.sent)
    && r.session.lastActiveSeq == Seen(s, s.lastActiveSeq, around)
  }

  /** The prediction that the strategy has seen after its turn. */
  function Seen(s: Session, lastSeen: uint64, around: Surroundings): uint64 {
    if s.hasActive && around.market.Some? && around.market.value.isFresh then around.market.value.publishSeq
      else lastSeen
  }

  /** The children that booked cancels aim at are marked as being cancelled, for good, and nothing else about
      them changes. */
  lemma CancelsAreMarked(c: map<OrderId, Ledger>, cancels: set<OrderId>)
    ensures var c' := MarkCancels(c, cancels);
            && c'.Keys == c.Keys
            && forall id :: id in c ==>
                 && (c'[id].cancelRequested <==> c[id].cancelRequested || id in cancels)
                 && c'[id] == c[id].(cancelRequested := c'[id].cancelRequested)
  {
  }

  /** What was sent under a new id is entered with its volume and price, open, and with nothing traded; all
      else stays. */
  ghost predicate Enters(c: map<OrderId, Ledger>, c': map<OrderId, Ledger>, sent: Option<Submission>) {
    if sent.None? || sent.value.id in c then c' == c
    else
      && c'.Keys == c.Keys + {sent.value.id} && (forall id :: id in c ==> c'[id] == c[id])
      && c'[sent.value.id] == Ledger(sent.value.volume, sent.value.price, 0, 0, 0, 0, false, false, TraderSubmitted)
  }

  lemma AttemptDecides(s: Session, budget: uint64, price: uint64, around: Surroundings)
    requires budget > 0 && price > 0 && Priced(s, around.market, price)
    ensures var a := ActiveAttempt(s, price, budget, around);
            && SentWithin(s, s.lastActiveSeq, budget, false, around, a.sent)
            && (a.sent.Some? ==> Released(s, budget, true, around, a))
            && (a.sent.None? ==>
                  && a.session.children == s.children
                  && (a.session.failed <==> s.failed || (WantsActive(s, s.lastActiveSeq, budget, around)))
                  && (a.session.terminal <==> s.terminal || (WantsActive(s, s.lastActiveSeq, budget, around)))
                  && a.session.lastActiveSeq == Seen(s, s.lastActiveSeq, around))
  {
    hide ViewOf;
  }

  lemma PassiveDecides(s: Session, budget: uint64, price: uint64, route: Option<OrderId>)
    requires budget > 0 && price > 0
    ensures var b := SubmitChild(s, budget, price, false, route);
            && b.sent == (if route.Some? then Some(Submission(route.value, budget, price, false)) else None)
            && (b.session.failed <==> s.failed || route.None?) && (b.session.terminal <==> s.terminal || route.None?)
            && b.session.lastActiveSeq == s.lastActiveSeq
            && Enters(s.children, b.session.children, b.sent)
  {
    hide ViewOf;
  }

  lemma ReleaseDecides(s: Session, budget: uint64, price: uint64, around: Surroundings)
    requires budget > 0 && price > 0 && Priced(s, around.market, price)
    ensures Released(s, budget, true, around, SequentialRelease(s, budget, price, around))
  {
    AttemptDecides(s, budget, price, around);
    var a := ActiveAttempt(s, price, budget, around);
    PassiveDecides(a.session, budget, price, around.passiveRoute);
    hide ActiveAttempt, SubmitChild, Priced, WantsActive;
  }

  /** What a view must show of a session: the sums over its children, and how the session stands. */
  ghost predicate ShowsSession(v: ParentView, s: Session) {
    && v.target == s.target
    && v.traded == Cap(Sum(Traded(s.children))) && v.value == Cap(Sum(Values(s.children)))
    && v.fee == Cap(Sum(Fees(s.children)))
    && v.working == WorkingVolume(s) && v.schedulable == Schedulable(s)
    && v.executionState == (if s.failed then Failed
                            else if s.terminal then ExecutionState.Finished
                            else if s.cancelRequested then Cancelling else Running)
  }

  ghost predicate Current(s: Session) {
    s.view.Some? && ShowsSession(s.view.value, s)
  }

  /** What is summed up: each child's own volumes, value and fee. */
  lemma SummedUp(c: map<OrderId, Ledger>)
    ensures Traded(c).Keys == Values(c).Keys == Fees(c).Keys == Open(c).Keys == c.Keys
    ensures forall id :: id in c ==>
              && Traded(c)[id] == c[id].traded && Values(c)[id] == c[id].value && Fees(c)[id] == c[id].fee
              && (!c[id].finalized && c[id].traded + c[id].cancelled <= c[id].entrust ==>
                    Open(c)[id] + c[id].traded + c[id].cancelled == c[id].entrust)
              && (c[id].finalized ==> Open(c)[id] == 0)
  {
  }

  lemma PublishedIsCurrent(s: Session)
    ensures Current(Publish(s))
  {
    hide Sum, WorkingVolume, Schedulable, RemainingTarget;
    var s' := Publish(s);
    SameSums(s, s');
  }

  lemma SameSums(s: Session, s': Session)
    requires s'.children == s.children && s'.target == s.target
    ensures WorkingVolume(s') == WorkingVolume(s) && Schedulable(s') == Schedulable(s)
  {
  }

  /** Main result for FixedSize and Iceberg: exactly when a tick sends, and what: within a clip and what is missing, an
      active child if the strategy wants one and it is routed, else a passive child of all of that volume, at the valid
      price. The session fails exactly if its parent is gone or the router refuses the child it wants to send first, and
      it ends exactly if it failed, or nothing works and it is being cancelled or has traded its target. Its view is
      then current. */
  lemma SequentialTickDecides(s0: Session, clip: uint64, around: Surroundings)
    requires Conserving(s0) && clip > 0 && !s0.terminal
    ensures TradedVolume(s0) <= s0.target
    ensures var r, most := SequentialTick(s0, clip, around), Min(clip, s0.target - TradedVolume(s0));
            && (if CanSend(s0, around) then SentWithin(s0, s0.lastActiveSeq, most, true, around, r.sent)
                else r.sent.None?)
            && (around.parentBooked ==> Enters(MarkCancels(s0.children, around.cancels), r.session.children, r.sent))
            && (CanSend(s0, around) ==> r.session.lastActiveSeq == Seen(s0, s0.lastActiveSeq, around))
            && (r.session.failed <==> s0.failed || !around.parentBooked
                                      || (CanSend(s0, around)
                                          && FirstIsRefused(s0, s0.lastActiveSeq, most, true, around)))
            && (r.session.terminal <==>
                r.session.failed
                || (WorkingVolume(s0) == 0 && (around.cancels != {} || TradedVolume(s0) == s0.target)))
            && (around.parentBooked ==> Current(r.session))
  {
    hide Conserving, Sum, TradedVolume, WorkingVolume, SequentialRelease, MarkCancels, Current, ViewOf, Released,
      SubmitPrice;
    ConservingIsBalanced(s0);
    RefreshedVolumes(s0, around);
    var s := Refresh(s0, around);
    var budget := Min(clip, Schedulable(s));
    SubmitPriceIsPriced(s, around.market);
    var price := SubmitPrice(s, around.market);
    PublishedIsCurrent(s);
    PublishedIsCurrent(s.(terminal := true));
    Publishes(s);
    Publishes(s.(terminal := true));
    if around.parentBooked && !s.failed && WorkingVolume(s) == 0 && budget > 0 && price.Some? {
      ReleaseDecides(s, budget, price.value, around);
      var r := SequentialRelease(s, budget, price.value, around);
      PublishedIsCurrent(r.session);
      Publishes(r.session);
      ReleasedFor(s0, s, budget, true, around, r);
    }
    hide SentWithin, FirstIsRefused, Priced;
  }

  lemma Publishes(s: Session)
    ensures Publish(s).failed == s.failed && Publish(s).terminal == s.terminal && Publish(s).children == s.children
  {
  }

  /** The decision looks at what the session was created with, and at the prediction it saw last. */
  lemma ReleasedFor(s0: Session, s: Session, budget: nat, passive: bool, around: Surroundings, r: TickResult)
    requires Released(s, budget, passive, around, r) && SameOrder(s0, s) && !s.failed && !s.terminal
    ensures SentWithin(s0, s.lastActiveSeq, budget, passive, around, r.sent)
    ensures r.session.failed <==> FirstIsRefused(s0, s.lastActiveSeq, budget, passive, around)
    ensures r.session.terminal <==> r.session.failed
    ensures Enters(s.children, r.session.children, r.sent)
    ensures r.session.lastActiveSeq == Seen(s0, s.lastActiveSeq, around)
  {
  }

  // ---------- TWAP ----------

  /** Whether a TWAP session can start its next slice, the k-th: a slice is left, and the one before has been served. */
  ghost predicate CanStart(t: Twap, around: Surroundings) {
    && around.parentBooked && !t.base.failed && around.cancels == {}
    && |t.base.children| < |t.slices| && (!t.consumed || WorkingVolume(t.base) == 0)
    && ((around.market.Some? && around.market.value.price.Some? && around.market.value.price.value > 0)
        || (t.base.allowFallback && t.base.orderPrice > 0))
  }

  lemma TwapReleaseDecides(t: Twap, now: uint64, price: uint64, around: Surroundings)
    requires Paced(t) && !t.consumed && t.index < |t.slices| && price > 0 && Priced(t.base, around.market, price)
    ensures var r, due := TwapRelease(t, now, price, around), now >= t.deadlineNs;
            Released(t.base, t.slices[t.index], due, around, TickResult(r.twap.base, r.sent))
  {
    NextSliceIsSchedulable(t);
    hide Paced, Schedulable, ActiveAttempt, SubmitChild, Priced, WantsActive;
    var budget := t.slices[t.index];
    SliceIsPositive(t);
    AttemptDecides(t.base, budget, price, around);
    var a := ActiveAttempt(t.base, price, budget, around);
    PassiveDecides(a.session, budget, price, around.passiveRoute);
  }

  lemma SliceIsPositive(t: Twap)
    requires Paced(t) && t.index < |t.slices|
    ensures t.slices[t.index] > 0 && |t.base.children| == t.index + (if t.consumed then 1 else 0)
    ensures t.deadlineNs == Deadline(t.startNs, t.intervalNs, t.index)
  {
    hide Conserving, Sum, SeqSum, Deadline;
  }

  lemma ClosingKeepsFailure(t: Twap)
    ensures TwapClose(t).base.failed == t.base.failed && (t.base.terminal ==> TwapClose(t).base.terminal)
    ensures TwapClose(t).base.children == t.base.children
  {
    hide WorkingVolume, ViewOf;
  }

  lemma ServeDecides(t: Twap, now: uint64, around: Surroundings)
    requires Paced(t) && t.index < |t.slices| && !t.base.failed && !t.base.terminal
    ensures var r, due := TwapServe(t, now, around), now >= Deadline(t.startNs, t.intervalNs, t.index);
            var can := !t.consumed && SubmitPrice(t.base, around.market).Some?;
            && (if can then SentWithin(t.base, t.base.lastActiveSeq, t.slices[t.index], due, around, r.sent)
                else r.sent.None?)
            && (r.twap.base.failed <==>
                can && FirstIsRefused(t.base, t.base.lastActiveSeq, t.slices[t.index], due, around))
            && Enters(t.base.children, r.twap.base.children, r.sent)
  {
    SliceIsPositive(t);
    if !t.consumed {
      NextSliceIsSchedulable(t);
    }
    hide Paced, TwapRelease, TwapClose, SubmitPrice, Schedulable, Publish, Deadline, Released;
    SubmitPriceIsPriced(t.base, around.market);
    ClosingKeepsFailure(t);
    Publishes(t.base);
    var price := SubmitPrice(t.base, around.market);
    if price.Some? {
      var r := TwapRelease(t, now, price.value, around);
      ClosingKeepsFailure(r.twap);
      if t.consumed {
        ConsumedReleasesNothing(t, now, price.value, around);
      } else {
        TwapReleaseDecides(t, now, price.value, around);
        ReleasedFor(t.base, t.base, t.slices[t.index], now >= t.deadlineNs, around, TickResult(r.twap.base, r.sent));
      }
    }
    hide SentWithin, FirstIsRefused;
  }

  lemma ConsumedReleasesNothing(t: Twap, now: uint64, price: uint64, around: Surroundings)
    requires t.consumed && t.index < |t.slices|
    ensures TwapRelease(t, now, price, around) == TwapTickResult(t, None)
  {
  }

  /** Main result for TWAP: exactly when a tick sends, and what: of the next slice, an active child if the strategy
      wants one and it is routed, else, once the slice is due, a passive child of the whole slice, at the valid price. A
      step to the next slice lets the strategy see the same prediction again. The session fails exactly if its parent is
      gone or the router refuses the child it wants to send first. */
  lemma TwapTickDecides(t0: Twap, now: uint64, around: Surroundings)
    requires Paced(t0) && !t0.base.terminal
    ensures var r, k := TwapTick(t0, now, around), |t0.base.children|;
            var lastSeen := if t0.consumed && WorkingVolume(t0.base) == 0 then 0 else t0.base.lastActiveSeq;
            var due := now >= Deadline(t0.startNs, t0.intervalNs, k);
            && (if CanStart(t0, around) then SentWithin(t0.base, lastSeen, t0.slices[k], due, around, r.sent)
                else r.sent.None?)
            && (around.parentBooked ==> Enters(MarkCancels(t0.base.children, around.cancels), r.twap.base.children,
                                               r.sent))
            && (r.twap.base.failed <==>
                t0.base.failed || !around.parentBooked
                || (CanStart(t0, around) && FirstIsRefused(t0.base, lastSeen, t0.slices[k], due, around)))
  {
    hide Paced, WorkingVolume, Publish, FinalizeIfIdle, PublishUnlessTerminal, TwapServe, AdvanceSlice, Refresh,
      Deadline, SubmitPrice;
    var t1 := t0.(base := Refresh(t0.base, around));
    RefreshKeepsPace(t0, around);
    RefreshedFlags(t0, around);
    AdvanceKeepsPace(t1);
    AdvanceDecides(t1);
    var t := AdvanceSlice(t1);
    Publishes(t.base);
    Publishes(t.base.(terminal := true));
    Publishes(t1.base.(terminal := true));
    FinalizingKeepsFailure(t.base);
    SamePrice(t0.base, t.base, around.market);
    SubmitPriceIsPriced(t0.base, around.market);
    if t.index < |t.slices| && around.parentBooked && !t0.base.failed && around.cancels == {} {
      SliceIsPositive(t);
      ServeDecides(t, now, around);
      DecidesAlike(t0.base, t.base, around);
    } else if around.parentBooked {
      PaceEnds(t);
    }
    hide SentWithin, FirstIsRefused;
  }

  lemma RefreshedFlags(t: Twap, around: Surroundings)
    requires Paced(t)
    ensures var s := Refresh(t.base, around);
            && WorkingVolume(s) == WorkingVolume(t.base) && s.lastActiveSeq == t.base.lastActiveSeq
            && (s.failed <==> t.base.failed || !around.parentBooked) && SameOrder(t.base, s)
            && (around.parentBooked ==> s.terminal == t.base.terminal && (s.cancelRequested <==> around.cancels != {}))
            && |s.children| == |t.base.children|
            && (around.parentBooked ==> s.children == MarkCancels(t.base.children, around.cancels))
  {
    hide Sum, SeqSum, Deadline, MarkCancels;
    RefreshedVolumes(t.base, around);
    var c, c' := t.base.children, Refresh(t.base, around).children;
    assert |c'| == |c'.Keys| == |c.Keys| == |c|;
  }

  lemma AdvanceDecides(t: Twap)
    requires Paced(t)
    ensures var u, steps := AdvanceSlice(t), t.consumed && WorkingVolume(t.base) == 0;
            && SamePlan(t, u) && u.base.children == t.base.children
            && u.base.failed == t.base.failed && u.base.terminal == t.base.terminal
            && u.base.cancelRequested == t.base.cancelRequested
            && u.base.lastActiveSeq == (if steps then 0 else t.base.lastActiveSeq)
            && (u.consumed <==> t.consumed && !steps)
            && u.index == (if steps then t.index + 1 else t.index) <= |t.slices|
            && |t.base.children| == t.index + (if t.consumed then 1 else 0) <= |t.slices|
  {
    hide Sum, SeqSum, Conserving, Deadline, WorkingVolume;
  }

  lemma PaceEnds(t: Twap)
    requires Paced(t)
    ensures t.index == |t.slices| ==> |t.base.children| == |t.slices|
  {
    hide Sum, SeqSum, Conserving, Deadline;
  }

  lemma FinalizingKeepsFailure(s: Session)
    ensures PublishUnlessTerminal(FinalizeIfIdle(s)).failed == s.failed
    ensures PublishUnlessTerminal(FinalizeIfIdle(s)).children == s.children
  {
    hide ViewOf, WorkingVolume, RemainingTarget;
  }

  lemma DecidesAlike(s: Session, s': Session, around: Surroundings)
    requires SameOrder(s, s')
    ensures forall seen: uint64, most: nat, passive: bool, sent: Option<Submission> ::
              SentWithin(s', seen, most, passive, around, sent) == SentWithin(s, seen, most, passive, around, sent)
    ensures forall seen: uint64, most: nat, passive: bool ::
              FirstIsRefused(s', seen, most, passive, around) == FirstIsRefused(s, seen, most, passive, around)
  {
  }

  // ---------- Prices over runs ----------

  lemma SentAtPrice(s: Session, volume: uint64, price: uint64, active: bool, route: Option<OrderId>)
    ensures var b := SubmitChild(s, volume, price, active, route); b.sent.Some? ==> b.sent.value.price == price > 0
  {
    hide Publish;
  }

  lemma AttemptedAtPrice(s: Session, price: uint64, budget: uint64, around: Surroundings)
    ensures var a := ActiveAttempt(s, price, budget, around); a.sent.Some? ==> a.sent.value.price == price > 0
  {
    hide SubmitChild;
    if around.market.Some? {
      SentAtPrice(s.(lastActiveSeq := around.market.value.publishSeq), around.decision.volume, price, true,
                  around.activeRoute);
    }
  }

  lemma SequentialSentIsPriced(s0: Session, clip: uint64, around: Surroundings)
    ensures var sent := SequentialTick(s0, clip, around).sent; sent.Some? ==>
            Priced(s0, around.market, sent.value.price)
  {
    hide WorkingVolume, Schedulable, Refresh, ActiveAttempt, SubmitChild, Publish, FinalizeIfIdle, SubmitPrice;
    var s := Refresh(s0, around);
    SubmitPriceIsPriced(s0, around.market);
    SamePrice(s0, s, around.market);
    var price := SubmitPrice(s, around.market);
    if price.Some? {
      var budget := Min(clip, Schedulable(s));
      AttemptedAtPrice(s, price.value, budget, around);
      SentAtPrice(ActiveAttempt(s, price.value, budget, around).session, budget, price.value, false,
                  around.passiveRoute);
    }
  }

  lemma ReleasedAtPrice(t: Twap, now: uint64, price: uint64, around: Surroundings)
    requires t.index < |t.slices|
    ensures var sent := TwapRelease(t, now, price, around).sent; sent.Some? ==> sent.value.price == price > 0
  {
    hide Schedulable, ActiveAttempt, SubmitChild;
    var budget := Min(t.slices[t.index], Schedulable(t.base));
    AttemptedAtPrice(t.base, price, budget, around);
    var a := if t.consumed then TickResult(t.base, None) else ActiveAttempt(t.base, price, budget, around);
    SentAtPrice(a.session, budget, price, false, around.passiveRoute);
  }

  lemma TwapSentIsPriced(t0: Twap, now: uint64, around: Surroundings)
    ensures var sent := TwapTick(t0, now, around).sent; sent.Some? ==> Priced(t0.base, around.market, sent.value.price)
  {
    hide WorkingVolume, Schedulable, Refresh, AdvanceSlice, TwapRelease, TwapClose, Publish, FinalizeIfIdle,
      SubmitPrice;
    var t := AdvanceSlice(t0.(base := Refresh(t0.base, around)));
    SubmitPriceIsPriced(t0.base, around.market);
    SamePrice(t0.base, t.base, around.market);
    var price := SubmitPrice(t.base, around.market);
    if price.Some? && t.index < |t.slices| {
      ReleasedAtPrice(t, now, price.value, around);
    }
  }

  /** A child that a tick of a run sends carries the market's valid price if there is one at that tick, and otherwise
      falling back is allowed and it carries the parent's price, which is not zero. */
  ghost predicate SentPriced(sent: Option<Submission>, market: Option<MarketView>, orderPrice: uint64,
                             allowFallback: bool)
  {
    sent.Some? ==>
      if market.Some? && market.value.price.Some? && market.value.price.value > 0
      then sent.value.price == market.value.price.value
      else allowFallback && sent.value.price == orderPrice > 0
  }

  /** Main result: over every run of any session from its start every child is priced so. In particular, with falling
      back off and no valid market price no tick sends. */
  lemma EveryChildIsPriced(
    target: uint64, orderPrice: uint64, allowFallback: bool, hasActive: bool, clip: uint64,
    slices: seq<uint64>, startNs: uint64, intervalNs: uint64, events: seq<Event>, now: uint64, around: Surroundings)
    ensures var s := Start(target, orderPrice, allowFallback, hasActive);
            && SentPriced(SequentialTick(RunSequential(s, clip, events), clip, around).sent,
                          around.market, orderPrice, allowFallback)
            && SentPriced(TwapTick(RunTwap(StartTwap(s, slices, startNs, intervalNs), events), now, around).sent,
                          around.market, orderPrice, allowFallback)
  {
    var s := Start(target, orderPrice, allowFallback, hasActive);
    var t := StartTwap(s, slices, startNs, intervalNs);
    TargetIsFixed(s, t, clip, events);
    SequentialSentIsPriced(RunSequential(s, clip, events), clip, around);
    TwapSentIsPriced(RunTwap(t, events), now, around);
    hide SequentialTick, TwapTick, RunSequential, RunTwap;
  }
}
