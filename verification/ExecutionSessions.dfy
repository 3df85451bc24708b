/** The execution session objects, updated in place as the service does, each method proved against its function in
    module ExecutionModel. */
module ExecutionSessions {
  import opened Integers
  import opened OrderTypes
  import opened Sums
  import opened TwapPlan
  import opened ExecutionModel

  /** The ledger, budget and submission logic that all algorithms share. */
  class ExecutionSession {
    const target: uint64
    const orderPrice: uint64
    const allowFallback: bool
    const hasActive: bool
    var children: map<OrderId, Ledger>
    var cancelRequested: bool
    var failed: bool
    var terminal: bool
    var lastActiveSeq: uint64
    var view: Option<ParentView>

    ghost function Model(): Session
      reads this
    {
      Session(target, orderPrice, allowFallback, hasActive, children, cancelRequested, failed, terminal, lastActiveSeq,
              view)
    }

    constructor (target: uint64, orderPrice: uint64, allowFallback: bool, hasActive: bool)
      ensures Model() == Start(target, orderPrice, allowFallback, hasActive)
    {
      this.target, this.orderPrice, this.allowFallback, this.hasActive := target, orderPrice, allowFallback, hasActive;
      children, cancelRequested, failed, terminal, lastActiveSeq, view := map[], false, false, false, 0, None;
    }

    method GetTraded() returns (volume: uint64)
      ensures volume == TradedVolume(Model())
    {
      volume := SaturatingTotal(Traded(children));
    }

    method GetWorking() returns (volume: uint64)
      ensures volume == WorkingVolume(Model())
    {
      volume := SaturatingTotal(Open(children));
    }

    method GetRemainingTarget() returns (volume: uint64)
      ensures volume == RemainingTarget(Model())
    {
      var traded := GetTraded();
      if traded >= target {
        return 0;
      }
      volume := target - traded;
    }

    method GetSchedulable() returns (volume: uint64)
      ensures volume == Schedulable(Model())
    {
      var remaining := GetRemainingTarget();
      var working := GetWorking();
      if working >= remaining {
        return 0;
      }
      volume := remaining - working;
    }

    method HasWorkingChildren() returns (b: bool)
      ensures b == (WorkingVolume(Model()) > 0)
    {
      var working := GetWorking();
      b := working > 0;
    }

    /** Writes the parent's mirror; the book refuses it once the parent is gone. */
    method SyncParentView(booked: bool)
      modifies this
      ensures Model() == if booked then Publish(old(Model())) else old(Model())
    {
      var working := GetWorking();
      var schedulable := GetSchedulable();
      var traded := GetTraded();
      var value := SaturatingTotal(Values(children));
      var fee := SaturatingTotal(Fees(children));
      if booked {
        var state := StateOf(Session(target, orderPrice, allowFallback, hasActive, children,
                                     cancelRequested, failed, terminal, lastActiveSeq, view));
        view := Some(ParentView(state, target, working, schedulable, traded, value, fee));
      }
    }

    method OnTradeResponse(r: TradeResponse) returns (finalized: bool)
      modifies this
      ensures Model() == ExecutionModel.OnTradeResponse(old(Model()), r)
      ensures finalized == Finalizes(old(Model()), r)
    {
      finalized := false;
      if r.orderId !in children || children[r.orderId].finalized {
        return;
      }
      var ledger := children[r.orderId];
      if r.volume > 0 {
        ledger := ledger.(traded := Min(ledger.entrust, WrapAdd(ledger.traded, r.volume)),
                          value := SaturatingAdd(ledger.value, r.value),
                          fee := SaturatingAdd(ledger.fee, r.fee));
      }
      ledger := ledger.(state := r.newState);
      if r.newState == OrderState.Finished {
        finalized := true;
        FinalizeFinishedChild(r.orderId, ledger, r.cancelled);
      } else if IsFailure(r.newState) {
        finalized := true;
        children := children[r.orderId := ledger.(cancelled := Unresolved(ledger), finalized := true)];
        failed := true;
      } else {
        children := children[r.orderId := ledger];
      }
    }

    method FinalizeFinishedChild(id: OrderId, ledger: Ledger, cancelled: uint64)
      modifies this
      ensures children == old(children)[id := FinishChild(ledger, cancelled)]
      ensures lastActiveSeq == if cancelRequested && WorkingVolume(Model()) == 0 then 0 else old(lastActiveSeq)
      ensures cancelRequested == old(cancelRequested) && failed == old(failed) && terminal == old(terminal)
              && view == old(view)
    {
      var unresolvedBefore := Unresolved(ledger);
      var finalCancelled: uint64;
      if cancelled > 0 {
        var most := if ledger.traded >= ledger.entrust then 0 else ledger.entrust - ledger.traded;
        finalCancelled := Min(cancelled, most);
      } else if unresolvedBefore == 0 {
        finalCancelled := 0;
      } else {
        finalCancelled := unresolvedBefore;
      }
      children := children[id := ledger.(cancelled := finalCancelled, finalized := true)];
      var working := HasWorkingChildren();
      if cancelRequested && !working {
        lastActiveSeq := 0;
      }
    }

    method RefreshParentState(around: Surroundings)
      modifies this
      ensures Model() == Refresh(old(Model()), around)
    {
      if !around.parentBooked {
        failed, terminal := true, true;
        return;
      }
      cancelRequested := false;
      ghost var seen: set<OrderId> := {};
      var related := around.cancels;
      MarkNone(children);
      while related != {}
        invariant related + seen == around.cancels
        invariant children == MarkCancels(old(children), seen)
        invariant cancelRequested == (seen != {})
        invariant Model() == old(Model()).(cancelRequested := cancelRequested, children := children)
        decreases related
      {
        hide MarkCancels;
        var id :| id in related;
        cancelRequested := true;
        MarkOneMore(old(children), seen, id);
        if id in children {
          children := children[id := children[id].(cancelRequested := true)];
        }
        seen := seen + {id};
        related := related - {id};
      }
    }

    static lemma MarkNone(c: map<OrderId, Ledger>)
      ensures MarkCancels(c, {}) == c
    {
    }

    static lemma MarkOneMore(c: map<OrderId, Ledger>, seen: set<OrderId>, id: OrderId)
      ensures MarkCancels(c, seen).Keys == c.Keys
      ensures MarkCancels(c, seen + {id})
              == if id in c then MarkCancels(c, seen)[id := MarkCancels(c, seen)[id].(cancelRequested := true)]
                else MarkCancels(c, seen)
    {
    }

    method SubmitChild(volume: uint64, price: uint64, active: bool,
                       route: Option<OrderId>) returns (sent: Option<Submission>)
      modifies this
      ensures TickResult(Model(), sent) == ExecutionModel.SubmitChild(old(Model()), volume, price, active, route)
    {
      if volume == 0 || price == 0 {
        return None;
      }
      match route
      case None =>
        failed, terminal := true, true;
        SyncParentView(true);
        sent := None;
      case Some(id) =>
        if id !in children {
          children := children[id := NewLedger(volume, price)];
        }
        sent := Some(Submission(id, volume, price, active));
    }

    method TryActiveSubmit(market: MarketView, price: uint64, budget: uint64,
                           around: Surroundings) returns (sent: Option<Submission>)
      modifies this
      ensures TickResult(Model(), sent) == ExecutionModel.TryActiveSubmit(old(Model()), market, price, budget, around)
    {
      if !hasActive || budget == 0 {
        return None;
      }
      if !market.isFresh {
        return None;
      }
      if market.publishSeq == lastActiveSeq {
        return None;
      }
      var decision := around.decision;
      lastActiveSeq := market.publishSeq;
      if !decision.shouldSubmit || decision.volume == 0 || decision.volume > budget {
        return None;
      }
      sent := SubmitChild(decision.volume, price, true, around.activeRoute);
    }

    method ResolveSubmitPrice(market: Option<MarketView>) returns (price: Option<uint64>)
      ensures price == SubmitPrice(Model(), market)
    {
      if market.Some? {
        if market.value.price.Some? && market.value.price.value != 0 {
          return market.value.price;
        }
        if !allowFallback {
          return None;
        }
      } else if !allowFallback {
        return None;
      }
      if orderPrice == 0 {
        return None;
      }
      price := Some(orderPrice);
    }

    method FinalizeParentIfIdle()
      modifies this
      ensures Model() == FinalizeIfIdle(old(Model()))
    {
      if failed {
        terminal := true;
        SyncParentView(true);
        return;
      }
      var working := HasWorkingChildren();
      if cancelRequested && !working {
        terminal := true;
        SyncParentView(true);
        return;
      }
      var remaining := GetRemainingTarget();
      if remaining == 0 && !working {
        terminal := true;
        SyncParentView(true);
      }
    }
  }

  /** FixedSize and Iceberg: one clip at a time. */
  class SequentialClipSession {
    const base: ExecutionSession
    const clip: uint64

    constructor (target: uint64, orderPrice: uint64, allowFallback: bool, hasActive: bool, config: SplitConfig)
      ensures base.Model() == Start(target, orderPrice, allowFallback, hasActive) && fresh(base)
      ensures clip == ResolveClipVolume(config) && clip > 0
    {
      base := new ExecutionSession(target, orderPrice, allowFallback, hasActive);
      clip := ResolveClipVolume(config);
    }

    method OnTradeResponse(r: TradeResponse)
      modifies base
      ensures base.Model() == ExecutionModel.OnTradeResponse(old(base.Model()), r)
    {
      var _ := base.OnTradeResponse(r);
    }

    method Tick(around: Surroundings) returns (sent: Option<Submission>)
      modifies base
      ensures TickResult(base.Model(), sent) == SequentialTick(old(base.Model()), clip, around)
    {
      hide WorkingVolume, Schedulable, ExecutionModel.TryActiveSubmit, ExecutionModel.SubmitChild, SubmitPrice,
        FinalizeIfIdle, ViewOf, MarkCancels;
      sent := None;
      base.RefreshParentState(around);
      if !around.parentBooked {
        base.SyncParentView(false);
        return;
      }
      if base.failed {
        base.terminal := true;
        base.SyncParentView(true);
        return;
      }
      var working := base.HasWorkingChildren();
      if working {
        base.SyncParentView(true);
        return;
      }
      if base.cancelRequested {
        base.terminal := true;
        base.SyncParentView(true);
        return;
      }
      var schedulable := base.GetSchedulable();
      var budget := Min(clip, schedulable);
      if budget == 0 {
        base.FinalizeParentIfIdle();
        if !base.terminal {
          base.SyncParentView(true);
        }
        return;
      }
      var price := base.ResolveSubmitPrice(around.market);
      if price.None? {
        base.SyncParentView(true);
        return;
      }
      if around.market.Some? {
        sent := base.TryActiveSubmit(around.market.value, price.value, budget, around);
      }
      if sent.None? {
        sent := base.SubmitChild(budget, price.value, false, around.passiveRoute);
      }
      base.SyncParentView(true);
    }
  }

  /** TWAP: the active strategy may serve a slice early; otherwise the slice is sent at its deadline. */
  class TwapSession {
    const base: ExecutionSession
    const slices: seq<uint64>
    const startNs: uint64
    const intervalNs: uint64
    const valid: bool
    var deadlineNs: uint64
    var index: nat
    var consumed: bool

    ghost function Model(): Twap
      reads this, base
    {
      Twap(base.Model(), slices, startNs, intervalNs, deadlineNs, index, consumed)
    }

    constructor (target: uint64, orderPrice: uint64, allowFallback: bool, hasActive: bool, config: SplitConfig,
                 startNs: uint64)
      ensures fresh(base) && index == 0 && !consumed && deadlineNs == startNs == this.startNs
      ensures base.Model() == Start(target, orderPrice, allowFallback, hasActive)
      ensures intervalNs == config.intervalMs * 1_000_000
      ensures valid <==> config.intervalMs != 0 && target != 0 && config.maxChildCount != 0
      ensures valid ==> SeqSum(slices) == target && AllPositive(slices)
                        && |slices| == PlannedCount(target, ResolveClipVolume(config), config.maxChildCount)
      ensures valid ==> Model() == StartTwap(base.Model(), slices, startNs, intervalNs)
    {
      base := new ExecutionSession(target, orderPrice, allowFallback, hasActive);
      this.startNs, intervalNs, deadlineNs := startNs, config.intervalMs * 1_000_000, startNs;
      index, consumed := 0, false;
      var ok, plan := BuildSlicePlan(target, config);
      slices := plan;
      valid := config.intervalMs * 1_000_000 != 0 && ok;
    }

    method AdvanceSliceIfReady()
      modifies this, base
      ensures Model() == AdvanceSlice(old(Model()))
    {
      var working := base.HasWorkingChildren();
      if !consumed || working {
        return;
      }
      if index < |slices| {
        index := index + 1;
      }
      consumed := false;
      base.lastActiveSeq := 0;
      deadlineNs := Deadline(startNs, intervalNs, index);
    }

    method OnTradeResponse(r: TradeResponse)
      modifies this, base
      ensures Model() == TwapOnTradeResponse(old(Model()), r)
    {
      hide ExecutionModel.OnTradeResponse, AdvanceSlice, Finalizes;
      var finalized := base.OnTradeResponse(r);
      if finalized {
        AdvanceSliceIfReady();
      }
    }

    method Tick(now: uint64, around: Surroundings) returns (sent: Option<Submission>)
      modifies this, base
      ensures TwapTickResult(Model(), sent) == TwapTick(old(Model()), now, around)
    {
      hide WorkingVolume, AdvanceSlice, TwapServe, FinalizeIfIdle, ViewOf, MarkCancels;
      sent := None;
      base.RefreshParentState(around);
      if !around.parentBooked {
        base.SyncParentView(false);
        return;
      }
      if base.failed {
        base.terminal := true;
        base.SyncParentView(true);
        return;
      }
      AdvanceSliceIfReady();
      if index >= |slices| {
        var working := base.HasWorkingChildren();
        if !working {
          base.terminal := true;
        }
        base.SyncParentView(true);
        return;
      }
      if base.cancelRequested {
        base.FinalizeParentIfIdle();
        if !base.terminal {
          base.SyncParentView(true);
        }
        return;
      }
      sent := Serve(now, around);
    }

    method Serve(now: uint64, around: Surroundings) returns (sent: Option<Submission>)
      requires index < |slices|
      modifies this, base
      ensures TwapTickResult(Model(), sent) == TwapServe(old(Model()), now, around)
    {
      hide WorkingVolume, Schedulable, TwapRelease, TwapClose, SubmitPrice, ViewOf;
      sent := None;
      var schedulable := base.GetSchedulable();
      var budget := Min(slices[index], schedulable);
      if budget > 0 {
        var price := base.ResolveSubmitPrice(around.market);
        if price.None? {
          base.SyncParentView(true);
          return;
        }
        sent := Release(now, budget, price.value, around);
      }
      Close();
    }

    method Release(now: uint64, budget: uint64, price: uint64, around: Surroundings) returns (sent: Option<Submission>)
      requires index < |slices| && budget == Min(slices[index], Schedulable(base.Model()))
      modifies this, base
      ensures TwapTickResult(Model(), sent) == TwapRelease(old(Model()), now, price, around)
    {
      hide Schedulable, ExecutionModel.TryActiveSubmit, ExecutionModel.SubmitChild;
      sent := None;
      if !consumed && around.market.Some? {
        sent := base.TryActiveSubmit(around.market.value, price, budget, around);
        consumed := sent.Some?;
      }
      if !consumed && now >= deadlineNs {
        sent := base.SubmitChild(budget, price, false, around.passiveRoute);
        consumed := sent.Some?;
      }
    }

    method Close()
      modifies this, base
      ensures Model() == TwapClose(old(Model()))
    {
      hide WorkingVolume, AdvanceSlice, ViewOf;
      AdvanceSliceIfReady();
      if index >= |slices| {
        var working := base.HasWorkingChildren();
        if !working {
          base.terminal := true;
        }
      }
      if !base.terminal {
        base.SyncParentView(true);
      }
    }
  }
}
