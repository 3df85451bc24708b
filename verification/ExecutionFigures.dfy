/** What a session knows of its children is what was reported on them (src/execution/execution_engine.cpp). */
module ExecutionFigures {
  import opened Integers
  import opened OrderTypes
  import opened Sums
  import opened ExecutionModel
  import opened ExecutionConservation

  // ---------- One response ----------

  /** What a response makes of an open ledger: it counts the reported volume up to the entrusted one, and value and fee
      up to 64 bits, and shows the reported state. The child stays open, with the rest still to trade, unless it is
      reported finished or failed; then what it has not traded is cancelled, or what was reported as cancelled if that
      is less. */
  ghost predicate IsCounted(l: Ledger, l': Ledger, r: TradeResponse) {
    && (if l.traded + r.volume <= l.entrust then l'.traded == l.traded + r.volume else l'.traded == l.entrust)
    && l'.value == (if r.volume > 0 then Min(l.value + r.value, U64_MAX) else l.value)
    && l'.fee == (if r.volume > 0 then Min(l.fee + r.fee, U64_MAX) else l.fee)
    && l'.state == r.newState && l'.entrust == l.entrust && l'.price == l.price
    && (l'.finalized <==> r.newState == OrderState.Finished || IsFailure(r.newState))
    && (if !l'.finalized then l'.traded + Unresolved(l') == l.entrust
        else if r.newState == OrderState.Finished && r.cancelled > 0 then
          l'.cancelled == Min(r.cancelled, l.entrust - l'.traded)
        else l'.traded + l'.cancelled == l.entrust)
  }

  lemma RespondIsCounted(l: Ledger, r: TradeResponse)
    requires LedgerOk(l) && !l.finalized && l.traded + r.volume <= U64_MAX
    ensures IsCounted(l, Respond(l, r), r)
  {
    var filled := ApplyFill(l, r).(state := r.newState);
    assert filled.cancelled == 0 && !filled.finalized && filled.traded <= filled.entrust;
    if r.newState == OrderState.Finished {
      FinishedIsCounted(filled, r.cancelled);
    }
  }

  lemma FinishedIsCounted(l: Ledger, cancelled: uint64)
    requires LedgerOk(l) && !l.finalized
    ensures var l' := FinishChild(l, cancelled);
            && l' == l.(cancelled := l'.cancelled, finalized := true)
            && (if cancelled > 0 then l'.cancelled == Min(cancelled, l.entrust - l.traded)
                else l'.traded + l'.cancelled == l.entrust)
  {
  }

  /** A response to an open child is counted there and touches no other child; the session fails exactly if the
      child does. */
  lemma ResponseIsCounted(s: Session, r: TradeResponse)
    requires Conserving(s) && r.orderId in s.children && !s.children[r.orderId].finalized
    requires s.children[r.orderId].traded + r.volume <= U64_MAX
    ensures var s', l := OnTradeResponse(s, r), s.children[r.orderId];
            && s'.children.Keys == s.children.Keys
            && (forall id :: id in s.children && id != r.orderId ==> s'.children[id] == s.children[id])
            && (s'.failed <==> s.failed || IsFailure(r.newState))
            && IsCounted(l, s'.children[r.orderId], r)
            && s'.lastActiveSeq == (if r.newState == OrderState.Finished && s.cancelRequested && WorkingVolume(s') == 0
                                    then 0 else s.lastActiveSeq)
  {
    OpenLedger(s, r.orderId);
    RespondIsCounted(s.children[r.orderId], r);
    hide WorkingVolume, Respond, IsCounted, Conserving;
  }

  lemma OpenLedger(s: Session, id: OrderId)
    requires Conserving(s) && id in s.children
    ensures LedgerOk(s.children[id])
  {
    hide Sum, HeldBy;
  }

  // ---------- Figures over runs ----------

  /** Volume, value and fee. */
  datatype Figures = Figures(volume: nat, value: nat, fee: nat)

  const NONE: Figures := Figures(0, 0, 0)

  function Plus(a: Figures, b: Figures): Figures {
    Figures(a.volume + b.volume, a.value + b.value, a.fee + b.fee)
  }

  /** What an event reports as traded on a child that is open. */
  function Counted(s: Session, e: Event, id: OrderId): Figures {
    if e.Response? && e.response.orderId == id && id in s.children && !s.children[id].finalized && e.response.volume > 0
    then Figures(e.response.volume, e.response.value, e.response.fee)
    else NONE
  }

  /** The event does not overflow the child's traded volume. */
  predicate Fits(s: Session, e: Event, id: OrderId) {
    id in s.children ==> s.children[id].traded + Counted(s, e, id).volume <= U64_MAX
  }

  function Known(s: Session, id: OrderId): Figures {
    if id in s.children then Figures(s.children[id].traded, s.children[id].value, s.children[id].fee) else NONE
  }

  /** Children stay, with their figures; new ones have none. */
  ghost predicate Carries(c: map<OrderId, Ledger>, c': map<OrderId, Ledger>) {
    && (forall id :: id in c ==>
          && id in c' && c'[id].entrust == c[id].entrust && c'[id].traded == c[id].traded && c'[id].value == c[id].value
          && c'[id].fee == c[id].fee && c'[id].finalized == c[id].finalized && c'[id].cancelled == c[id].cancelled)
    && (forall id :: id in c' && id !in c ==> c'[id].traded == c'[id].value == c'[id].fee == 0)
  }

  lemma CarriesChains(a: map<OrderId, Ledger>, b: map<OrderId, Ledger>, c: map<OrderId, Ledger>)
    requires Carries(a, b) && Carries(b, c)
    ensures Carries(a, c)
  {
  }

  lemma RefreshCarries(s: Session, around: Surroundings)
    ensures Carries(s.children, Refresh(s, around).children)
  {
  }

  lemma SubmitCarries(s: Session, volume: uint64, price: uint64, active: bool, route: Option<OrderId>)
    ensures Carries(s.children, SubmitChild(s, volume, price, active, route).session.children)
  {
    hide ViewOf;
  }

  lemma AttemptCarries(s: Session, price: uint64, budget: uint64, around: Surroundings)
    ensures Carries(s.children, ActiveAttempt(s, price, budget, around).session.children)
  {
    hide Carries, SubmitChild;
    SameCarries(s.children);
    if around.market.Some? {
      var s' := s.(lastActiveSeq := around.market.value.publishSeq);
      SubmitCarries(s', around.decision.volume, price, true, around.activeRoute);
    }
  }

  lemma SameCarries(c: map<OrderId, Ledger>)
    ensures Carries(c, c)
  {
  }

  lemma SequentialTickCarries(s0: Session, clip: uint64, around: Surroundings)
    ensures Carries(s0.children, SequentialTick(s0, clip, around).session.children)
  {
    hide Carries, Refresh, WorkingVolume, Schedulable, RemainingTarget, ViewOf, SubmitPrice, ActiveAttempt, SubmitChild;
    RefreshCarries(s0, around);
    var s := Refresh(s0, around);
    var budget, price := Min(clip, Schedulable(s)), SubmitPrice(s, around.market);
    if price.Some? {
      var a := ActiveAttempt(s, price.value, budget, around);
      AttemptCarries(s, price.value, budget, around);
      SubmitCarries(a.session, budget, price.value, false, around.passiveRoute);
      CarriesChains(s0.children, s.children, a.session.children);
      CarriesChains(s0.children, a.session.children,
                    SubmitChild(a.session, budget, price.value, false, around.passiveRoute).session.children);
    }
  }

  lemma ReleaseCarries(t: Twap, now: uint64, price: uint64, around: Surroundings)
    requires t.index < |t.slices|
    ensures Carries(t.base.children, TwapRelease(t, now, price, around).twap.base.children)
  {
    hide Carries, Schedulable, ActiveAttempt, SubmitChild;
    var budget := Min(t.slices[t.index], Schedulable(t.base));
    SameCarries(t.base.children);
    AttemptCarries(t.base, price, budget, around);
    var a := if t.consumed then TickResult(t.base, None) else ActiveAttempt(t.base, price, budget, around);
    SubmitCarries(a.session, budget, price, false, around.passiveRoute);
    CarriesChains(t.base.children, a.session.children,
                  SubmitChild(a.session, budget, price, false, around.passiveRoute).session.children);
  }

  lemma AdvancingKeepsChildren(t: Twap)
    ensures AdvanceSlice(t).base.children == t.base.children && TwapClose(t).base.children == t.base.children
  {
    hide WorkingVolume, ViewOf;
  }

  lemma ServeCarries(t: Twap, now: uint64, around: Surroundings)
    requires t.index < |t.slices|
    ensures Carries(t.base.children, TwapServe(t, now, around).twap.base.children)
  {
    hide Carries, Schedulable, SubmitPrice, TwapRelease, TwapClose, ViewOf;
    SameCarries(t.base.children);
    AdvancingKeepsChildren(t);
    var price := SubmitPrice(t.base, around.market);
    if price.Some? {
      ReleaseCarries(t, now, price.value, around);
      AdvancingKeepsChildren(TwapRelease(t, now, price.value, around).twap);
    }
  }

  lemma TwapTickCarries(t0: Twap, now: uint64, around: Surroundings)
    ensures Carries(t0.base.children, TwapTick(t0, now, around).twap.base.children)
  {
    hide Carries, Refresh, WorkingVolume, RemainingTarget, ViewOf, AdvanceSlice, TwapServe;
    RefreshCarries(t0.base, around);
    var t1 := t0.(base := Refresh(t0.base, around));
    AdvancingKeepsChildren(t1);
    var t := AdvanceSlice(t1);
    if t.index < |t.slices| {
      ServeCarries(t, now, around);
      CarriesChains(t0.base.children, t.base.children, TwapServe(t, now, around).twap.base.children);
    }
  }

  /** The child knows exactly what it knew before and what is reported since. */
  ghost predicate KnowsMore(s: Session, s': Session, id: OrderId, f: Figures) {
    && (id in s.children ==> id in s'.children && s'.children[id].entrust == s.children[id].entrust)
    && (id in s'.children ==> s'.children[id].traded == Min(s'.children[id].entrust, Known(s, id).volume + f.volume))
    && Known(s', id).value == Cap(Known(s, id).value + f.value)
    && Known(s', id).fee == Cap(Known(s, id).fee + f.fee)
    && (id !in s'.children ==> f.volume == 0)
  }

  lemma CarriedIsKnown(s: Session, s': Session, id: OrderId)
    requires Conserving(s') && Carries(s.children, s'.children)
    ensures KnowsMore(s, s', id, NONE)
  {
    hide Sum, HeldBy;
  }

  lemma ResponseIsKnown(s: Session, r: TradeResponse, id: OrderId)
    requires Conserving(s) && Fits(s, Response(r), id)
    ensures KnowsMore(s, OnTradeResponse(s, r), id, Counted(s, Response(r), id))
  {
    if r.orderId in s.children && !s.children[r.orderId].finalized && r.orderId == id {
      ResponseIsCounted(s, r);
    }
    if id in s.children {
      OpenLedger(s, id);
    }
    hide Conserving, Respond, WorkingVolume, Unresolved, OnTradeResponse;
    if !(r.orderId == id && id in s.children && !s.children[id].finalized) {
      OtherChildStays(s, r, id);
    }
  }

  lemma OtherChildStays(s: Session, r: TradeResponse, id: OrderId)
    requires r.orderId != id || id !in s.children || s.children[id].finalized
    ensures var s' := OnTradeResponse(s, r);
            (id in s'.children <==> id in s.children) && (id in s.children ==> s'.children[id] == s.children[id])
  {
    hide Respond, WorkingVolume;
  }

  lemma KnowingChains(s: Session, s': Session, s'': Session, id: OrderId, f: Figures, g: Figures)
    requires KnowsMore(s, s', id, f) && KnowsMore(s', s'', id, g)
    ensures KnowsMore(s, s'', id, Plus(f, g))
  {
  }

  lemma NothingNew(s: Session, id: OrderId)
    requires Conserving(s)
    ensures KnowsMore(s, s, id, NONE)
  {
    SameCarries(s.children);
    CarriedIsKnown(s, s, id);
  }

  ghost function SequentialReports(s: Session, clip: uint64, events: seq<Event>, id: OrderId): Figures
    decreases |events|
  {
    if events == [] then NONE
    else Plus(Counted(s, events[0], id), SequentialReports(SequentialStep(s, clip, events[0]), clip, events[1..], id))
  }

  ghost predicate SequentialFits(s: Session, clip: uint64, events: seq<Event>, id: OrderId)
    decreases |events|
  {
    events == []
    || (Fits(s, events[0], id) && SequentialFits(SequentialStep(s, clip, events[0]), clip, events[1..], id))
  }

  ghost function TwapReports(t: Twap, events: seq<Event>, id: OrderId): Figures
    decreases |events|
  {
    if events == [] then NONE
    else Plus(Counted(t.base, events[0], id), TwapReports(TwapStep(t, events[0]), events[1..], id))
  }

  ghost predicate TwapFits(t: Twap, events: seq<Event>, id: OrderId)
    decreases |events|
  {
    events == [] || (Fits(t.base, events[0], id) && TwapFits(TwapStep(t, events[0]), events[1..], id))
  }

  lemma SequentialStepIsKnown(s: Session, clip: uint64, e: Event, id: OrderId)
    requires Conserving(s) && Fits(s, e, id)
    ensures Conserving(SequentialStep(s, clip, e))
    ensures KnowsMore(s, SequentialStep(s, clip, e), id, Counted(s, e, id))
  {
    hide Conserving, SequentialTick, OnTradeResponse, KnowsMore, Carries;
    match e
    case Tick(_, around) =>
      SequentialTickConserves(s, clip, around);
      SequentialTickCarries(s, clip, around);
      CarriedIsKnown(s, SequentialTick(s, clip, around).session, id);
    case Response(r) =>
      ResponseConserves(s, r);
      ResponseIsKnown(s, r, id);
  }

  lemma TwapStepIsKnown(t: Twap, e: Event, id: OrderId)
    requires Conserving(t.base) && Fits(t.base, e, id)
    ensures Conserving(TwapStep(t, e).base)
    ensures KnowsMore(t.base, TwapStep(t, e).base, id, Counted(t.base, e, id))
  {
    hide Conserving, TwapTick, OnTradeResponse, Carries, WorkingVolume;
    match e
    case Tick(now, around) =>
      TwapTickConserves(t, now, around);
      TwapTickCarries(t, now, around);
      CarriedIsKnown(t.base, TwapTick(t, now, around).twap.base, id);
    case Response(r) =>
      ResponseConserves(t.base, r);
      AdvanceConserves(t.(base := OnTradeResponse(t.base, r)));
      ResponseIsKnown(t.base, r, id);
  }

  lemma {:induction false} SequentialRunIsKnown(s: Session, clip: uint64, events: seq<Event>, id: OrderId)
    requires Conserving(s) && SequentialFits(s, clip, events, id)
    ensures KnowsMore(s, RunSequential(s, clip, events), id, SequentialReports(s, clip, events, id))
    decreases |events|
  {
    hide Conserving, SequentialStep, KnowsMore, Fits, Counted, Plus;
    if events == [] {
      NothingNew(s, id);
    } else {
      var s' := SequentialStep(s, clip, events[0]);
      SequentialStepIsKnown(s, clip, events[0], id);
      SequentialRunIsKnown(s', clip, events[1..], id);
      KnowingChains(s, s', RunSequential(s', clip, events[1..]), id, Counted(s, events[0], id),
                    SequentialReports(s', clip, events[1..], id));
    }
  }

  lemma {:induction false} TwapRunIsKnown(t: Twap, events: seq<Event>, id: OrderId)
    requires Conserving(t.base) && TwapFits(t, events, id)
    ensures KnowsMore(t.base, RunTwap(t, events).base, id, TwapReports(t, events, id))
    decreases |events|
  {
    hide Conserving, TwapStep, KnowsMore, Fits, Counted, Plus;
    if events == [] {
      NothingNew(t.base, id);
    } else {
      var t' := TwapStep(t, events[0]);
      TwapStepIsKnown(t, events[0], id);
      TwapRunIsKnown(t', events[1..], id);
      KnowingChains(t.base, t'.base, RunTwap(t', events[1..]).base, id, Counted(t.base, events[0], id),
                    TwapReports(t', events[1..], id));
    }
  }

  /** The child shows exactly these figures: the volume up to what it was entrusted with, value and fee up to
      64 bits. */
  predicate Shows(c: map<OrderId, Ledger>, id: OrderId, f: Figures) {
    id in c ==>
      c[id].traded == Min(c[id].entrust, f.volume) && c[id].value == Min(f.value, U64_MAX)
        && c[id].fee == Min(f.fee, U64_MAX)
  }

  /** Main result: over every run of a FixedSize, Iceberg or TWAP session from its start, each child shows exactly what
      was reported on it while it was open, as long as no report overflows its 64-bit volume. */
  lemma EveryReportIsCounted(
    target: uint64, orderPrice: uint64, allowFallback: bool, hasActive: bool, clip: uint64,
    slices: seq<uint64>, startNs: uint64, intervalNs: uint64, events: seq<Event>, id: OrderId)
    ensures var s := Start(target, orderPrice, allowFallback, hasActive);
            SequentialFits(s, clip, events, id) ==>
              Shows(RunSequential(s, clip, events).children, id, SequentialReports(s, clip, events, id))
    ensures var t := StartTwap(Start(target, orderPrice, allowFallback, hasActive), slices, startNs, intervalNs);
            TwapFits(t, events, id) ==> Shows(RunTwap(t, events).base.children, id, TwapReports(t, events, id))
  {
    var s := Start(target, orderPrice, allowFallback, hasActive);
    var t := StartTwap(s, slices, startNs, intervalNs);
    StartConserves(target, orderPrice, allowFallback, hasActive);
    hide Conserving, SequentialFits, TwapFits, RunSequential, RunTwap, SequentialReports, TwapReports;
    if SequentialFits(s, clip, events, id) {
      SequentialRunIsKnown(s, clip, events, id);
    }
    if TwapFits(t, events, id) {
      TwapRunIsKnown(t, events, id);
    }
  }
}
