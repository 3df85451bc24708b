/** Orders that ended leave the book: each waits for its deadline, whatever else happens, and the first sweep from then
    on archives it (src/core/event_loop.cpp). */
module Archiving {
  import opened Integers
  import opened OrderTypes
  import opened OrderBookModel
  import opened OrderEffects
  import opened OrderRouter
  import opened SessionActions
  import opened EventLoopModel

  lemma DispatchIsSteady(r: Routing, e: Entry, a: Attempt, now: uint64, id: OrderId)
    requires id in r.book.entries && (e.isSplitChild && e.parent != 0 ==> e.parent != id)
    ensures Steady(r.book, Dispatch(r, e, a, now).routing.book, id)
  {
    hide Add, UpdateState, Steady;
    if a.slot.None? || !CanAdd(r.book, e.id) {
      SameIsSteady(r.book, id);
    } else {
      var e' := e.(slotIndex := a.slot.value);
      var b1, state := Add(r.book, e', now), if a.pushed then TraderSubmitted else TraderError;
      AddIsSteady(r.book, e', now, id);
      MarkIsSteady(b1, e.id, state, now, id);
      SteadyChains(r.book, b1, UpdateState(b1, e.id, state, now), id);
    }
  }

  lemma CancelChildIsSteady(f: FanOut, orig: OrderId, cancelId: OrderId, child: OrderId, a: Attempt, now: uint64,
                            id: OrderId)
    requires id in f.routing.book.entries && orig != id
    ensures Steady(f.routing.book, CancelChild(f, orig, cancelId, child, a, now).routing.book, id)
  {
    hide Steady, Dispatch;
    if Live(f.routing.book.entries, child) {
      var x := if f.used then f.routing.nextOrderId else cancelId;
      var r := if f.used then f.routing.(nextOrderId := Following(f.routing.nextOrderId)) else f.routing;
      DispatchIsSteady(r, CancelEntry(x, child, orig, now), a, now, id);
    } else {
      SameIsSteady(f.routing.book, id);
    }
  }

  lemma {:induction false} CancelChildrenIsSteady(
    r: Routing, orig: OrderId, cancelId: OrderId, ids: seq<OrderId>, luck: nat -> Attempt, now: uint64, id: OrderId)
    requires id in r.book.entries && id !in r.book.children && orig != id
    ensures Steady(r.book, CancelChildren(r, orig, cancelId, ids, luck, now).routing.book, id)
    decreases |ids|
  {
    hide CancelChild;
    if ids != [] {
      var n := |ids| - 1;
      var f := CancelChildren(r, orig, cancelId, ids[..n], luck, now);
      CancelChildrenIsSteady(r, orig, cancelId, ids[..n], luck, now, id);
      CancelChildIsSteady(f, orig, cancelId, ids[n], luck(n), now, id);
      SteadyChains(r.book, f.routing.book, CancelChild(f, orig, cancelId, ids[n], luck(n), now).routing.book, id);
    }
  }

  /** A cancel changes the state of no order that is nobody's parent, not even of the one it aims at. */
  lemma RoutedCancelIsSteady(r: Routing, orig: OrderId, cancelId: OrderId, luck: nat -> Attempt, now: uint64,
                             id: OrderId)
    requires id in r.book.entries && id !in r.book.children
    ensures Steady(r.book, RoutedCancel(r, orig, cancelId, luck, now).routing.book, id)
  {
    hide CancelChildren, Dispatch, UpdateState;
    var ids := ChildrenOf(r.book, orig);
    if ids == [] {
      DispatchIsSteady(r, CancelEntry(cancelId, orig, 0, now), luck(0), now, id);
    } else {
      CancelChildrenIsSteady(r, orig, cancelId, ids, luck, now, id);
      var f := CancelChildren(r, orig, cancelId, ids, luck, now);
      MarkIsSteady(f.routing.book, orig, TraderError, now, id);
      SteadyChains(r.book, f.routing.book, UpdateState(f.routing.book, orig, TraderError, now), id);
    }
  }

  lemma RoutedNewIsSteady(r: Routing, x: OrderId, slot: uint32, pushed: bool, now: uint64, id: OrderId)
    requires x != id
    ensures Steady(r.book, RoutedNew(r, x, slot, pushed, now).routing.book, id)
  {
    hide UpdateState, Steady;
    MarkIsSteady(r.book, x, TraderError, now, id);
    MarkIsSteady(r.book, x, TraderSubmitted, now, id);
  }

  lemma ActIsSteady(r: Routing, parent: OrderId, action: Action, now: uint64, id: OrderId)
    requires id in r.book.entries && parent != id
    ensures Steady(r.book, Act(r, parent, action, now).book, id)
  {
    hide Dispatch;
    match action
    case WriteMirror(view, state) =>
    case SubmitChild(e, attempt) =>
      var child := ChildOf(e, parent);
      var submitNs := if child.submitNs == 0 then now else child.submitNs;
      var e' := child.(id := r.nextOrderId, submitNs := submitNs,
                       updatedNs := if child.updatedNs == 0 then submitNs else child.updatedNs, state := TraderPending);
      DispatchIsSteady(r.(nextOrderId := Following(r.nextOrderId)), e', Attempt(attempt.slot, attempt.pushed), now, id);
  }

  // ---------- The loop ----------

  /** An order that ended, is nobody's parent, and is to be archived from its deadline on. */
  ghost predicate Waits(l: Loop, id: OrderId, deadline: uint64) {
    && Ended(l, id) && id !in l.routing.book.children
    && id in l.pending && l.pending[id] == deadline
  }

  /** From one state to the next the order stays booked, in its state, and nobody's parent, and keeps its deadline. */
  ghost predicate Spared(l: Loop, l': Loop, id: OrderId) {
    && (id in l.routing.book.entries && id !in l.routing.book.children ==>
          && id in l'.routing.book.entries && id !in l'.routing.book.children
          && l'.routing.book.entries[id].state == l.routing.book.entries[id].state)
    && (id in l.pending ==> id in l'.pending && l'.pending[id] == l.pending[id])
  }

  lemma MarkSpares(l: Loop, x: OrderId, state: OrderState, now: uint64, id: OrderId)
    requires x != id
    ensures Spared(l, Mark(l, x, state, now), id)
  {
    hide UpdateState;
    MarkIsSteady(l.routing.book, x, state, now, id);
  }

  lemma PutSpares(l: Loop, x: OrderId, s: Settled, id: OrderId)
    requires x != id
    ensures Spared(l, Put(l, x, s), id)
  {
  }

  lemma ReleaseSpares(l: Loop, x: OrderId, id: OrderId)
    ensures Spared(l, ReleaseOf(l, x), id)
  {
    ReleaseOfKeepsState(l, x);
  }

  lemma RouteSpares(l: Loop, x: OrderId, s: Surroundings, now: uint64, id: OrderId)
    requires x in l.routing.book.entries && x != id && id in l.routing.book.entries && id !in l.routing.book.children
    ensures Spared(l, Route(l, x, s, now), id)
  {
    hide RoutedCancel, RoutedNew, ReleaseOf, Mark;
    var e := l.routing.book.entries[x];
    RoutedCancelIsSteady(l.routing, e.origId, x, s.luck, now, id);
    RoutedNewIsSteady(l.routing, x, e.slotIndex, s.pushed, now, id);
    var l1 := l.(routing := SentDown(l, x, s, now).routing);
    ReleaseSpares(l1, x, id);
    MarkSpares(ReleaseOf(l1, x), x, TraderError, now, id);
  }

  lemma ReserveAndRouteSpares(l: Loop, x: OrderId, s: Surroundings, now: uint64, id: OrderId)
    requires x in l.routing.book.entries && x != id && id in l.routing.book.entries && id !in l.routing.book.children
    ensures Spared(l, ReserveAndRoute(l, x, s, now), id)
  {
    hide Reserve, Route, Mark;
    var reserved := Reserve(l.routing.book.entries[x], l.fund);
    MarkSpares(l, x, RiskControllerRejected, now, id);
    PutSpares(l, x, reserved, id);
    RouteSpares(Put(l, x, reserved), x, s, now, id);
  }

  lemma ManageSpares(l: Loop, x: OrderId, start: StartResult, now: uint64, id: OrderId)
    requires x != id
    ensures Spared(l, Manage(l, x, start, now), id)
  {
    hide Mark;
    var l1 := Mark(l, x, TraderPending, now);
    MarkSpares(l, x, TraderPending, now, id);
    MarkSpares(l1, x, TraderRejected, now, id);
    MarkSpares(l1, x, TraderError, now, id);
  }

  lemma AcceptSpares(l: Loop, e: Entry, s: Surroundings, now: uint64, id: OrderId)
    requires id in l.routing.book.entries && id !in l.routing.book.children && !e.isSplitChild
    ensures Spared(l, Accept(l, e, s, now), id)
  {
    hide Add, UpdateState, Manage, ReserveAndRoute;
    if CanAdd(l.routing.book, e.id) {
      AddBooks(l.routing.book, e, now);
      var l0 := SetBook(l, Add(l.routing.book, e, now));
      AddIsSteady(l.routing.book, e, now, id);
      var l1 := Mark(l0, e.id, RiskControllerPending, now);
      StateKeepsKeys(l0.routing.book, e.id, RiskControllerPending, now);
      MarkSpares(l0, e.id, RiskControllerPending, now, id);
      MarkSpares(l1, e.id, RiskControllerRejected, now, id);
      var l2 := Mark(l1, e.id, RiskControllerAccepted, now);
      StateKeepsKeys(l1.routing.book, e.id, RiskControllerAccepted, now);
      MarkSpares(l1, e.id, RiskControllerAccepted, now, id);
      if e.kind == OrderType.New && s.riskPasses && s.managed.Some? {
        ManageSpares(l2, e.id, s.managed.value, now, id);
      } else {
        ReserveAndRouteSpares(l2, e.id, s, now, id);
      }
    }
  }

  lemma ResponseSpares(l: Loop, c: Config, r: Response, now: uint64, id: OrderId)
    requires r.id != id
    ensures Spared(l, HandleResponse(l, c, r, now), id)
  {
    hide Mark, RecordFill, ReleaseEnded, Close;
    var l1 := Mark(l, r.id, r.newState, now);
    var l2 := RecordFill(l1, r, now);
    MarkSpares(l, r.id, r.newState, now, id);
    FillSpares(l1, r, now, id);
    ReleaseEndedSpares(l2, r.id, id);
    CloseSpares(ReleaseEnded(l2, r.id), c, r, now, id);
  }

  lemma ReleaseEndedSpares(l: Loop, x: OrderId, id: OrderId)
    ensures Spared(l, ReleaseEnded(l, x), id)
  {
    ReleaseEndedKeepsState(l, x);
  }

  lemma FillSpares(l: Loop, r: Response, now: uint64, id: OrderId)
    requires r.id != id
    ensures Spared(l, RecordFill(l, r, now), id)
  {
    hide Trade, Change, Settle;
    var e := l.routing.book.entries;
    if r.id in e {
      ChangeIsSteady(l.routing.book, r.id, Trade(e[r.id], r.volume, r.price, r.value, r.fee, now),
                     l.routing.book.latched, id);
    }
  }

  lemma CloseSpares(l: Loop, c: Config, r: Response, now: uint64, id: OrderId)
    requires r.id != id
    ensures Spared(l, Close(l, c, r, now), id)
  {
  }

  /** An event that is not about the order itself: no report on it, and no session acting for it. */
  predicate Spares(e: Event, id: OrderId) {
    match e
    case Submitted(_, _, _) => true
    case Reported(r, _) => r.id != id
    case Swept(_) => true
    case Acted(parent, _, _) => parent != id
  }

  predicate DueSweep(e: Event, deadline: uint64) {
    e.Swept? && e.now >= deadline
  }

  lemma EventKeepsWaiting(l: Loop, c: Config, e: Event, id: OrderId, deadline: uint64)
    requires Waits(l, id, deadline) && Spares(e, id)
    ensures if DueSweep(e, deadline) then id !in Handle(l, c, e).routing.book.entries
            else Waits(Handle(l, c, e), id, deadline)
  {
    hide Accept, HandleResponse, Act;
    match e
    case Submitted(q, s, now) =>
      var p := Prepared(q, s, now);
      if p.Some? {
        PreparedHoldsNothing(q, s, now);
        hide Prepared;
        AcceptSpares(l, p.value, s, now, id);
      }
    case Reported(r, now) =>
      ResponseSpares(l, c, r, now, id);
    case Swept(now) =>
    case Acted(parent, action, now) =>
      ActIsSteady(l.routing, parent, action, now, id);
  }

  lemma {:induction false} RunKeepsWaiting(l: Loop, c: Config, events: seq<Event>, id: OrderId, deadline: uint64)
    requires Waits(l, id, deadline)
    requires forall k :: 0 <= k < |events| ==> Spares(events[k], id) && !DueSweep(events[k], deadline)
    ensures Waits(RunLoop(l, c, events), id, deadline)
    decreases |events|
  {
    hide Waits, Handle, Spares, DueSweep;
    if events != [] {
      EventKeepsWaiting(l, c, events[0], id, deadline);
      RunKeepsWaiting(Handle(l, c, events[0]), c, events[1..], id, deadline);
    }
  }

  /** Main result: a terminal report on an order that is nobody's parent takes it out of the book at once where
      archiving has no delay; with a delay the order stays in its terminal state through every run of events that are
      not about it, and the first sweep from the deadline on takes it out. Without archiving it stays. */
  lemma EndedOrderIsArchivedInTime(l: Loop, c: Config, r: Response, now: uint64, events: seq<Event>, later: uint64)
    requires r.id != 0 && r.id in l.routing.book.entries && IsTerminal(r.newState) && r.id !in l.routing.book.children
    requires later >= WrapAdd(now, c.delayNs)
    requires forall k :: 0 <= k < |events| ==> Spares(events[k], r.id) && !DueSweep(events[k], WrapAdd(now, c.delayNs))
    ensures var l' := HandleResponse(l, c, r, now);
            && (c.archive && c.delayNs == 0 ==> r.id !in l'.routing.book.entries)
            && (c.archive && c.delayNs > 0 ==>
                  && Ended(RunLoop(l', c, events), r.id)
                  && r.id !in ProcessArchives(RunLoop(l', c, events), later).routing.book.entries)
            && (!c.archive ==> Ended(l', r.id) && r.id !in l'.pending)
  {
    var l' := HandleResponse(l, c, r, now);
    ReportedOrderWaits(l, c, r, now);
    hide HandleResponse, Handle, RunLoop;
    if c.archive && c.delayNs > 0 {
      RunKeepsWaiting(l', c, events, r.id, WrapAdd(now, c.delayNs));
      EventKeepsWaiting(RunLoop(l', c, events), c, Swept(later), r.id, WrapAdd(now, c.delayNs));
      SweepingHandles(RunLoop(l', c, events), c, later);
    }
  }

  lemma SweepingHandles(l: Loop, c: Config, now: uint64)
    ensures Handle(l, c, Swept(now)) == ProcessArchives(l, now)
  {
    hide ProcessArchives;
  }

  lemma ReportedOrderWaits(l: Loop, c: Config, r: Response, now: uint64)
    requires r.id != 0 && r.id in l.routing.book.entries && IsTerminal(r.newState) && r.id !in l.routing.book.children
    ensures var l' := HandleResponse(l, c, r, now);
            if !c.archive then Ended(l', r.id) && r.id !in l'.pending
            else if c.delayNs == 0 then r.id !in l'.routing.book.entries
            else Waits(l', r.id, WrapAdd(now, c.delayNs))
  {
    StaysTerminal(l, r, now);
    FillKeepsKeys(l, r, now);
    var l1 := RecordFill(Mark(l, r.id, r.newState, now), r, now);
    ReleaseEndedKeepsState(l1, r.id);
    hide Mark, RecordFill, ReleaseEnded;
    assert Ended(ReleaseEnded(l1, r.id), r.id);
  }
}
