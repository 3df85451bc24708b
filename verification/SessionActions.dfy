/** What an execution session does to the order book it shares with everything else: it writes its parent's
    mirror, and it submits children of its parent (src/execution/execution_engine.cpp). What other sessions read
    of the book stays. */
module SessionActions {
  import opened Integers
  import opened OrderTypes
  import opened OrderBookModel
  import opened OrderRouter

  datatype Action =
    | WriteMirror(view: ManagedView, state: OrderState)
    | SubmitChild(entry: Entry, attempt: Attempt)

  /** A child as a session builds it: a New order of its parent, without an id, a pool slot or reserved cash. */
  function ChildOf(e: Entry, parent: OrderId): Entry {
    e.(id := 0, kind := OrderType.New, isSplitChild := true, parent := parent, fundFrozen := 0, slotIndex := U32_MAX)
  }

  function Act(r: Routing, parent: OrderId, action: Action, now: uint64): Routing {
    match action
    case WriteMirror(view, state) => r.(book := SyncManaged(r.book, parent, view, state, now))
    case SubmitChild(e, attempt) => Submitted(r, ChildOf(e, parent), attempt, now).routing
  }

  function ActAll(r: Routing, parent: OrderId, actions: seq<Action>, now: uint64): Routing {
    if actions == [] then r
    else
      var n := |actions| - 1;
      Act(ActAll(r, parent, actions[..n], now), parent, actions[n], now)
  }

  /** A child that gets a slot and a place in the book is booked under the next id as a New order of its parent that
      holds no cash, listed under it both ways, and sent, or marked as failed where the queue is full. */
  lemma ChildIsBooked(r: Routing, parent: OrderId, e: Entry, attempt: Attempt, now: uint64)
    requires parent != 0 && parent != r.nextOrderId && r.nextOrderId !in r.book.children
    requires CanAdd(r.book, r.nextOrderId) && attempt.slot.Some?
    ensures var id, r' := r.nextOrderId, Act(r, parent, SubmitChild(e, attempt), now);
            && id in r'.book.entries
            && BookedAs(e.(kind := OrderType.New, isSplitChild := true, parent := parent, fundFrozen := 0),
                        r'.book.entries[id], id, attempt.slot.value, attempt.pushed, now)
            && r'.book.children == r.book.children[parent := ChildrenOf(r.book, parent) + [id]]
            && r'.book.parentOf == r.book.parentOf[id := parent]
            && r'.queue == (if attempt.pushed then r.queue + [attempt.slot.value] else r.queue)
  {
    var child := ChildOf(e, parent);
    SubmittedIsBooked(r, child, attempt, now);
    SubmittedIsListed(r, child, attempt, now);
    hide Submitted;
  }

  lemma SubmittedIsListed(r: Routing, e: Entry, a: Attempt, now: uint64)
    requires e.id == 0 && e.slotIndex == U32_MAX && e.isSplitChild && e.parent != 0 && e.parent != r.nextOrderId
    requires CanAdd(r.book, r.nextOrderId) && a.slot.Some?
    ensures var b := Submitted(r, e, a, now).routing.book;
            && b.children == r.book.children[e.parent := ChildrenOf(r.book, e.parent) + [r.nextOrderId]]
            && b.parentOf == r.book.parentOf[r.nextOrderId := e.parent]
  {
    hide Refresh, OrderBookModel.Stored;
  }

  // ---------- What a session reads of the book ----------

  /** The orders that the booked cancels under a parent aim at. */
  function CancelsUnder(b: Book, parent: OrderId): set<OrderId> {
    set c | c in ChildrenOf(b, parent) && c in b.entries && b.entries[c].kind == OrderType.Cancel :: b.entries[c].origId
  }

  /** From one book to the next no order goes or changes its kind or target, only New orders come, and only the list of
      children of `q` changes. */
  ghost predicate Quiet(b: Book, b': Book, q: OrderId) {
    && (forall id :: id in b.entries ==>
          id in b'.entries && b'.entries[id].kind == b.entries[id].kind
            && b'.entries[id].origId == b.entries[id].origId)
    && (forall id :: id in b'.entries && id !in b.entries ==> b'.entries[id].kind == OrderType.New)
    && (forall p :: p != q ==> ChildrenOf(b', p) == ChildrenOf(b, p))
  }

  lemma QuietChains(b: Book, b': Book, b'': Book, q: OrderId)
    requires Quiet(b, b', q) && Quiet(b', b'', q)
    ensures Quiet(b, b'', q)
  {
    hide ChildrenOf;
  }

  /** A quiet change leaves what any other session reads, except that its parent may come into the book. */
  lemma QuietKeepsSight(b: Book, b': Book, q: OrderId, p: OrderId)
    requires Quiet(b, b', q) && p != q
    ensures CancelsUnder(b', p) == CancelsUnder(b, p)
    ensures p in b.entries ==> p in b'.entries
  {
    hide ChildrenOf;
  }

  lemma RefreshIsQuiet(b: Book, p: OrderId, q: OrderId)
    ensures Quiet(b, Refresh(b, p), q)
  {
    RefreshOnlyProgress(b, p);
    hide Refresh;
  }

  lemma StateIsQuiet(b: Book, id: OrderId, state: OrderState, now: uint64, q: OrderId)
    ensures Quiet(b, UpdateState(b, id, state, now), q)
  {
    hide Refresh;
    if id in b.entries {
      var latched := if state == TraderError && id in b.children && id !in b.managed then b.latched + {id}
          else b.latched;
      var b' := b.(entries := b.entries[id := b.entries[id].(state := state, updatedNs := now)], latched := latched);
      assert Quiet(b, b', q);
      if id in b.parentOf {
        RefreshIsQuiet(b', b.parentOf[id], q);
        hide Quiet;
        QuietChains(b, b', Refresh(b', b.parentOf[id]), q);
      }
    }
  }

  lemma AddIsQuiet(b: Book, e: Entry, now: uint64)
    requires e.kind == OrderType.New
    ensures Quiet(b, Add(b, e, now), e.parent)
  {
    hide Refresh, OrderBookModel.Stored;
    if CanAdd(b, e.id) {
      StoredKeepsIdentity(e, now);
      var b1 := b.(entries := b.entries[e.id := OrderBookModel.Stored(e, now)],
                   nextId := Max(b.nextId, SaturatedNextId(e.id)));
      if e.isSplitChild && e.parent != 0 {
        var b2 := b1.(children := b1.children[e.parent := ChildrenOf(b1, e.parent) + [e.id]],
                      parentOf := b1.parentOf[e.id := e.parent]);
        assert Quiet(b, b2, e.parent);
        RefreshIsQuiet(b2, e.parent, e.parent);
        hide Quiet;
        QuietChains(b, b2, Refresh(b2, e.parent), e.parent);
      }
    }
  }

  lemma DispatchIsQuiet(r: Routing, e: Entry, a: Attempt, now: uint64)
    requires e.kind == OrderType.New
    ensures Quiet(r.book, Dispatch(r, e, a, now).routing.book, e.parent)
  {
    hide Add, UpdateState, Quiet;
    if a.slot.None? || !CanAdd(r.book, e.id) {
      NothingIsQuiet(r.book, e.parent);
    } else {
      var e' := e.(slotIndex := a.slot.value);
      var b1, state := Add(r.book, e', now), if a.pushed then TraderSubmitted else TraderError;
      AddIsQuiet(r.book, e', now);
      StateIsQuiet(b1, e.id, state, now, e.parent);
      QuietChains(r.book, b1, UpdateState(b1, e.id, state, now), e.parent);
    }
  }

  lemma NothingIsQuiet(b: Book, q: OrderId)
    ensures Quiet(b, b, q)
  {
  }

  lemma SyncIsQuiet(b: Book, id: OrderId, v: ManagedView, state: OrderState, now: uint64, q: OrderId)
    ensures Quiet(b, SyncManaged(b, id, v, state, now), q)
  {
    hide Mirrored;
    if id in b.entries {
      MirrorKeepsIdentity(b.entries[id], v, state, now);
    }
  }

  lemma ActIsQuiet(r: Routing, parent: OrderId, action: Action, now: uint64)
    ensures Quiet(r.book, Act(r, parent, action, now).book, parent)
  {
    hide Quiet, Dispatch, SyncManaged;
    match action
    case WriteMirror(view, state) => SyncIsQuiet(r.book, parent, view, state, now, parent);
    case SubmitChild(e, attempt) =>
      var child := ChildOf(e, parent);
      var submitNs := if child.submitNs == 0 then now else child.submitNs;
      var e' := child.(id := r.nextOrderId, submitNs := submitNs,
                       updatedNs := if child.updatedNs == 0 then submitNs else child.updatedNs, state := TraderPending);
      DispatchIsQuiet(r.(nextOrderId := Following(r.nextOrderId)), e', Attempt(attempt.slot, attempt.pushed), now);
  }

  /** Whatever a session does, it is quiet for all sessions of other parents. */
  lemma {:induction false} ActAllIsQuiet(r: Routing, parent: OrderId, actions: seq<Action>, now: uint64)
    ensures Quiet(r.book, ActAll(r, parent, actions, now).book, parent)
    decreases |actions|
  {
    hide Quiet, Act;
    if actions == [] {
      NothingIsQuiet(r.book, parent);
    } else {
      var n := |actions| - 1;
      ActAllIsQuiet(r, parent, actions[..n], now);
      ActIsQuiet(ActAll(r, parent, actions[..n], now), parent, actions[n], now);
      QuietChains(r.book, ActAll(r, parent, actions[..n], now).book, ActAll(r, parent, actions, now).book, parent);
    }
  }
}
