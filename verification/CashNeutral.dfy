/** Book operations that move no cash: they keep every order's identity and reservation, add only orders
    that hold nothing, and change the state of named orders and of parents alone (src/order/order_book.cpp,
    src/order/order_router.cpp). */
module CashNeutral {
  import opened Integers
  import opened OrderTypes
  import opened OrderBookModel
  import opened OrderRouter
  import opened SessionActions

  const NONE: set<OrderId> := {}

  /** No booked parent, and no order the execution engine manages, holds cash. */
  ghost predicate ParentsHoldNothing(b: Book) {
    && b.managed <= b.entries.Keys
    && forall id :: id in b.entries && (id in b.children || id in b.managed) ==> b.entries[id].fundFrozen == 0
  }

  /** From one book to the next only orders of `x`, and parents, change; none changes its identity or reservation; and
      new orders hold nothing. */
  ghost predicate Neutral(b: Book, b': Book, x: set<OrderId>) {
    && ParentsHoldNothing(b')
    && b.children.Keys <= b'.children.Keys
    && (forall id :: id in b.entries ==> id in b'.entries && KeepsIdentity(b.entries[id], b'.entries[id]))
    && (forall id :: id in b.entries && id !in x && id !in b'.children && id !in b'.managed ==>
        b'.entries[id] == b.entries[id])
    && (forall id :: id in b'.entries && id !in b.entries ==> b'.entries[id].id == id && b'.entries[id].fundFrozen == 0)
    && b.managed * b.entries.Keys <= b'.managed
  }

  lemma NothingIsNeutral(b: Book, x: set<OrderId>)
    requires ParentsHoldNothing(b)
    ensures Neutral(b, b, x)
  {
  }

  lemma NeutralChains(b: Book, b': Book, b'': Book, x: set<OrderId>, y: set<OrderId>)
    requires Neutral(b, b', x) && Neutral(b', b'', y)
    ensures Neutral(b, b'', x + y)
  {
    hide ParentsHoldNothing;
  }

  /** Orders that are not booked before need not be named. */
  lemma NeutralForgets(b: Book, b': Book, x: set<OrderId>, y: set<OrderId>)
    requires Neutral(b, b', x) && x * b.entries.Keys <= y
    ensures Neutral(b, b', y)
  {
    hide ParentsHoldNothing, KeepsIdentity;
  }

  lemma RefreshIsNeutral(b: Book, p: OrderId)
    requires ParentsHoldNothing(b)
    ensures Neutral(b, Refresh(b, p), {})
  {
    RefreshOnlyProgress(b, p);
    if p !in b.children {
      assert Refresh(b, p) == b;
    }
    hide Refresh;
  }

  lemma ChangeIsNeutral(b: Book, id: OrderId, e: Entry, latched: set<OrderId>)
    requires ParentsHoldNothing(b) && id in b.entries && KeepsIdentity(b.entries[id], e)
    ensures Neutral(b, Change(b, id, e, latched), {id})
  {
    hide Refresh;
    var b' := b.(entries := b.entries[id := e], latched := latched);
    assert Neutral(b, b', {id});
    if id in b.parentOf {
      RefreshIsNeutral(b', b.parentOf[id]);
      hide Neutral;
      NeutralChains(b, b', Refresh(b', b.parentOf[id]), {id}, {});
      assert {id} + {} == {id};
    }
  }

  lemma StateIsNeutral(b: Book, id: OrderId, state: OrderState, now: uint64)
    requires ParentsHoldNothing(b)
    ensures Neutral(b, UpdateState(b, id, state, now), {id})
  {
    hide Change, Neutral;
    if id in b.entries {
      var latched := if state == TraderError && id in b.children && id !in b.managed then b.latched + {id}
          else b.latched;
      ChangeIsNeutral(b, id, b.entries[id].(state := state, updatedNs := now), latched);
    } else {
      NothingIsNeutral(b, {id});
    }
  }

  lemma TradeIsNeutral(b: Book, id: OrderId, volume: uint64, price: uint64, value: uint64, fee: uint64, now: uint64)
    requires ParentsHoldNothing(b)
    ensures Neutral(b, UpdateTrade(b, id, volume, price, value, fee, now), {id})
  {
    hide Change, Neutral, Trade;
    if id in b.entries {
      TradeKeepsIdentity(b.entries[id], volume, price, value, fee, now);
      ChangeIsNeutral(b, id, Trade(b.entries[id], volume, price, value, fee, now), b.latched);
    } else {
      NothingIsNeutral(b, {id});
    }
  }

  /** An addition lists its order, if at all, under a parent that holds nothing. */
  ghost predicate ListsUnderEmpty(b: Book, e: Entry) {
    e.isSplitChild && e.parent != 0 && e.parent in b.entries ==> b.entries[e.parent].fundFrozen == 0
  }

  lemma AddIsNeutral(b: Book, e: Entry, now: uint64)
    requires ParentsHoldNothing(b) && e.fundFrozen == 0 && ListsUnderEmpty(b, e)
    ensures Neutral(b, Add(b, e, now), {})
  {
    hide Refresh, OrderBookModel.Stored;
    if CanAdd(b, e.id) {
      StoredKeepsIdentity(e, now);
      var b1 := b.(entries := b.entries[e.id := OrderBookModel.Stored(e, now)],
                   nextId := Max(b.nextId, SaturatedNextId(e.id)));
      if e.isSplitChild && e.parent != 0 {
        var b2 := b1.(children := b1.children[e.parent := ChildrenOf(b1, e.parent) + [e.id]],
                      parentOf := b1.parentOf[e.id := e.parent]);
        assert Neutral(b, b2, {});
        RefreshIsNeutral(b2, e.parent);
        hide Neutral;
        NeutralChains(b, b2, Refresh(b2, e.parent), {}, {});
        assert NONE + NONE == NONE;
      } else {
        assert Neutral(b, b1, {});
      }
    } else {
      NothingIsNeutral(b, {});
    }
  }

  lemma ManageIsNeutral(b: Book, id: OrderId)
    requires ParentsHoldNothing(b) && (id in b.entries ==> b.entries[id].fundFrozen == 0)
    ensures Neutral(b, MarkManaged(b, id), {})
  {
  }

  lemma SyncIsNeutral(b: Book, id: OrderId, v: ManagedView, state: OrderState, now: uint64)
    requires ParentsHoldNothing(b) && (id in b.entries ==> b.entries[id].fundFrozen == 0)
    ensures Neutral(b, SyncManaged(b, id, v, state, now), {})
  {
    hide Mirrored;
    if id in b.entries {
      MirrorKeepsIdentity(b.entries[id], v, state, now);
    }
  }

  lemma DispatchIsNeutral(r: Routing, e: Entry, a: Attempt, now: uint64)
    requires ParentsHoldNothing(r.book) && e.fundFrozen == 0 && ListsUnderEmpty(r.book, e)
    ensures Neutral(r.book, Dispatch(r, e, a, now).routing.book, {})
  {
    hide Add, UpdateState, Neutral;
    if a.slot.None? || !CanAdd(r.book, e.id) {
      NothingIsNeutral(r.book, {});
    } else {
      var e' := e.(slotIndex := a.slot.value);
      var b1, state := Add(r.book, e', now), if a.pushed then TraderSubmitted else TraderError;
      AddIsNeutral(r.book, e', now);
      NeutralParents(r.book, b1, {});
      StateIsNeutral(b1, e.id, state, now);
      NeutralChains(r.book, b1, UpdateState(b1, e.id, state, now), {}, {e.id});
      NeutralForgets(r.book, UpdateState(b1, e.id, state, now), {} + {e.id}, {});
    }
  }

  lemma NeutralParents(b: Book, b': Book, x: set<OrderId>)
    requires Neutral(b, b', x)
    ensures ParentsHoldNothing(b') && b.children.Keys <= b'.children.Keys
  {
  }

  lemma CancelChildIsNeutral(f: FanOut, orig: OrderId, cancelId: OrderId, child: OrderId, a: Attempt, now: uint64)
    requires ParentsHoldNothing(f.routing.book) && orig in f.routing.book.children
    ensures Neutral(f.routing.book, CancelChild(f, orig, cancelId, child, a, now).routing.book, {})
  {
    hide Neutral, Dispatch;
    if Live(f.routing.book.entries, child) {
      var id := if f.used then f.routing.nextOrderId else cancelId;
      var r := if f.used then f.routing.(nextOrderId := Following(f.routing.nextOrderId)) else f.routing;
      DispatchIsNeutral(r, CancelEntry(id, child, orig, now), a, now);
    } else {
      NothingIsNeutral(f.routing.book, {});
    }
  }

  lemma {:induction false} CancelChildrenIsNeutral(r: Routing, orig: OrderId, cancelId: OrderId, ids: seq<OrderId>,
      luck: nat -> Attempt, now: uint64)
    requires ParentsHoldNothing(r.book) && orig in r.book.children
    ensures Neutral(r.book, CancelChildren(r, orig, cancelId, ids, luck, now).routing.book, {})
    decreases |ids|
  {
    hide Neutral, ParentsHoldNothing, CancelChild;
    if ids == [] {
      NothingIsNeutral(r.book, {});
    } else {
      var n := |ids| - 1;
      var f := CancelChildren(r, orig, cancelId, ids[..n], luck, now);
      CancelChildrenIsNeutral(r, orig, cancelId, ids[..n], luck, now);
      NeutralParents(r.book, f.routing.book, {});
      CancelChildIsNeutral(f, orig, cancelId, ids[n], luck(n), now);
      NeutralChains(r.book, f.routing.book, CancelChild(f, orig, cancelId, ids[n], luck(n), now).routing.book, {}, {});
      assert NONE + NONE == NONE;
    }
  }

  /** A cancel, fanned out or not, moves no cash. */
  lemma RoutedCancelIsNeutral(r: Routing, orig: OrderId, cancelId: OrderId, luck: nat -> Attempt, now: uint64)
    requires ParentsHoldNothing(r.book)
    ensures Neutral(r.book, RoutedCancel(r, orig, cancelId, luck, now).routing.book, {})
  {
    hide Neutral, CancelChildren, Dispatch, UpdateState;
    var ids := ChildrenOf(r.book, orig);
    if ids == [] {
      DispatchIsNeutral(r, CancelEntry(cancelId, orig, 0, now), luck(0), now);
    } else {
      CancelChildrenIsNeutral(r, orig, cancelId, ids, luck, now);
      var f := CancelChildren(r, orig, cancelId, ids, luck, now);
      NeutralParents(r.book, f.routing.book, {});
      if f.anyFailed {
        StateIsNeutral(f.routing.book, orig, TraderError, now);
        var b := UpdateState(f.routing.book, orig, TraderError, now);
        NeutralChains(r.book, f.routing.book, b, {}, {orig});
        NeutralParents(r.book, b, {} + {orig});
        ParentNeedNoName(r.book, b, orig);
      }
    }
  }

  lemma ParentNeedNoName(b: Book, b': Book, p: OrderId)
    requires Neutral(b, b', {} + {p}) && p in b.children
    ensures Neutral(b, b', {})
  {
    hide ParentsHoldNothing, KeepsIdentity;
  }

  /** What a session does for a parent it manages, or for one that has left the book, moves no cash. */
  lemma ActIsNeutral(r: Routing, parent: OrderId, action: Action, now: uint64)
    requires ParentsHoldNothing(r.book) && (parent in r.book.entries ==> parent in r.book.managed)
    ensures Neutral(r.book, Act(r, parent, action, now).book, {})
  {
    hide Neutral, Dispatch, SyncManaged;
    match action
    case WriteMirror(view, state) => SyncIsNeutral(r.book, parent, view, state, now);
    case SubmitChild(e, attempt) =>
      var child := ChildOf(e, parent);
      var submitNs := if child.submitNs == 0 then now else child.submitNs;
      var e' := child.(id := r.nextOrderId, submitNs := submitNs,
                       updatedNs := if child.updatedNs == 0 then submitNs else child.updatedNs, state := TraderPending);
      DispatchIsNeutral(r.(nextOrderId := Following(r.nextOrderId)), e', Attempt(attempt.slot, attempt.pushed), now);
  }
}
