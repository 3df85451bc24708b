/** The order router: it books internal orders, pushes their pool slots downstream, and fans a cancel out over the
    children of a split order (src/order/order_router.cpp). */
module OrderRouter {
  import opened Integers
  import opened OrderTypes
  import opened SecurityIdentity
  import opened OrderBookModel
  import opened OrderEffects
  import opened OrderBooks

  /** What the pool and the downstream queue answer to one attempt: a slot or none, and whether the push succeeds. */
  datatype Attempt = Attempt(slot: Option<uint32>, pushed: bool)

  /** The book, the shared id counter, and the slots pushed downstream. */
  datatype Routing = Routing(book: Book, nextOrderId: uint32, queue: seq<uint32>)

  datatype Routed = Routed(routing: Routing, ok: bool)

  function CancelEntry(id: OrderId, target: OrderId, parent: OrderId, now: uint64): Entry {
    BLANK.(id := id, kind := OrderType.Cancel, state := TraderPending, origId := target,
           isSplitChild := parent != 0, parent := parent, submitNs := now, updatedNs := now)
  }

  /** Gives an internal order a pool slot, books it, and pushes it downstream. */
  function Dispatch(r: Routing, e: Entry, a: Attempt, now: uint64): Routed {
    if a.slot.None? || !CanAdd(r.book, e.id) then Routed(r, false)
    else
      var book := Add(r.book, e.(slotIndex := a.slot.value), now);
      if a.pushed then
        Routed(r.(book := UpdateState(book, e.id, TraderSubmitted, now), queue := r.queue + [a.slot.value]), true)
      else
        Routed(r.(book := UpdateState(book, e.id, TraderError, now)), false)
  }

  /** An internal order as it is submitted: with an id and stamps of its own, and a pool slot unless it has
      one already. */
  function Submitted(r: Routing, e: Entry, a: Attempt, now: uint64): Routed {
    var id := if e.id == 0 then r.nextOrderId else e.id;
    var r' := if e.id == 0 then r.(nextOrderId := Following(r.nextOrderId)) else r;
    var submitNs := if e.submitNs == 0 then now else e.submitNs;
    var slot := if e.slotIndex == U32_MAX then a.slot else Some(e.slotIndex);
    Dispatch(r', e.(id := id, submitNs := submitNs, updatedNs := if e.updatedNs == 0 then submitNs else e.updatedNs,
                    state := TraderPending),
             Attempt(slot, a.pushed), now)
  }

  /** A booked New order that is not terminal yet. */
  predicate Live(entries: map<OrderId, Entry>, id: OrderId) {
    NewChild(entries, id) && !IsTerminal(entries[id].state)
  }

  datatype FanOut = FanOut(routing: Routing, used: bool, anySent: bool, anyFailed: bool)

  function CancelChild(f: FanOut, orig: OrderId, cancelId: OrderId, child: OrderId, a: Attempt, now: uint64): FanOut {
    if !Live(f.routing.book.entries, child) then f
    else
      var id := if f.used then f.routing.nextOrderId else cancelId;
      var r := if f.used then f.routing.(nextOrderId := Following(f.routing.nextOrderId)) else f.routing;
      var d := Dispatch(r, CancelEntry(id, child, orig, now), a, now);
      FanOut(d.routing, true, f.anySent || d.ok, f.anyFailed || !d.ok)
  }

  function CancelChildren(r: Routing, orig: OrderId, cancelId: OrderId, ids: seq<OrderId>, luck: nat -> Attempt,
                          now: uint64): FanOut
  {
    if ids == [] then FanOut(r, false, false, false)
    else
      var n := |ids| - 1;
      CancelChild(CancelChildren(r, orig, cancelId, ids[..n], luck, now), orig, cancelId, ids[n], luck(n), now)
  }

  function RoutedCancel(r: Routing, orig: OrderId, cancelId: OrderId, luck: nat -> Attempt, now: uint64): Routed {
    var ids := ChildrenOf(r.book, orig);
    if ids == [] then Dispatch(r, CancelEntry(cancelId, orig, 0, now), luck(0), now)
    else
      var f := CancelChildren(r, orig, cancelId, ids, luck, now);
      Routed(if f.anyFailed then f.routing.(book := UpdateState(f.routing.book, orig, TraderError, now)) else f.routing,
             f.anySent)
  }

  /** A New order that already has its pool slot and its place in the book goes downstream. */
  function RoutedNew(r: Routing, id: OrderId, slot: uint32, pushed: bool, now: uint64): Routed {
    if slot == U32_MAX || !pushed then Routed(r.(book := UpdateState(r.book, id, TraderError, now)), false)
    else Routed(r.(book := UpdateState(r.book, id, TraderSubmitted, now), queue := r.queue + [slot]), true)
  }

  // ---------- What the fan-out cancels ----------

  function LiveAmong(entries: map<OrderId, Entry>, ids: seq<OrderId>): seq<OrderId> {
    if ids == [] then []
    else
      var n := |ids| - 1;
      LiveAmong(entries, ids[..n]) + (if Live(entries, ids[n]) then [ids[n]] else [])
  }

  lemma {:induction false} LiveAmongExactly(entries: map<OrderId, Entry>, ids: seq<OrderId>)
    ensures forall id :: id in LiveAmong(entries, ids) <==> id in ids && Live(entries, id)
    ensures Distinct(ids) ==> Distinct(LiveAmong(entries, ids))
    ensures |LiveAmong(entries, ids)| <= |ids|
    decreases |ids|
  {
    hide Live;
    if ids != [] {
      var n := |ids| - 1;
      LiveAmongExactly(entries, ids[..n]);
      assert ids == ids[..n] + [ids[n]];
      var before := LiveAmong(entries, ids[..n]);
      if Distinct(ids) {
        assert ids[n] !in ids[..n];
        forall i | 0 <= i < |before| ensures before[i] != ids[n] {
          assert before[i] in before;
        }
      }
    }
  }

  /** The shared counter after `k` ids were taken from it. */
  function Nth(nextOrderId: uint32, k: nat): uint32 {
    if k == 0 then nextOrderId else Following(Nth(nextOrderId, k - 1))
  }

  /** The next `n` ids of the shared counter. */
  function CounterIds(nextOrderId: uint32, n: nat): (ids: seq<OrderId>)
    ensures |ids| == n
  {
    if n == 0 then [] else CounterIds(nextOrderId, n - 1) + [Nth(nextOrderId, n - 1)]
  }

  /** The ids a fan-out hands out: the given one first, then those of the shared counter. */
  function CancelIds(cancelId: OrderId, nextOrderId: uint32, n: nat): (ids: seq<OrderId>)
    ensures |ids| == n
  {
    if n == 0 then [] else [cancelId] + CounterIds(nextOrderId, n - 1)
  }

  lemma OneMoreCancelId(cancelId: OrderId, nextOrderId: uint32, n: nat)
    ensures CancelIds(cancelId, nextOrderId, n + 1)
            == CancelIds(cancelId, nextOrderId, n) + [if n == 0 then cancelId else Nth(nextOrderId, n - 1)]
  {
    if n > 0 {
      assert CounterIds(nextOrderId, n) == CounterIds(nextOrderId, n - 1) + [Nth(nextOrderId, n - 1)];
    }
  }

  /** A booked cancel of `target` under the parent, sent downstream. */
  predicate Cancels(b: Book, id: OrderId, target: OrderId, parent: OrderId) {
    && id in b.entries && id in b.parentOf && b.parentOf[id] == parent
    && var e := b.entries[id];
       e.kind == OrderType.Cancel && e.origId == target && e.isSplitChild && e.parent == parent
         && e.state == TraderSubmitted
  }

  /** Ids that are all different, and none of them zero, booked, or listed as a parent. */
  ghost predicate Fresh(b: Book, ids: seq<OrderId>) {
    && Distinct(ids)
    && (forall id :: id in ids ==> id != 0 && id !in b.entries && id !in b.children)
    && |b.entries| + |ids| <= b.capacity
  }

  lemma FreshForFewer(b: Book, ids: seq<OrderId>, id: OrderId)
    requires Fresh(b, ids + [id])
    ensures Fresh(b, ids) && id !in ids && id != 0 && id !in b.entries && id !in b.children
  {
    assert forall x :: x in ids ==> x in ids + [id];
    forall i, j | 0 <= i < j < |ids| ensures ids[i] != ids[j] {
      assert (ids + [id])[i] != (ids + [id])[j];
    }
    forall i | 0 <= i < |ids| ensures ids[i] != id {
      assert (ids + [id])[i] != (ids + [id])[|ids|];
    }
    assert id in ids + [id];
  }

  /** What the book holds once `live` children of `orig` were cancelled under `ids`: one cancel each, nothing else new,
      and no other order but the parent changed. */
  ghost predicate Cancelled(before: Book, after: Book, orig: OrderId, live: seq<OrderId>, ids: seq<OrderId>) {
    && |ids| == |live|
    && OnlyAdds(before, after, orig, ids)
    && EachCancels(after, ids, live, orig)
    && ChildrenOf(after, orig) == ChildrenOf(before, orig) + ids
  }

  ghost predicate EachCancels(after: Book, ids: seq<OrderId>, live: seq<OrderId>, orig: OrderId)
    requires |ids| == |live|
  {
    forall k :: 0 <= k < |ids| ==> Cancels(after, ids[k], live[k], orig)
  }

  /** The step from one book to the next: the cancel `id` of `target` is new, and listed under the parent. */
  ghost predicate AddsCancel(b: Book, b': Book, orig: OrderId, id: OrderId, target: OrderId) {
    && b'.capacity == b.capacity
    && b'.entries.Keys == b.entries.Keys + {id}
    && (forall x :: x in b.entries && x != orig ==> b'.entries[x] == b.entries[x])
    && Cancels(b', id, target, orig)
    && b'.children == b.children[orig := ChildrenOf(b, orig) + [id]]
    && b'.parentOf == b.parentOf[id := orig]
  }

  /** The orders of `ids` are new, and no other order but the parent changed. */
  ghost predicate OnlyAdds(before: Book, after: Book, orig: OrderId, ids: seq<OrderId>) {
    && after.capacity == before.capacity && |after.entries| == |before.entries| + |ids|
    && (forall x :: x in after.entries <==> x in before.entries || x in ids)
    && (forall x :: x in before.entries && x != orig ==> after.entries[x] == before.entries[x])
    && (forall x :: x in after.children ==> x in before.children || x == orig)
    && (forall x :: x in after.parentOf ==> x in before.parentOf || x in ids)
  }

  lemma NothingCancelled(b: Book, orig: OrderId)
    ensures Cancelled(b, b, orig, [], [])
  {
  }

  /** The step from one book to the next when a child is booked: it is new, listed under its parent, and no other order
      but the parent changed. */
  ghost predicate AddsChild(b: Book, b': Book, id: OrderId, parent: OrderId, stored: Entry) {
    && b'.capacity == b.capacity
    && b'.entries.Keys == b.entries.Keys + {id} && b'.entries[id] == stored
    && (forall x :: x in b.entries && x != parent && x != id ==> b'.entries[x] == b.entries[x])
    && b'.children == b.children[parent := ChildrenOf(b, parent) + [id]]
    && b'.parentOf == b.parentOf[id := parent]
  }

  lemma LinkingChild(b: Book, stored: Entry, nextId: uint32, e: Entry)
    requires e.isSplitChild && e.parent != 0 && e.parent != e.id
    ensures AddsChild(b, Linked(b.(entries := b.entries[e.id := stored], nextId := nextId), e), e.id, e.parent, stored)
  {
    hide Refresh;
    var b1 := b.(entries := b.entries[e.id := stored], nextId := nextId,
                 children := b.children[e.parent := ChildrenOf(b, e.parent) + [e.id]],
                 parentOf := b.parentOf[e.id := e.parent]);
    RefreshOnlyProgress(b1, e.parent);
    hide OnlyProgress;
  }

  lemma AddingChild(b: Book, e: Entry, now: uint64)
    requires CanAdd(b, e.id) && e.isSplitChild && e.parent != 0 && e.parent != e.id
    ensures AddsChild(b, Add(b, e, now), e.id, e.parent, OrderBookModel.Stored(e, now))
  {
    hide Linked, OrderBookModel.Stored, SaturatedNextId, AddsChild;
    LinkingChild(b, OrderBookModel.Stored(e, now), Max(b.nextId, SaturatedNextId(e.id)), e);
  }

  /** A change of state of an order without children touches that order and its parent only. */
  lemma MarkingState(b: Book, id: OrderId, state: OrderState, now: uint64)
    requires id in b.entries && id !in b.children && id in b.parentOf && b.parentOf[id] != id
    ensures var b' := UpdateState(b, id, state, now);
            && b' == b.(entries := b'.entries)
            && b'.entries.Keys == b.entries.Keys
            && b'.entries[id] == b.entries[id].(state := state, updatedNs := now)
            && forall x :: x in b.entries && x != b.parentOf[id] && x != id ==> b'.entries[x] == b.entries[x]
  {
    hide Refresh;
    var b1 := b.(entries := b.entries[id := b.entries[id].(state := state, updatedNs := now)]);
    RefreshOnlyProgress(b1, b.parentOf[id]);
    hide OnlyProgress;
  }

  lemma MarkingAddedCancel(b: Book, b': Book, id: OrderId, target: OrderId, parent: OrderId, stored: Entry, now: uint64)
    requires AddsChild(b, b', id, parent, stored) && id !in b.children && id !in b.entries && id != parent
    requires stored.kind == OrderType.Cancel && stored.origId == target && stored.isSplitChild
             && stored.parent == parent
    ensures AddsCancel(b, UpdateState(b', id, TraderSubmitted, now), parent, id, target)
  {
    MarkingState(b', id, TraderSubmitted, now);
    hide UpdateState, ChildrenOf;
  }

  /** One more cancel: what booking, pushing and marking it does to the book. */
  lemma DispatchBooksCancel(r: Routing, id: OrderId, target: OrderId, parent: OrderId, a: Attempt, now: uint64)
    requires CanAdd(r.book, id) && id !in r.book.children && parent != 0 && parent != id && a.slot.Some? && a.pushed
    ensures var d := Dispatch(r, CancelEntry(id, target, parent, now), a, now);
            && d.ok && d.routing.nextOrderId == r.nextOrderId && d.routing.queue == r.queue + [a.slot.value]
            && AddsCancel(r.book, d.routing.book, parent, id, target)
  {
    hide Add, UpdateState, AddsChild, AddsCancel, OrderBookModel.Stored;
    var e := CancelEntry(id, target, parent, now).(slotIndex := a.slot.value);
    AddingChild(r.book, e, now);
    StoredKeepsCancel(e, now);
    MarkingAddedCancel(r.book, Add(r.book, e, now), id, target, parent, OrderBookModel.Stored(e, now), now);
  }

  lemma StoredKeepsCancel(e: Entry, now: uint64)
    ensures var s := OrderBookModel.Stored(e, now);
            s.kind == e.kind && s.origId == e.origId && s.isSplitChild == e.isSplitChild && s.parent == e.parent
  {
    hide KeyOf;
  }

  lemma OneMoreCancelled(before: Book, b: Book, b': Book, orig: OrderId, live: seq<OrderId>, ids: seq<OrderId>,
                         id: OrderId, target: OrderId)
    requires Cancelled(before, b, orig, live, ids) && AddsCancel(b, b', orig, id, target)
    requires id !in b.entries && id != orig && orig !in ids
    ensures Cancelled(before, b', orig, live + [target], ids + [id])
  {
    hide OnlyAdds, EachCancels, AddsCancel, ChildrenOf;
    OnlyAddsOneMore(before, b, b', orig, ids, id, target);
    OneMoreCancels(b, b', orig, live, ids, id, target);
    ListedUnder(b, b', orig, id, target);
    assert ChildrenOf(before, orig) + ids + [id] == ChildrenOf(before, orig) + (ids + [id]);
  }

  lemma OneMoreCancels(b: Book, b': Book, orig: OrderId, live: seq<OrderId>, ids: seq<OrderId>, id: OrderId,
                       target: OrderId)
    requires |ids| == |live| && EachCancels(b, ids, live, orig) && AddsCancel(b, b', orig, id, target) && orig !in ids
    ensures EachCancels(b', ids + [id], live + [target], orig)
  {
    hide Cancels, AddsCancel;
    forall k | 0 <= k < |ids| ensures Cancels(b', ids[k], live[k], orig) {
      StaysCancelled(b, b', orig, id, target, ids[k], live[k]);
    }
    NewCancels(b, b', orig, id, target);
  }

  lemma NewCancels(b: Book, b': Book, orig: OrderId, id: OrderId, target: OrderId)
    requires AddsCancel(b, b', orig, id, target)
    ensures Cancels(b', id, target, orig)
  {
  }

  lemma StaysCancelled(b: Book, b': Book, orig: OrderId, id: OrderId, target: OrderId, x: OrderId, y: OrderId)
    requires AddsCancel(b, b', orig, id, target) && Cancels(b, x, y, orig) && x != orig
    ensures Cancels(b', x, y, orig)
  {
    hide ChildrenOf;
  }

  lemma OnlyAddsOneMore(before: Book, b: Book, b': Book, orig: OrderId, ids: seq<OrderId>, id: OrderId, target: OrderId)
    requires OnlyAdds(before, b, orig, ids) && AddsCancel(b, b', orig, id, target)
    requires id !in b.entries && id != orig
    ensures OnlyAdds(before, b', orig, ids + [id])
  {
    hide Cancels, ChildrenOf;
    assert |b'.entries| == |b'.entries.Keys| && |b.entries| == |b.entries.Keys|;
  }

  lemma ListedUnder(b: Book, b': Book, orig: OrderId, id: OrderId, target: OrderId)
    requires AddsCancel(b, b', orig, id, target)
    ensures ChildrenOf(b', orig) == ChildrenOf(b, orig) + [id]
  {
    hide Cancels;
  }

  /** How the fan-out stands when it has cancelled `live` under `ids`, having taken `k` ids from the shared counter. */
  ghost predicate FannedOut(r: Routing, f: FanOut, orig: OrderId, live: seq<OrderId>, ids: seq<OrderId>, k: nat) {
    && Cancelled(r.book, f.routing.book, orig, live, ids)
    && f.routing.nextOrderId == Nth(r.nextOrderId, k)
    && |f.routing.queue| == |r.queue| + |live|
  }

  predicate Willing(a: Attempt) {
    a.slot.Some? && a.pushed
  }

  lemma NextIdCanBeAdded(r: Routing, f: FanOut, orig: OrderId, live: seq<OrderId>, ids: seq<OrderId>, k: nat,
                         id: OrderId)
    requires FannedOut(r, f, orig, live, ids, k) && orig in r.book.children && Fresh(r.book, ids + [id])
    ensures CanAdd(f.routing.book, id) && id !in f.routing.book.children && id != orig && orig !in ids
    ensures id !in f.routing.book.entries
  {
    FreshForFewer(r.book, ids, id);
    hide EachCancels, ChildrenOf, Distinct;
  }

  /** A child's being live does not change while others are cancelled. */
  lemma StaysLive(r: Routing, f: FanOut, orig: OrderId, live: seq<OrderId>, ids: seq<OrderId>, k: nat, child: OrderId)
    requires FannedOut(r, f, orig, live, ids, k) && Fresh(r.book, ids) && child != orig
    ensures Live(f.routing.book.entries, child) == Live(r.book.entries, child)
  {
    hide Cancels, ChildrenOf, Distinct, Nth;
    if child in ids {
      var n :| 0 <= n < |ids| && ids[n] == child;
      assert Cancels(f.routing.book, child, live[n], orig);
      IsCancel(f.routing.book, child, live[n], orig);
    }
  }

  lemma IsCancel(b: Book, id: OrderId, target: OrderId, parent: OrderId)
    requires Cancels(b, id, target, parent)
    ensures !NewChild(b.entries, id)
  {
  }

  /** One round of the loop: a live child gets a cancel under the next id. */
  lemma CancelChildAddsOne(r: Routing, f: FanOut, orig: OrderId, cancelId: OrderId, live: seq<OrderId>,
                           ids: seq<OrderId>, k: nat,
                           child: OrderId, a: Attempt, now: uint64)
    requires FannedOut(r, f, orig, live, ids, k) && orig in r.book.children && orig != 0
    requires Fresh(r.book, ids + [if f.used then f.routing.nextOrderId else cancelId])
    requires child != orig && Live(r.book.entries, child) && Willing(a)
    ensures var id := if f.used then f.routing.nextOrderId else cancelId;
            var f' := CancelChild(f, orig, cancelId, child, a, now);
            && FannedOut(r, f', orig, live + [child], ids + [id], if f.used then k + 1 else k)
            && f'.used && f'.anySent && f'.anyFailed == f.anyFailed
  {
    hide Cancelled, Fresh, Live, CanAdd, Dispatch, CancelEntry, AddsCancel;
    var id := if f.used then f.routing.nextOrderId else cancelId;
    FreshForFewer(r.book, ids, id);
    StaysLive(r, f, orig, live, ids, k, child);
    NextIdCanBeAdded(r, f, orig, live, ids, k, id);
    var r1 := if f.used then f.routing.(nextOrderId := Following(f.routing.nextOrderId)) else f.routing;
    var d := Dispatch(r1, CancelEntry(id, child, orig, now), a, now);
    DispatchBooksCancel(r1, id, child, orig, a, now);
    OneMoreCancelled(r.book, f.routing.book, d.routing.book, orig, live, ids, id, child);
    assert CancelChild(f, orig, cancelId, child, a, now) == FanOut(d.routing, true, true, f.anyFailed);
  }

  lemma SkipsDead(r: Routing, f: FanOut, orig: OrderId, cancelId: OrderId, live: seq<OrderId>, ids: seq<OrderId>,
                  k: nat,
                  child: OrderId, a: Attempt, now: uint64)
    requires FannedOut(r, f, orig, live, ids, k) && Fresh(r.book, ids)
    requires child != orig && !Live(r.book.entries, child)
    ensures CancelChild(f, orig, cancelId, child, a, now) == f
  {
    hide FannedOut, Fresh;
    StaysLive(r, f, orig, live, ids, k, child);
  }

  lemma NoneYet(r: Routing, f: FanOut, orig: OrderId)
    requires f.routing == r
    ensures FannedOut(r, f, orig, [], [], 0)
  {
    NothingCancelled(r.book, orig);
    hide Cancelled;
  }

  function Pred(n: nat): nat {
    if n == 0 then 0 else n - 1
  }

  /** The loop under a fresh cancel id, over some of the children. */
  lemma {:induction false} FanOutSoFar(r: Routing, orig: OrderId, cancelId: OrderId, ids: seq<OrderId>,
                                       luck: nat -> Attempt, now: uint64)
    requires orig in r.book.children && orig != 0 && orig !in ids
    requires Fresh(r.book, CancelIds(cancelId, r.nextOrderId, |LiveAmong(r.book.entries, ids)|))
    requires forall k :: 0 <= k < |ids| ==> Willing(luck(k))
    ensures var f, live := CancelChildren(r, orig, cancelId, ids, luck, now), LiveAmong(r.book.entries, ids);
            && FannedOut(r, f, orig, live, CancelIds(cancelId, r.nextOrderId, |live|), Pred(|live|))
            && f.used == f.anySent == (live != []) && !f.anyFailed
    decreases |ids|
  {
    hide Fresh, FannedOut, CancelChild, Live, Willing, Nth, CancelIds;
    if ids == [] {
      assert CancelIds(cancelId, r.nextOrderId, 0) == [];
      NoneYet(r, FanOut(r, false, false, false), orig);
    } else {
      var n := |ids| - 1;
      var child, before := ids[n], LiveAmong(r.book.entries, ids[..n]);
      var f, m := CancelChildren(r, orig, cancelId, ids[..n], luck, now), |before|;
      var given := CancelIds(cancelId, r.nextOrderId, m);
      if Live(r.book.entries, child) {
        OneMoreCancelId(cancelId, r.nextOrderId, m);
        FreshForFewer(r.book, given, if m == 0 then cancelId else Nth(r.nextOrderId, m - 1));
        FanOutSoFar(r, orig, cancelId, ids[..n], luck, now);
        CounterStandsAt(r, f, orig, before, given, Pred(m));
        CancelChildAddsOne(r, f, orig, cancelId, before, given, Pred(m), child, luck(n), now);
      } else {
        assert LiveAmong(r.book.entries, ids) == before;
        FanOutSoFar(r, orig, cancelId, ids[..n], luck, now);
        SkipsDead(r, f, orig, cancelId, before, given, Pred(m), child, luck(n), now);
      }
    }
  }

  lemma CounterStandsAt(r: Routing, f: FanOut, orig: OrderId, live: seq<OrderId>, ids: seq<OrderId>, k: nat)
    requires FannedOut(r, f, orig, live, ids, k)
    ensures f.routing.nextOrderId == Nth(r.nextOrderId, k)
  {
  }

  /** Main result: cancelling a parent while every slot request and push succeeds, under ids that are fresh, books
      exactly one cancel for each live child, in the order of the children, the first under the given id, each linked to
      the parent both ways; the call succeeds exactly if a child was live, and no other order changes. */
  lemma CancelReachesEveryLiveChild(r: Routing, orig: OrderId, cancelId: OrderId, luck: nat -> Attempt, now: uint64)
    requires ChildrenOf(r.book, orig) != [] && Distinct(ChildrenOf(r.book, orig)) && orig !in ChildrenOf(r.book, orig)
    requires orig != 0
    requires Fresh(r.book, CancelIds(cancelId, r.nextOrderId, |LiveAmong(r.book.entries, ChildrenOf(r.book, orig))|))
    requires forall k :: 0 <= k < |ChildrenOf(r.book, orig)| ==> Willing(luck(k))
    ensures var live := LiveAmong(r.book.entries, ChildrenOf(r.book, orig));
            var routed, ids := RoutedCancel(r, orig, cancelId, luck, now), CancelIds(cancelId, r.nextOrderId, |live|);
            && Distinct(live)
            && (forall id :: id in live <==>
                  id in ChildrenOf(r.book, orig) && id in r.book.entries
                  && r.book.entries[id].kind == OrderType.New && !IsTerminal(r.book.entries[id].state))
            && routed.ok == (live != [])
            && |routed.routing.queue| == |r.queue| + |live|
            && Distinct(ids) && (ids != [] ==> ids[0] == cancelId)
            && Cancelled(r.book, routed.routing.book, orig, live, ids)
            && routed.routing.book.latched == r.book.latched
  {
    WillingLatchNothing(r, orig, cancelId, ChildrenOf(r.book, orig), luck, now);
    var children := ChildrenOf(r.book, orig);
    var live := LiveAmong(r.book.entries, children);
    LiveAmongExactly(r.book.entries, children);
    FanOutSoFar(r, orig, cancelId, children, luck, now);
    hide Cancelled, LiveAmong, CancelChildren, CounterIds, Distinct, Live, Nth;
  }

  lemma {:induction false} WillingLatchNothing(r: Routing, orig: OrderId, cancelId: OrderId, ids: seq<OrderId>,
                                               luck: nat -> Attempt, now: uint64)
    requires forall k :: 0 <= k < |ids| ==> Willing(luck(k))
    ensures CancelChildren(r, orig, cancelId, ids, luck, now).routing.book.latched == r.book.latched
    decreases |ids|
  {
    if ids != [] {
      var n := |ids| - 1;
      WillingLatchNothing(r, orig, cancelId, ids[..n], luck, now);
      var f := CancelChildren(r, orig, cancelId, ids[..n], luck, now);
      var id := if f.used then f.routing.nextOrderId else cancelId;
      PushedLatchesNothing(f.routing, CancelEntry(id, ids[n], orig, now), luck(n), now);
      PushedLatchesNothing(f.routing.(nextOrderId := Following(f.routing.nextOrderId)),
                           CancelEntry(id, ids[n], orig, now), luck(n), now);
      hide Dispatch, CancelEntry, Live, CancelChildren;
    }
  }

  lemma PushedLatchesNothing(r: Routing, e: Entry, a: Attempt, now: uint64)
    requires a.pushed
    ensures Dispatch(r, e, a, now).routing.book.latched == r.book.latched
  {
    hide Refresh, OrderBookModel.Stored;
  }

  // ---------- A cancel id that is taken ----------

  /** The first live child meets a cancel id that is booked: nothing happens but a failure. */
  lemma TakenIdFails(r: Routing, orig: OrderId, cancelId: OrderId, child: OrderId, a: Attempt, now: uint64)
    requires cancelId in r.book.entries && Live(r.book.entries, child)
    ensures CancelChild(FanOut(r, false, false, false), orig, cancelId, child, a, now) == FanOut(r, true, false, true)
  {
  }

  /** The loop under a cancel id that is booked already: all live children but the first get a cancel. */
  lemma {:induction false} TakenSoFar(r: Routing, orig: OrderId, cancelId: OrderId, ids: seq<OrderId>,
                                      luck: nat -> Attempt, now: uint64)
    requires orig in r.book.children && orig != 0 && orig !in ids && cancelId in r.book.entries
    requires Fresh(r.book, CounterIds(r.nextOrderId, Pred(|LiveAmong(r.book.entries, ids)|)))
    requires forall k :: 0 <= k < |ids| ==> Willing(luck(k))
    ensures var f, live := CancelChildren(r, orig, cancelId, ids, luck, now), LiveAmong(r.book.entries, ids);
            if live == [] then f == FanOut(r, false, false, false)
            else
              && FannedOut(r, f, orig, live[1..], CounterIds(r.nextOrderId, |live| - 1), |live| - 1)
              && f.used && f.anyFailed && f.anySent == (|live| > 1)
    decreases |ids|
  {
    hide Fresh, FannedOut, CancelChild, Live, Willing, Nth, CounterIds;
    if ids != [] {
      var n := |ids| - 1;
      var child, before := ids[n], LiveAmong(r.book.entries, ids[..n]);
      var f, m := CancelChildren(r, orig, cancelId, ids[..n], luck, now), |before|;
      if !Live(r.book.entries, child) {
        assert LiveAmong(r.book.entries, ids) == before;
        TakenSoFar(r, orig, cancelId, ids[..n], luck, now);
        if m > 0 {
          SkipsDead(r, f, orig, cancelId, before[1..], CounterIds(r.nextOrderId, m - 1), m - 1, child, luck(n), now);
        } else {
          DeadIsSkipped(f, orig, cancelId, child, luck(n), now);
        }
      } else if m == 0 {
        NoIds(r.nextOrderId);
        TakenSoFar(r, orig, cancelId, ids[..n], luck, now);
        TakenIdFails(r, orig, cancelId, child, luck(n), now);
        NoneYet(r, FanOut(r, true, false, true), orig);
        assert LiveAmong(r.book.entries, ids)[1..] == [];
      } else {
        var given := CounterIds(r.nextOrderId, m - 1);
        OneMoreCounterId(r.nextOrderId, m - 1);
        FreshForFewer(r.book, given, Nth(r.nextOrderId, m - 1));
        TakenSoFar(r, orig, cancelId, ids[..n], luck, now);
        CounterStandsAt(r, f, orig, before[1..], given, m - 1);
        CancelChildAddsOne(r, f, orig, cancelId, before[1..], given, m - 1, child, luck(n), now);
        assert (before + [child])[1..] == before[1..] + [child];
      }
    }
  }

  lemma DeadIsSkipped(f: FanOut, orig: OrderId, cancelId: OrderId, child: OrderId, a: Attempt, now: uint64)
    requires !Live(f.routing.book.entries, child)
    ensures CancelChild(f, orig, cancelId, child, a, now) == f
  {
  }

  lemma NoIds(nextOrderId: uint32)
    ensures CounterIds(nextOrderId, 0) == []
  {
  }

  lemma OneMoreCounterId(nextOrderId: uint32, n: nat)
    ensures CounterIds(nextOrderId, n + 1) == CounterIds(nextOrderId, n) + [Nth(nextOrderId, n)]
  {
  }

  /** Marking a top-level parent touches no other order. */
  lemma MarkingParent(before: Book, b: Book, orig: OrderId, live: seq<OrderId>, ids: seq<OrderId>, now: uint64)
    requires Cancelled(before, b, orig, live, ids) && orig in b.entries && orig !in b.parentOf && orig !in ids
    ensures var b' := UpdateState(b, orig, TraderError, now);
            && Cancelled(before, b', orig, live, ids) && orig in b'.entries && b'.entries[orig].state == TraderError
  {
    var b' := UpdateState(b, orig, TraderError, now);
    assert |b'.entries| == |b'.entries.Keys| == |b.entries.Keys|;
    forall n | 0 <= n < |ids| ensures Cancels(b', ids[n], live[n], orig) {
      assert Cancels(b, ids[n], live[n], orig);
    }
  }

  /** Main result: under a cancel id that is booked already, and otherwise fresh ids and willing surroundings, the
      fan-out of a top-level parent books exactly one cancel for each live child but the first, none for the first, and
      marks the parent as failed; it still reports success if more than one child was live. */
  lemma TakenIdMissesTheFirstChild(r: Routing, orig: OrderId, cancelId: OrderId, luck: nat -> Attempt, now: uint64)
    requires Distinct(ChildrenOf(r.book, orig)) && orig !in ChildrenOf(r.book, orig)
    requires orig != 0 && orig in r.book.entries && orig !in r.book.parentOf && cancelId in r.book.entries
    requires LiveAmong(r.book.entries, ChildrenOf(r.book, orig)) != []
    requires Fresh(r.book, CounterIds(r.nextOrderId, |LiveAmong(r.book.entries, ChildrenOf(r.book, orig))| - 1))
    requires forall k :: 0 <= k < |ChildrenOf(r.book, orig)| ==> Willing(luck(k))
    ensures var live := LiveAmong(r.book.entries, ChildrenOf(r.book, orig));
            var routed := RoutedCancel(r, orig, cancelId, luck, now);
            var b := routed.routing.book;
            && Cancelled(r.book, b, orig, live[1..], CounterIds(r.nextOrderId, |live| - 1))
            && (forall x :: x in b.entries && x !in r.book.entries ==> b.entries[x].origId != live[0])
            && orig in b.entries && b.entries[orig].state == TraderError
            && routed.ok == (|live| > 1)
  {
    hide LiveAmong, Live, Willing, Nth, CancelChildren, Distinct;
    var children := ChildrenOf(r.book, orig);
    var live := LiveAmong(r.book.entries, children);
    LiveAmongExactly(r.book.entries, children);
    TakenSoFar(r, orig, cancelId, children, luck, now);
    var f := CancelChildren(r, orig, cancelId, children, luck, now);
    var ids := CounterIds(r.nextOrderId, |live| - 1);
    assert orig !in ids;
    hide CounterIds, ChildrenOf, UpdateState, Fresh;
    FanOutKeepsTop(r.book, f.routing.book, orig, live[1..], ids);
    MarkingParent(r.book, f.routing.book, orig, live[1..], ids, now);
    NoneForTheFirst(r.book, RoutedCancel(r, orig, cancelId, luck, now).routing.book, orig, live, ids);
  }

  lemma FanOutKeepsTop(before: Book, after: Book, orig: OrderId, live: seq<OrderId>, ids: seq<OrderId>)
    requires Cancelled(before, after, orig, live, ids) && orig in before.entries && orig !in before.parentOf
             && orig !in ids
    ensures orig in after.entries && orig !in after.parentOf
  {
    hide EachCancels, ChildrenOf;
  }

  lemma NoneForTheFirst(before: Book, after: Book, orig: OrderId, live: seq<OrderId>, ids: seq<OrderId>)
    requires live != [] && Distinct(live) && Cancelled(before, after, orig, live[1..], ids)
    ensures forall x :: x in after.entries && x !in before.entries ==> after.entries[x].origId != live[0]
  {
    forall x | x in after.entries && x !in before.entries ensures after.entries[x].origId != live[0] {
      var n :| 0 <= n < |ids| && ids[n] == x;
      assert Cancels(after, ids[n], live[1..][n], orig);
      assert live[1..][n] == live[n + 1];
    }
  }

  // ---------- What a submission leaves ----------

  /** What is booked of an order: it as it was handed over, under its id and slot, with a time, and marked as submitted,
      or as failed where the queue was full. */
  ghost predicate BookedAs(e: Entry, e': Entry, id: OrderId, slot: uint32, pushed: bool, now: uint64) {
    && e'.id == id && e'.state == (if pushed then TraderSubmitted else TraderError)
    && e'.slotIndex == slot && e'.submitNs == (if e.submitNs > 0 then e.submitNs else now)
    && e'.kind == e.kind && e'.side == e.side && e'.entrust == e.entrust && e'.price == e.price
    && e'.traded == e.traded && e'.origId == e.origId && e'.securityKey == e.securityKey
    && e'.isSplitChild == e.isSplitChild && e'.parent == e.parent && e'.fundFrozen == e.fundFrozen
    && (e.kind == OrderType.New && e.remain == 0 && e.entrust >= e.traded ==> e'.traded + e'.remain == e'.entrust)
  }

  /** An order handed over with an id: with a slot and room in the book it is booked and queued, or booked as failed
      where the queue is full; otherwise nothing changes. */
  lemma DispatchedIsBooked(r: Routing, e: Entry, a: Attempt, now: uint64)
    requires e.id !in r.book.children && e.parent != e.id
    ensures var d := Dispatch(r, e, a, now);
            var room := a.slot.Some? && e.id > 0 && e.id !in r.book.entries && |r.book.entries| < r.book.capacity;
            && (d.ok <==> room && a.pushed) && d.routing.nextOrderId == r.nextOrderId
            && d.routing.queue == (if d.ok then r.queue + [a.slot.value] else r.queue)
            && (!room ==> d.routing.book == r.book)
            && (room ==> e.id in d.routing.book.entries
                         && BookedAs(e, d.routing.book.entries[e.id], e.id, a.slot.value, a.pushed, now))
  {
    if a.slot.Some? && CanAdd(r.book, e.id) {
      var e1 := e.(slotIndex := a.slot.value);
      AddedIsShown(r.book, e1, now);
      AddListsOnly(r.book, e1, now);
      hide Add, UpdateState;
      StateIsShown(Add(r.book, e1, now), e.id, if a.pushed then TraderSubmitted else TraderError, now);
    }
  }

  /** An internal order is submitted under its own id, or under the next one of the shared counter, with its own slot,
      or one of the pool. */
  lemma SubmittedIsBooked(r: Routing, e: Entry, a: Attempt, now: uint64)
    requires var id := if e.id > 0 then e.id else r.nextOrderId; id !in r.book.children && e.parent != id
    ensures var id := if e.id > 0 then e.id else r.nextOrderId;
            var slot := if e.slotIndex < U32_MAX then Some(e.slotIndex) else a.slot;
            var d := Submitted(r, e, a, now);
            var room := slot.Some? && id > 0 && id !in r.book.entries && |r.book.entries| < r.book.capacity;
            && (d.ok <==> room && a.pushed)
            && d.routing.nextOrderId == (if e.id > 0 then r.nextOrderId
                                         else if r.nextOrderId == U32_MAX then 0 else r.nextOrderId + 1)
            && d.routing.queue == (if d.ok then r.queue + [slot.value] else r.queue)
            && (!room ==> d.routing.book == r.book)
            && (room ==> id in d.routing.book.entries
                         && BookedAs(e, d.routing.book.entries[id], id, slot.value, a.pushed, now))
  {
    hide Dispatch;
    var id := if e.id == 0 then r.nextOrderId else e.id;
    var r' := if e.id == 0 then r.(nextOrderId := Following(r.nextOrderId)) else r;
    var submitNs := if e.submitNs == 0 then now else e.submitNs;
    var slot := if e.slotIndex == U32_MAX then a.slot else Some(e.slotIndex);
    var e1 := e.(id := id, submitNs := submitNs, updatedNs := if e.updatedNs == 0 then submitNs else e.updatedNs,
                 state := TraderPending);
    DispatchedIsBooked(r', e1, Attempt(slot, a.pushed), now);
  }

  /** A cancel of an order without children, under a fresh id, is booked aimed at that order, on its own, and queued. */
  lemma SingleCancelIsBooked(r: Routing, orig: OrderId, cancelId: OrderId, luck: nat -> Attempt, now: uint64)
    requires ChildrenOf(r.book, orig) == [] && cancelId !in r.book.children
    requires CanAdd(r.book, cancelId) && luck(0).slot.Some? && luck(0).pushed
    ensures var d := RoutedCancel(r, orig, cancelId, luck, now);
            && d.ok && d.routing.queue == r.queue + [luck(0).slot.value]
            && cancelId in d.routing.book.entries
            && var e := d.routing.book.entries[cancelId];
               e.kind == OrderType.Cancel && e.origId == orig && !e.isSplitChild && e.state == TraderSubmitted
  {
    DispatchedIsBooked(r, CancelEntry(cancelId, orig, 0, now), luck(0), now);
    hide Dispatch;
  }

  lemma AddListsOnly(b: Book, e: Entry, now: uint64)
    requires e.id !in b.children && e.parent != e.id
    ensures e.id !in Add(b, e, now).children
  {
    hide Refresh, OrderBookModel.Stored;
  }

  // ---------- When a single dispatch works ----------

  /** An internal order goes out exactly if the pool grants a slot, the book can take it and the queue has room;
      whatever happens, it is booked exactly if it got a slot and could be added. */
  lemma DispatchSucceedsExactly(r: Routing, e: Entry, a: Attempt, now: uint64)
    ensures Dispatch(r, e, a, now).ok <==> a.slot.Some? && CanAdd(r.book, e.id) && a.pushed
    ensures e.id !in r.book.entries ==>
              (e.id in Dispatch(r, e, a, now).routing.book.entries <==> a.slot.Some? && CanAdd(r.book, e.id))
    ensures !(a.slot.Some? && CanAdd(r.book, e.id)) ==> Dispatch(r, e, a, now).routing == r
  {
    hide Refresh, KeyOf, OrderBookModel.Stored;
    if a.slot.Some? && CanAdd(r.book, e.id) {
      var e' := e.(slotIndex := a.slot.value);
      AddBooks(r.book, e', now);
      StateKeepsKeys(Add(r.book, e', now), e.id, if a.pushed then TraderSubmitted else TraderError, now);
    }
  }

  lemma AddBooks(b: Book, e: Entry, now: uint64)
    requires CanAdd(b, e.id)
    ensures Add(b, e, now).entries.Keys == b.entries.Keys + {e.id}
  {
    hide KeyOf, OrderBookModel.Stored;
  }

  lemma StateKeepsKeys(b: Book, id: OrderId, state: OrderState, now: uint64)
    ensures UpdateState(b, id, state, now).entries.Keys == b.entries.Keys
  {
  }

  /** A cancel whose id is booked already reaches no order without children: the pool slot is taken, but nothing is
      booked or sent. */
  lemma DuplicateCancelIsRefused(r: Routing, orig: OrderId, cancelId: OrderId, luck: nat -> Attempt, now: uint64)
    requires ChildrenOf(r.book, orig) == [] && cancelId in r.book.entries
    ensures RoutedCancel(r, orig, cancelId, luck, now) == Routed(r, false)
  {
  }

  // ---------- The router ----------

  class Router {
    const book: OrderBook
    var nextOrderId: uint32
    var queue: seq<uint32>

    ghost predicate Valid()
      reads this, book, book.slots
    {
      book.Valid()
    }

    ghost function Model(): Routing
      reads this, book
    {
      Routing(book.view, nextOrderId, queue)
    }

    constructor (book: OrderBook, nextOrderId: uint32)
      requires book.Valid()
      ensures Valid() && this.book == book && Model() == Routing(book.view, nextOrderId, [])
    {
      this.book, this.nextOrderId, this.queue := book, nextOrderId, [];
    }

    /** The common part of submitting an internal order and a cancel: booking, pushing, and marking. */
    method DispatchOrder(e: Entry, a: Attempt, now: uint64) returns (ok: bool)
      requires Valid()
      modifies this`queue, book, book.slots
      ensures Valid() && Routed(Model(), ok) == Dispatch(old(Model()), e, a, now)
    {
      hide book.Valid, Add, OrderBookModel.UpdateState, CanAdd;
      if a.slot.None? {
        return false;
      }
      var added := book.AddOrder(e.(slotIndex := a.slot.value), now);
      if !added {
        UnchangedUnlessAddable(old(book.view), e.(slotIndex := a.slot.value), now);
        return false;
      }
      if !a.pushed {
        var _ := book.UpdateState(e.id, TraderError, now);
        return false;
      }
      queue := queue + [a.slot.value];
      var _ := book.UpdateState(e.id, TraderSubmitted, now);
      ok := true;
    }

    method SubmitInternalOrder(e: Entry, a: Attempt, now: uint64) returns (id: OrderId, ok: bool)
      requires Valid()
      modifies this, book, book.slots
      ensures Valid() && Routed(Model(), ok) == Submitted(old(Model()), e, a, now)
      ensures ok ==> id !in old(book.view).entries && id in book.view.entries
    {
      hide book.Valid, Dispatch;
      var entry := e;
      if entry.id == 0 {
        var nextId := AllocateInternalOrderId();
        entry := entry.(id := nextId);
      }
      if entry.submitNs == 0 {
        entry := entry.(submitNs := now);
      }
      if entry.updatedNs == 0 {
        entry := entry.(updatedNs := entry.submitNs);
      }
      entry := entry.(state := TraderPending);
      id := entry.id;
      var slot := if entry.slotIndex == U32_MAX then a.slot else Some(entry.slotIndex);
      DispatchSucceedsExactly(Model(), entry, Attempt(slot, a.pushed), now);
      NotBookedBefore(book.view, id);
      ok := DispatchOrder(entry, Attempt(slot, a.pushed), now);
    }

    static lemma NotBookedBefore(b: Book, id: OrderId)
      ensures CanAdd(b, id) ==> id !in b.entries
    {
    }

    method AllocateInternalOrderId() returns (id: uint32)
      modifies this`nextOrderId
      ensures id == old(nextOrderId) && nextOrderId == Following(id)
    {
      id := nextOrderId;
      nextOrderId := Following(nextOrderId);
    }

    /** The loop over a snapshot of the children. */
    method CancelChildOrders(orig: OrderId, cancelId: OrderId, ids: seq<OrderId>, luck: nat -> Attempt, now: uint64)
      returns (anySent: bool, anyFailed: bool)
      requires Valid()
      modifies this, book, book.slots
      ensures Valid()
      ensures var f := CancelChildren(old(Model()), orig, cancelId, ids, luck, now);
              Model() == f.routing && anySent == f.anySent && anyFailed == f.anyFailed
    {
      hide book.Valid, Dispatch, Live, CancelEntry;
      var used := false;
      anySent, anyFailed := false, false;
      for i := 0 to |ids|
        invariant Valid()
        invariant FanOut(Model(), used, anySent, anyFailed)
                  == CancelChildren(old(Model()), orig, cancelId, ids[..i], luck, now)
      {
        assert ids[..i + 1][..i] == ids[..i];
        var live := IsLive(ids[i]);
        if live {
          var id := cancelId;
          if used {
            id := AllocateInternalOrderId();
          }
          used := true;
          var ok := DispatchOrder(CancelEntry(id, ids[i], orig, now), luck(i), now);
          if ok {
            anySent := true;
          } else {
            anyFailed := true;
          }
        }
      }
      assert ids[..|ids|] == ids;
    }

    method IsLive(id: OrderId) returns (live: bool)
      requires Valid()
      ensures live == Live(book.view.entries, id)
    {
      hide book.Valid;
      var found := book.FindOrder(id);
      live := found.Some? && found.value.kind == OrderType.New && !IsTerminal(found.value.state);
    }

    method RouteNew(id: OrderId, slot: uint32, pushed: bool, now: uint64) returns (ok: bool)
      requires Valid()
      modifies this`queue, book, book.slots
      ensures Valid() && Routed(Model(), ok) == RoutedNew(old(Model()), id, slot, pushed, now)
    {
      hide book.Valid, OrderBookModel.UpdateState;
      if slot == U32_MAX {
        var _ := book.UpdateState(id, TraderError, now);
        return false;
      }
      if !pushed {
        var _ := book.UpdateState(id, TraderError, now);
        return false;
      }
      queue := queue + [slot];
      var _ := book.UpdateState(id, TraderSubmitted, now);
      ok := true;
    }

    method RouteCancel(orig: OrderId, cancelId: OrderId, luck: nat -> Attempt, now: uint64) returns (ok: bool)
      requires Valid()
      modifies this, book, book.slots
      ensures Valid() && Routed(Model(), ok) == RoutedCancel(old(Model()), orig, cancelId, luck, now)
    {
      hide Dispatch, CancelChildren, CancelEntry, OrderBookModel.UpdateState;
      var children := book.GetChildren(orig);
      hide book.Valid;
      if children != [] {
        var anySent, anyFailed := CancelChildOrders(orig, cancelId, children, luck, now);
        if anyFailed {
          var _ := book.UpdateState(orig, TraderError, now);
        }
        return anySent;
      }
      ok := DispatchOrder(CancelEntry(cancelId, orig, 0, now), luck(0), now);
    }
  }

}
