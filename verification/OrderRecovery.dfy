/** Restart recovery: the orders still on their way downstream are rebuilt from the slots of the shared pool, the latest
    slot of each order winning (src/order/order_recovery.cpp). */
module OrderRecovery {
  import opened Integers
  import opened OrderTypes
  import opened OrderBookModel
  import opened OrderBooks
  import opened Sums
  import FundRow
  import opened OrderRouter
  import Cash = EventLoopModel

  datatype Stage =
    | Empty | Reserved | UpstreamQueued | UpstreamDequeued | RiskRejected
    | DownstreamQueued | DownstreamDequeued | Terminal | QueuePushFailed

  /** What a slot shows: its request, its stage, and when it was last written. */
  datatype Snapshot = Snapshot(request: Entry, stage: Stage, updatedNs: uint64)

  datatype Stats = Stats(
    scanned: nat, unreadable: nat, eligible: nat, dedupDropped: nat, restored: nat, addFailed: nat,
    nextOrderSeed: uint32)

  /** The slots in the order of their indexes; None where no attempt got a consistent read. */
  type Slots = seq<Option<Snapshot>>

  predicate Eligible(slot: Option<Snapshot>) {
    && slot.Some?
    && (slot.value.stage == DownstreamQueued || slot.value.stage == DownstreamDequeued)
    && slot.value.request.id != 0 && !IsTerminal(slot.value.request.state)
  }

  /** Among the first n slots, slot i is an eligible one of an order. */
  predicate Claims(slots: Slots, n: nat, i: nat, id: OrderId)
    requires n <= |slots|
  {
    i < n && Eligible(slots[i]) && slots[i].value.request.id == id
  }

  /** Slot i was written after slot j, or at the same time and lies behind it. */
  predicate Later(slots: Slots, i: nat, j: nat)
    requires i < |slots| && j < |slots| && slots[i].Some? && slots[j].Some?
  {
    slots[i].value.updatedNs > slots[j].value.updatedNs
      || (slots[i].value.updatedNs == slots[j].value.updatedNs && i > j)
  }

  /** Among the eligible ones of an order in the first n slots, the one written last. */
  ghost predicate Latest(slots: Slots, n: nat, i: nat, id: OrderId)
    requires n <= |slots|
  {
    && Claims(slots, n, i, id)
    && forall j: nat :: Claims(slots, n, j, id) && j != i ==> Later(slots, i, j)
  }

  lemma LatestIsUnique(slots: Slots, n: nat, i: nat, j: nat, id: OrderId)
    requires n <= |slots| && Latest(slots, n, i, id) && Latest(slots, n, j, id)
    ensures i == j
  {
    assert Claims(slots, n, i, id) && Claims(slots, n, j, id);
  }

  // ---------- The scan ----------

  ghost function EligibleCount(slots: Slots, n: nat): nat
    requires n <= |slots|
  {
    if n == 0 then 0 else EligibleCount(slots, n - 1) + (if Eligible(slots[n - 1]) then 1 else 0)
  }

  ghost function UnreadableCount(slots: Slots, n: nat): nat
    requires n <= |slots|
  {
    if n == 0 then 0 else UnreadableCount(slots, n - 1) + (if slots[n - 1].None? then 1 else 0)
  }

  /** The candidates after the first n slots: each order that an eligible slot claims, at the latest such slot. */
  ghost predicate Candidates(slots: Slots, n: nat, c: map<OrderId, nat>)
    requires n <= |slots|
  {
    && (forall id :: id in c ==> Latest(slots, n, c[id], id))
    && (forall i: nat, id :: Claims(slots, n, i, id) ==> id in c)
  }

  lemma SkipIneligible(slots: Slots, n: nat, m: nat, c: map<OrderId, nat>)
    requires n < |slots| && m == n + 1 && Candidates(slots, n, c) && !Eligible(slots[n])
    ensures Candidates(slots, m, c)
  {
    hide Eligible, Later;
    forall i: nat, id | Claims(slots, m, i, id) ensures Claims(slots, n, i, id) {
    }
    forall id | id in c ensures Latest(slots, m, c[id], id) {
      assert Latest(slots, n, c[id], id);
      forall j: nat | Claims(slots, m, j, id) ensures Claims(slots, n, j, id) {
      }
    }
  }

  lemma LatestStays(slots: Slots, n: nat, m: nat, i: nat, id: OrderId)
    requires n < |slots| && m == n + 1 && Eligible(slots[n]) && Latest(slots, n, i, id)
    ensures i < n && slots[i].Some?
    ensures id != slots[n].value.request.id ==> Latest(slots, m, i, id)
    ensures id == slots[n].value.request.id && !Later(slots, n, i) ==> Latest(slots, m, i, id)
    ensures id == slots[n].value.request.id && Later(slots, n, i) ==> Latest(slots, m, n, id)
  {
    forall j: nat | Claims(slots, m, j, id) && j != n
      ensures Claims(slots, n, j, id)
              && (j == i || Later(slots, i, j))
    {
      assert Claims(slots, n, j, id);
    }
  }

  lemma NoCandidates(slots: Slots)
    ensures Candidates(slots, 0, map[])
  {
  }

  method Scan(slots: Slots) returns (c: map<OrderId, nat>, stats: Stats)
    ensures Candidates(slots, |slots|, c)
    ensures stats.scanned == |slots| && stats.unreadable == UnreadableCount(slots, |slots|)
    ensures stats.eligible == EligibleCount(slots, |slots|) == |c| + stats.dedupDropped
    ensures stats.restored == stats.addFailed == 0
  {
    c, stats := map[], Stats(0, 0, 0, 0, 0, 0, 0);
    NoCandidates(slots);
    hide Candidates, Eligible;
    for i := 0 to |slots|
      invariant Candidates(slots, i, c)
      invariant stats.scanned == i && stats.unreadable == UnreadableCount(slots, i)
      invariant stats.eligible == EligibleCount(slots, i) == |c| + stats.dedupDropped
      invariant stats.restored == stats.addFailed == 0
    {
      stats := stats.(scanned := stats.scanned + 1);
      if slots[i].None? {
        SkipIneligible(slots, i, i + 1, c);
        stats := stats.(unreadable := stats.unreadable + 1);
      } else if !Eligible(slots[i]) {
        SkipIneligible(slots, i, i + 1, c);
      } else {
        var dropped;
        c, dropped := Enter(slots, i, c);
        stats := stats.(eligible := stats.eligible + 1,
                        dedupDropped := stats.dedupDropped + (if dropped then 1 else 0));
      }
    }
  }

  /** Enters an eligible slot among the candidates: a new order, or a duplicate of which one is dropped. */
  method Enter(slots: Slots, i: nat, c: map<OrderId, nat>) returns (c': map<OrderId, nat>, dropped: bool)
    requires i < |slots| && Eligible(slots[i]) && Candidates(slots, i, c)
    ensures Candidates(slots, i + 1, c')
    ensures |c'| == if dropped then |c| else |c| + 1
  {
    var id := slots[i].value.request.id;
    EnterKeepsCandidates(slots, i, i + 1, c);
    hide Candidates, Eligible, Latest;
    if id !in c {
      return c[id := i], false;
    }
    InRange(slots, i, c, id);
    if Later(slots, i, c[id]) {
      c' := c[id := i];
      assert c'.Keys == c.Keys;
      assert |c'| == |c'.Keys| && |c| == |c.Keys|;
    } else {
      c' := c;
    }
    dropped := true;
  }

  lemma InRange(slots: Slots, n: nat, c: map<OrderId, nat>, id: OrderId)
    requires n <= |slots| && Candidates(slots, n, c) && id in c
    ensures c[id] < n && slots[c[id]].Some? && slots[c[id]].value.request.id == id && Eligible(slots[c[id]])
  {
    hide Eligible, Later;
    assert Latest(slots, n, c[id], id);
    assert Claims(slots, n, c[id], id);
    ClaimedIsReadable(slots, n, c[id], id);
  }

  lemma ClaimedIsReadable(slots: Slots, n: nat, i: nat, id: OrderId)
    requires n <= |slots| && Claims(slots, n, i, id)
    ensures slots[i].Some?
  {
  }

  lemma EarlierClaim(slots: Slots, n: nat, m: nat, j: nat, id: OrderId)
    requires n < |slots| && m == n + 1 && Claims(slots, m, j, id)
    ensures j == n || Claims(slots, n, j, id)
  {
  }

  lemma EnterKeepsCandidates(slots: Slots, n: nat, m: nat, c: map<OrderId, nat>)
    requires n < |slots| && m == n + 1 && Eligible(slots[n]) && Candidates(slots, n, c)
    ensures var id := slots[n].value.request.id;
            && (id in c ==> c[id] < n && slots[c[id]].Some?)
            && Candidates(slots, m, if id in c && !Later(slots, n, c[id]) then c else c[id := n])
  {
    var id := slots[n].value.request.id;
    if id in c {
      InRange(slots, n, c, id);
    }
    var c' := if id in c && !Later(slots, n, c[id]) then c else c[id := n];
    forall x | x in c' ensures Latest(slots, m, c'[x], x) {
      if x in c {
        LatestStays(slots, n, m, c[x], x);
      } else {
        forall j: nat | Claims(slots, m, j, x) ensures j == n {
          EarlierClaim(slots, n, m, j, x);
        }
      }
    }
    forall j: nat, x | Claims(slots, m, j, x) ensures x in c' {
      EarlierClaim(slots, n, m, j, x);
    }
  }

  // ---------- Restoring ----------

  /** The entry rebuilt from a slot: nothing of the order's reservation or parent survives. */
  function RecoveredEntry(snapshot: Snapshot, index: uint32, now: uint64): Entry {
    var time := if snapshot.updatedNs != 0 then snapshot.updatedNs else now;
    snapshot.request.(submitNs := time, updatedNs := time, isSplitChild := false, parent := 0, fundFrozen := 0,
                      slotIndex := index)
  }

  /** Entries filed under their nonzero ids, ready to be added as orders without a parent. */
  ghost predicate Addable(m: map<OrderId, Entry>) {
    forall id :: id in m ==> m[id].id == id && id != 0 && !m[id].isSplitChild
  }

  /** The entries rebuilt from the candidates. */
  ghost predicate Rebuilt(slots: Slots, c: map<OrderId, nat>, m: map<OrderId, Entry>, now: uint64) {
    && m.Keys == c.Keys
    && forall id :: id in c ==>
         c[id] < |slots| <= U32_MAX && slots[c[id]].Some? && m[id] == RecoveredEntry(slots[c[id]].value, c[id], now)
  }

  method Rebuild(slots: Slots, c: map<OrderId, nat>, now: uint64) returns (m: map<OrderId, Entry>)
    requires |slots| <= U32_MAX && Candidates(slots, |slots|, c)
    ensures Rebuilt(slots, c, m, now) && Addable(m)
  {
    hide Candidates;
    forall id | id in c
      ensures c[id] < |slots| && slots[c[id]].Some? && slots[c[id]].value.request.id == id
              && id != 0
    {
      InRange(slots, |slots|, c, id);
    }
    m := map id | id in c :: RecoveredEntry(slots[c[id]].value, c[id], now);
  }

  /** The book got exactly the orders of `done`, each as rebuilt. */
  ghost predicate RestoredFrom(before: Book, after: Book, rebuilt: map<OrderId, Entry>, done: set<OrderId>,
                               now: uint64)
  {
    && after == before.(entries := after.entries, nextId := after.nextId)
    && after.entries.Keys == before.entries.Keys + done
    && (forall id :: id in before.entries && id !in done ==> after.entries[id] == before.entries[id])
    && (forall id :: id in done ==> id in rebuilt && after.entries[id] == OrderBookModel.Stored(rebuilt[id], now))
  }

  /** The id counter is raised past the greatest restored id, if any. */
  ghost predicate CounterPast(before: Book, after: Book, done: set<OrderId>, maxId: OrderId) {
    && (forall id :: id in done ==> id <= maxId)
    && (maxId == 0 || maxId in done)
    && after.nextId == Max(before.nextId, if maxId == 0 then 0 else SaturatedNextId(maxId))
  }

  lemma NothingRestored(b: Book, rebuilt: map<OrderId, Entry>, now: uint64)
    ensures RestoredFrom(b, b, rebuilt, {}, now) && CounterPast(b, b, {}, 0)
  {
  }

  lemma AddUnlinked(b: Book, e: Entry, now: uint64)
    requires CanAdd(b, e.id) && !e.isSplitChild
    ensures Add(b, e, now) == b.(entries := b.entries[e.id := OrderBookModel.Stored(e, now)],
                                 nextId := Max(b.nextId, SaturatedNextId(e.id)))
  {
    hide OrderBookModel.Stored;
  }

  lemma OneMoreRestored(before: Book, b: Book, rebuilt: map<OrderId, Entry>, done: set<OrderId>, id: OrderId,
                        now: uint64, maxId: OrderId)
    requires RestoredFrom(before, b, rebuilt, done, now) && CounterPast(before, b, done, maxId)
    requires id in rebuilt && rebuilt[id].id == id && !rebuilt[id].isSplitChild && id !in done && id != 0
             && CanAdd(b, id)
    ensures RestoredFrom(before, Add(b, rebuilt[id], now), rebuilt, done + {id}, now)
    ensures CounterPast(before, Add(b, rebuilt[id], now), done + {id}, Max(maxId, id))
  {
    hide Add, OrderBookModel.Stored, RestoredFrom, CounterPast;
    AddUnlinked(b, rebuilt[id], now);
    EntryRestored(before, b, rebuilt, done, id, now, Max(b.nextId, SaturatedNextId(id)));
    CounterRaised(before, b, Add(b, rebuilt[id], now), done, id, maxId);
  }

  lemma EntryRestored(before: Book, b: Book, rebuilt: map<OrderId, Entry>, done: set<OrderId>, id: OrderId, now: uint64,
                      nextId: uint32)
    requires RestoredFrom(before, b, rebuilt, done, now) && id in rebuilt
    ensures RestoredFrom(before,
                         b.(entries := b.entries[id := OrderBookModel.Stored(rebuilt[id], now)], nextId := nextId),
                         rebuilt, done + {id}, now)
  {
    hide OrderBookModel.Stored;
    assert b.entries[id := OrderBookModel.Stored(rebuilt[id], now)].Keys == before.entries.Keys + (done + {id});
  }

  lemma CounterRaised(before: Book, b: Book, b': Book, done: set<OrderId>, id: OrderId, maxId: OrderId)
    requires id != 0 && CounterPast(before, b, done, maxId) && b'.nextId == Max(b.nextId, SaturatedNextId(id))
    ensures CounterPast(before, b', done + {id}, Max(maxId, id))
  {
  }

  lemma RoomLeft(before: Book, b: Book, rebuilt: map<OrderId, Entry>, done: set<OrderId>, id: OrderId, now: uint64)
    requires RestoredFrom(before, b, rebuilt, done, now) && id in rebuilt && id !in done && id != 0
    requires Roomy(before, rebuilt)
    requires done <= rebuilt.Keys
    ensures CanAdd(b, id)
  {
    hide OrderBookModel.Stored;
    assert |b.entries| == |b.entries.Keys| == |before.entries.Keys| + |done|;
    assert done + {id} <= rebuilt.Keys;
    SubsetSize(done + {id}, rebuilt.Keys);
    assert |rebuilt| == |rebuilt.Keys| && |before.entries| == |before.entries.Keys|;
  }

  lemma SubsetSize(a: set<OrderId>, b: set<OrderId>)
    requires a <= b
    ensures |a| <= |b|
  {
    assert |b - a| == |b| - |a|;
  }

  /** None of the orders is booked, and the book has room for all. */
  ghost predicate Roomy(before: Book, rebuilt: map<OrderId, Entry>) {
    rebuilt.Keys !! before.entries.Keys && |before.entries| + |rebuilt| <= before.capacity
  }

  /** Adds the rebuilt orders to the book, in whatever order; `done` are those the book took. */
  method Restore(book: OrderBook, rebuilt: map<OrderId, Entry>, now: uint64)
    returns (restored: nat, addFailed: nat, maxId: OrderId, ghost done: set<OrderId>)
    requires book.Valid() && Addable(rebuilt)
    modifies book, book.slots
    ensures book.Valid() && restored == |done| && restored + addFailed == |rebuilt| && done <= rebuilt.Keys
    ensures RestoredFrom(old(book.view), book.view, rebuilt, done, now)
    ensures CounterPast(old(book.view), book.view, done, maxId)
    ensures Roomy(old(book.view), rebuilt) ==> addFailed == 0 && done == rebuilt.Keys
  {
    hide *;
    restored, addFailed, maxId, done := 0, 0, 0, {};
    ghost var before := book.view;
    NothingRestored(before, rebuilt, now);
    NoneTaken(before, rebuilt, now);
    var todo := rebuilt.Keys;
    while todo != {}
      invariant book.Valid() && Restoring(before, book.view, rebuilt, todo, done, restored, addFailed, maxId, now)
      decreases todo
    {
      var id :| id in todo;
      var ok;
      ok, maxId := RestoreOne(book, id, now, before, rebuilt, todo, done, restored, addFailed, maxId);
      if ok {
        restored := restored + 1;
        done := done + {id};
      } else {
        addFailed := addFailed + 1;
      }
      todo := todo - {id};
    }
    AllTaken(before, book.view, rebuilt, done, restored, addFailed, maxId, now);
  }

  /** Everything the loop knows between two additions. */
  ghost predicate Restoring(before: Book, b: Book, rebuilt: map<OrderId, Entry>, todo: set<OrderId>, done: set<OrderId>,
                            restored: nat, addFailed: nat, maxId: OrderId, now: uint64)
  {
    && Midway(rebuilt, todo, done, restored, addFailed) && (Roomy(before, rebuilt) ==> addFailed == 0)
    && RestoredFrom(before, b, rebuilt, done, now) && CounterPast(before, b, done, maxId)
  }

  /** The loop's tally: `done` were taken, `todo` is still to come, the others failed. */
  ghost predicate Midway(rebuilt: map<OrderId, Entry>, todo: set<OrderId>, done: set<OrderId>, restored: nat,
                         addFailed: nat)
  {
    && todo <= rebuilt.Keys && done <= rebuilt.Keys && todo !! done
    && restored == |done| && restored + addFailed + |todo| == |rebuilt|
    && (addFailed == 0 ==> rebuilt.Keys == done + todo)
  }

  lemma NoneTaken(before: Book, rebuilt: map<OrderId, Entry>, now: uint64)
    requires RestoredFrom(before, before, rebuilt, {}, now) && CounterPast(before, before, {}, 0)
    ensures Restoring(before, before, rebuilt, rebuilt.Keys, {}, 0, 0, 0, now)
  {
    hide RestoredFrom, CounterPast;
    assert |rebuilt.Keys| == |rebuilt|;
  }

  lemma OneTaken(rebuilt: map<OrderId, Entry>, todo: set<OrderId>, done: set<OrderId>, restored: nat, addFailed: nat,
                 id: OrderId)
    requires Midway(rebuilt, todo, done, restored, addFailed) && id in todo && Addable(rebuilt)
    ensures id in rebuilt && id !in done && done <= rebuilt.Keys
    ensures rebuilt[id].id == id && id != 0 && !rebuilt[id].isSplitChild
    ensures Midway(rebuilt, todo - {id}, done + {id}, restored + 1, addFailed)
    ensures Midway(rebuilt, todo - {id}, done, restored, addFailed + 1)
  {
    assert |todo - {id}| == |todo| - 1 by {
    }
  }

  lemma AllTaken(before: Book, b: Book, rebuilt: map<OrderId, Entry>, done: set<OrderId>, restored: nat, addFailed: nat,
                 maxId: OrderId, now: uint64)
    requires Restoring(before, b, rebuilt, {}, done, restored, addFailed, maxId, now)
    ensures restored == |done| && restored + addFailed == |rebuilt| && done <= rebuilt.Keys
    ensures Roomy(before, rebuilt) ==> addFailed == 0 && done == rebuilt.Keys
    ensures RestoredFrom(before, b, rebuilt, done, now) && CounterPast(before, b, done, maxId)
  {
    hide RestoredFrom, CounterPast, Roomy;
  }

  /** Adds one of the orders still to come. */
  method RestoreOne(book: OrderBook, id: OrderId, now: uint64, ghost before: Book, rebuilt: map<OrderId, Entry>,
                    todo: set<OrderId>,
                    ghost done: set<OrderId>, ghost restored: nat, ghost addFailed: nat, maxId: OrderId)
    returns (ok: bool, greatest: OrderId)
    requires book.Valid() && Addable(rebuilt) && id in todo
    requires Restoring(before, book.view, rebuilt, todo, done, restored, addFailed, maxId, now)
    modifies book, book.slots
    ensures book.Valid()
    ensures ok ==> Restoring(before, book.view, rebuilt, todo - {id}, done + {id}, restored + 1, addFailed, greatest,
                             now)
    ensures !ok ==> Restoring(before, book.view, rebuilt, todo - {id}, done, restored, addFailed + 1, greatest, now)
  {
    hide book.Valid, RestoredFrom, CounterPast, Add, CanAdd, Midway, Addable, Roomy;
    OneTaken(rebuilt, todo, done, restored, addFailed, id);
    if Roomy(before, rebuilt) {
      RoomLeft(before, book.view, rebuilt, done, id, now);
    }
    if CanAdd(book.view, id) {
      OneMoreRestored(before, book.view, rebuilt, done, id, now, maxId);
    } else {
      UnchangedUnlessAddable(book.view, rebuilt[id], now);
    }
    ok := book.AddOrder(rebuilt[id], now);
    greatest := if ok && id > maxId then id else maxId;
  }

  lemma {:induction false} EligibleAtMost(slots: Slots, n: nat)
    requires n <= |slots|
    ensures EligibleCount(slots, n) <= n
  {
    if n > 0 {
      EligibleAtMost(slots, n - 1);
    }
  }

  /** Main result: recovery restores, from its latest eligible slot, each order that has one, drops the other eligible
      slots as duplicates, and leaves the id counter past the upstream counter and every restored id. Into an empty book
      as large as the pool no addition fails. */
  method Recover(book: OrderBook, slots: Slots, upstreamNext: Option<uint32>, now: uint64)
    returns (stats: Stats, c: map<OrderId, nat>, rebuilt: map<OrderId, Entry>, ghost done: set<OrderId>)
    requires book.Valid() && |slots| <= U32_MAX
    modifies book, book.slots
    ensures book.Valid() && Candidates(slots, |slots|, c) && Rebuilt(slots, c, rebuilt, now) && done <= rebuilt.Keys
    ensures RestoredFrom(old(book.view), book.view, rebuilt, done, now)
    ensures stats.scanned == |slots| && stats.unreadable == UnreadableCount(slots, |slots|)
    ensures stats.eligible == EligibleCount(slots, |slots|) == stats.restored + stats.addFailed + stats.dedupDropped
    ensures stats.restored == |done|
    ensures book.view.nextId == Max(old(book.view).nextId, stats.nextOrderSeed)
    ensures upstreamNext.Some? ==> book.view.nextId >= upstreamNext.value
    ensures forall id :: id in done && id < U32_MAX ==> id < book.view.nextId
    ensures old(book.view).entries == map[] && |slots| <= old(book.view).capacity ==>
              stats.addFailed == 0 && done == rebuilt.Keys == c.Keys && book.view.entries.Keys == done
  {
    hide book.Valid, Candidates, RestoredFrom, CounterPast, Addable, Rebuilt, Roomy;
    c, stats, rebuilt := Collect(slots, now);
    if book.view.entries == map[] && |slots| <= book.view.capacity {
      EmptyIsRoomy(book.view, rebuilt);
    }
    var restored, addFailed, maxId;
    restored, addFailed, maxId, done := Restore(book, rebuilt, now);
    stats := stats.(restored := restored, addFailed := addFailed);
    KeysAfterRestore(old(book.view), book.view, rebuilt, done, now);
    var seed := RaiseCounter(book, upstreamNext, maxId, old(book.view), rebuilt, done, now);
    stats := stats.(nextOrderSeed := seed);
  }

  lemma EmptyIsRoomy(b: Book, rebuilt: map<OrderId, Entry>)
    requires b.entries == map[] && |rebuilt| <= b.capacity
    ensures Roomy(b, rebuilt)
  {
  }

  /** The first phase: candidates, and the entries they are rebuilt to. */
  method Collect(slots: Slots, now: uint64) returns (c: map<OrderId, nat>, stats: Stats, rebuilt: map<OrderId, Entry>)
    requires |slots| <= U32_MAX
    ensures Candidates(slots, |slots|, c) && Rebuilt(slots, c, rebuilt, now) && Addable(rebuilt)
    ensures rebuilt.Keys == c.Keys && |rebuilt| <= |slots|
    ensures stats.scanned == |slots| && stats.unreadable == UnreadableCount(slots, |slots|)
    ensures stats.eligible == EligibleCount(slots, |slots|) == |rebuilt| + stats.dedupDropped
  {
    hide Candidates, Addable;
    c, stats := Scan(slots);
    EligibleAtMost(slots, |slots|);
    rebuilt := Rebuild(slots, c, now);
    assert |rebuilt| == |rebuilt.Keys| == |c.Keys| == |c|;
  }

  /** Merges the upstream counter with the greatest restored id. */
  method RaiseCounter(book: OrderBook, upstreamNext: Option<uint32>, maxId: OrderId,
                      ghost before: Book, ghost rebuilt: map<OrderId, Entry>, ghost done: set<OrderId>,
                        ghost now: uint64)
    returns (seed: uint32)
    requires book.Valid() && RestoredFrom(before, book.view, rebuilt, done, now)
             && CounterPast(before, book.view, done, maxId)
    modifies book
    ensures book.Valid() && RestoredFrom(before, book.view, rebuilt, done, now)
            && book.view.entries == old(book.view).entries
    ensures book.view.nextId == Max(before.nextId, seed)
    ensures upstreamNext.Some? ==> book.view.nextId >= upstreamNext.value
    ensures forall id :: id in done && id < U32_MAX ==> id < book.view.nextId
  {
    hide book.Valid, RestoredFrom;
    seed := if upstreamNext.Some? then upstreamNext.value else 1;
    var recoveredNext := SaturatedNextId(maxId);
    if recoveredNext > seed {
      seed := recoveredNext;
    }
    CounterOnly(before, book.view, rebuilt, done, now, Max(book.view.nextId, seed));
    book.EnsureNextOrderIdAtLeast(seed);
  }

  lemma KeysAfterRestore(before: Book, after: Book, rebuilt: map<OrderId, Entry>, done: set<OrderId>, now: uint64)
    requires RestoredFrom(before, after, rebuilt, done, now)
    ensures after.entries.Keys == before.entries.Keys + done
  {
  }

  lemma CounterOnly(before: Book, after: Book, rebuilt: map<OrderId, Entry>, done: set<OrderId>, now: uint64,
                    nextId: uint32)
    requires RestoredFrom(before, after, rebuilt, done, now)
    ensures RestoredFrom(before, after.(nextId := nextId), rebuilt, done, now)
  {
  }

  // ---------- What comes back ----------

  /** A slot that could be read shows an order on its way downstream, queued or already taken from the queue, with an id
      and not ended. */
  ghost predicate Underway(slots: Slots, i: nat, id: OrderId) {
    && i < |slots| && slots[i].Some? && id > 0 && slots[i].value.request.id == id
    && slots[i].value.stage in {DownstreamQueued, DownstreamDequeued}
    && !IsTerminal(slots[i].value.request.state)
  }

  /** An order is a candidate exactly if some slot shows it underway; and it is taken from the slot written last, among
      equals from the last one. */
  lemma UnderwayIsCandidate(slots: Slots, c: map<OrderId, nat>, id: OrderId)
    requires Candidates(slots, |slots|, c)
    ensures id in c <==> exists i: nat :: Underway(slots, i, id)
    ensures id in c ==>
              && Underway(slots, c[id], id)
              && forall i: nat :: Underway(slots, i, id) ==>
                   && slots[i].value.updatedNs <= slots[c[id]].value.updatedNs
                   && (slots[i].value.updatedNs == slots[c[id]].value.updatedNs ==> i <= c[id])
  {
    forall i: nat ensures Underway(slots, i, id) <==> Claims(slots, |slots|, i, id) && id > 0 {
    }
    if id in c {
      assert Latest(slots, |slots|, c[id], id);
      ClaimsHaveIds(slots, |slots|, c[id], id);
    }
  }

  lemma ClaimsHaveIds(slots: Slots, n: nat, i: nat, id: OrderId)
    requires n <= |slots| && Claims(slots, n, i, id)
    ensures id > 0
  {
  }

  /** Main result: where every candidate was taken, exactly the orders underway are booked in addition, each as its
      last slot shows it, in its state and with its volumes, on its own, without cash, and stamped with the time of
      that slot. */
  lemma RecoveredAsShown(slots: Slots, c: map<OrderId, nat>, before: Book, after: Book, rebuilt: map<OrderId, Entry>,
                         now: uint64, id: OrderId)
    requires Candidates(slots, |slots|, c) && Rebuilt(slots, c, rebuilt, now)
    requires RestoredFrom(before, after, rebuilt, rebuilt.Keys, now)
    ensures id in after.entries <==> id in before.entries || exists i: nat :: Underway(slots, i, id)
    ensures (exists i: nat :: Underway(slots, i, id)) ==>
              && id in c && Underway(slots, c[id], id) && id in after.entries
              && var e, shown := after.entries[id], slots[c[id]].value;
                 && e.id == id && e.kind == shown.request.kind && e.side == shown.request.side
                 && e.state == shown.request.state && e.securityKey == shown.request.securityKey
                 && e.entrust == shown.request.entrust && e.traded == shown.request.traded
                 && e.price == shown.request.price && e.brokerId == shown.request.brokerId
                 && e.slotIndex == c[id] && e.fundFrozen == 0 && !e.isSplitChild && e.parent == 0
                 && e.submitNs == e.updatedNs == (if shown.updatedNs > 0 then shown.updatedNs else now)
  {
    UnderwayIsCandidate(slots, c, id);
    hide Candidates, Underway;
  }

  // ---------- What recovery forgets ----------

  lemma RebuiltHoldNothing(slots: Slots, c: map<OrderId, nat>, rebuilt: map<OrderId, Entry>, now: uint64)
    requires Rebuilt(slots, c, rebuilt, now)
    ensures forall id :: id in rebuilt ==> rebuilt[id].fundFrozen == 0
  {
  }

  /** Right after recovery into an empty book no order holds cash: whatever the fund row shows as frozen belongs
      to none. */
  lemma RecoveryForgetsReservations(before: Book, after: Book, slots: Slots, c: map<OrderId, nat>,
                                    rebuilt: map<OrderId, Entry>,
                                    done: set<OrderId>, fund: FundRow.Fund, nextOrderId: uint32, queue: seq<uint32>,
                                    now: uint64)
    requires RestoredFrom(before, after, rebuilt, done, now) && Rebuilt(slots, c, rebuilt, now) && Addable(rebuilt)
    requires before.entries == map[] && BookOk(before) && Cash.CashFits(fund)
    ensures Cash.Reserved(Cash.Loop(Routing(after, nextOrderId, queue), fund, map[]), fund.frozen)
  {
    RebuiltHoldNothing(slots, c, rebuilt, now);
    RestoredHoldNothing(before, after, rebuilt, done, now);
    hide *;
    EmptyHandedIsReserved(Cash.Loop(Routing(after, nextOrderId, queue), fund, map[]));
  }

  lemma EmptyHandedIsReserved(l: Cash.Loop)
    requires Cash.CashFits(l.fund) && l.routing.book.managed == {}
    requires forall id :: id in l.routing.book.entries ==>
               l.routing.book.entries[id].id == id && l.routing.book.entries[id].fundFrozen == 0
    ensures Cash.Reserved(l, l.fund.frozen)
  {
    SumZero(Cash.FrozenOf(l.routing.book.entries));
    hide Sum;
  }

  lemma RestoredHoldNothing(before: Book, after: Book, rebuilt: map<OrderId, Entry>, done: set<OrderId>, now: uint64)
    requires RestoredFrom(before, after, rebuilt, done, now) && Addable(rebuilt)
    requires forall id :: id in rebuilt ==> rebuilt[id].fundFrozen == 0
    requires before.entries == map[] && BookOk(before)
    ensures after.managed == {}
    ensures forall id :: id in after.entries ==> after.entries[id].id == id && after.entries[id].fundFrozen == 0
  {
    forall id | id in after.entries ensures after.entries[id].id == id && after.entries[id].fundFrozen == 0 {
      StoredKeepsIdentity(rebuilt[id], now);
    }
  }

  /** So cash that was frozen when the service stopped stays frozen: no covered run after recovery gives any of
      it back. */
  lemma OldReservationsStayFrozen(l: Cash.Loop, c: Cash.Config, events: seq<Cash.Event>)
    requires Cash.Reserved(l, l.fund.frozen) && Cash.CoveredRun(l, c, events)
    ensures Cash.RunLoop(l, c, events).fund.frozen >= l.fund.frozen
  {
    Cash.EveryRunKeepsReserved(l, l.fund.frozen, c, events);
    Cash.ReservedFrozen(Cash.RunLoop(l, c, events), l.fund.frozen);
  }
}
