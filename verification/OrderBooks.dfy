/** The order book in memory: a fixed slot array, a stack of free slots, and indexes by id, broker id, security and
    parent, all updated in place (src/order/order_book.cpp). It refines the value of module OrderBookModel. */
module OrderBooks {
  import opened Integers
  import opened OrderTypes
  import opened SecurityIdentity
  import opened OrderBookModel

  // ---------- The security and broker indexes ----------

  /** The security index lists, without repetition, exactly the booked ids of each normalized key, and no empty list. */
  ghost predicate SecurityOk(m: map<string, seq<OrderId>>, entries: map<OrderId, Entry>) {
    && (forall key :: key in m ==> m[key] != [] && Distinct(m[key]))
    && (forall key, id :: key in m && id in m[key] ==> id in entries && KeyOf(entries[id]) == Some(key))
    && (forall id :: id in entries && KeyOf(entries[id]).Some? ==>
          KeyOf(entries[id]).value in m && id in m[KeyOf(entries[id]).value])
  }

  /** A broker id leads to a booked order that carries it. */
  ghost predicate BrokerOk(m: map<uint64, OrderId>, entries: map<OrderId, Entry>) {
    forall b :: b in m ==> b != 0 && m[b] in entries && entries[m[b]].brokerId == b
  }

  function Without(ids: seq<OrderId>, id: OrderId): (r: seq<OrderId>)
    ensures forall x :: x in r <==> x in ids && x != id
  {
    if ids == [] then []
    else
      var n := |ids| - 1;
      assert ids == ids[..n] + [ids[n]];
      Without(ids[..n], id) + (if ids[n] == id then [] else [ids[n]])
  }

  lemma {:induction false} WithoutIsDistinct(ids: seq<OrderId>, id: OrderId)
    requires Distinct(ids)
    ensures Distinct(Without(ids, id))
    decreases |ids|
  {
    if ids != [] {
      var n := |ids| - 1;
      var rest := Without(ids[..n], id);
      WithoutIsDistinct(ids[..n], id);
      forall i | 0 <= i < |rest| ensures rest[i] != ids[n] {
        assert rest[i] in rest;
      }
    }
  }

  function FileUnder(m: map<string, seq<OrderId>>, key: string, id: OrderId): map<string, seq<OrderId>> {
    m[key := (if key in m then m[key] else []) + [id]]
  }

  function Unfile(m: map<string, seq<OrderId>>, key: string, id: OrderId): map<string, seq<OrderId>> {
    if key !in m then m
    else
      var rest := Without(m[key], id);
      if rest == [] then m - {key} else m[key := rest]
  }

  lemma FileNewOrder(m: map<string, seq<OrderId>>, entries: map<OrderId, Entry>, id: OrderId, e: Entry)
    requires SecurityOk(m, entries) && id !in entries
    ensures SecurityOk(if KeyOf(e).Some? then FileUnder(m, KeyOf(e).value, id) else m, entries[id := e])
  {
    hide KeyOf;
  }

  lemma UnfileOrder(m: map<string, seq<OrderId>>, entries: map<OrderId, Entry>, id: OrderId)
    requires SecurityOk(m, entries) && id in entries
    ensures SecurityOk(if KeyOf(entries[id]).Some? then Unfile(m, KeyOf(entries[id]).value, id) else m, entries - {id})
  {
    hide KeyOf, Distinct, Without;
    if KeyOf(entries[id]).Some? {
      var key := KeyOf(entries[id]).value;
      WithoutIsDistinct(m[key], id);
      var m' := Unfile(m, key, id);
      forall x | x in entries - {id} && KeyOf(entries[x]).Some?
        ensures KeyOf(entries[x]).value in m' && x in m'[KeyOf(entries[x]).value]
      {
        assert x in m[KeyOf(entries[x]).value];
        if KeyOf(entries[x]).value == key {
          assert x in Without(m[key], id);
        }
      }
    }
  }

  lemma BrokerNewOrder(m: map<uint64, OrderId>, entries: map<OrderId, Entry>, id: OrderId, e: Entry)
    requires BrokerOk(m, entries) && id !in entries
    ensures BrokerOk(if e.brokerId != 0 then m[e.brokerId := id] else m, entries[id := e])
  {
  }

  /** Every booked order that carries a broker id has that id in the index. */
  ghost predicate BrokerComplete(m: map<uint64, OrderId>, entries: map<OrderId, Entry>) {
    forall id :: id in entries && entries[id].brokerId != 0 ==> entries[id].brokerId in m
  }

  /** Archiving an order keeps all others findable exactly if the index does not lead to it, or no other order shares
      its broker id. */
  lemma ForgettingKeepsOthersFoundExactly(m: map<uint64, OrderId>, entries: map<OrderId, Entry>, id: OrderId)
    requires BrokerOk(m, entries) && BrokerComplete(m, entries) && id in entries && entries[id].id == id
    ensures var b := entries[id].brokerId;
            BrokerComplete(Forgotten(m, entries[id]), entries - {id})
            <==> b == 0 || m[b] != id || forall x :: x in entries && x != id ==> entries[x].brokerId != b
  {
    var b := entries[id].brokerId;
    if b != 0 && m[b] == id && exists x :: x in entries && x != id && entries[x].brokerId == b {
      var x :| x in entries && x != id && entries[x].brokerId == b;
      assert x in entries - {id};
    }
  }

  lemma BrokerForget(m: map<uint64, OrderId>, entries: map<OrderId, Entry>, id: OrderId)
    requires BrokerOk(m, entries) && id in entries
    ensures var b := entries[id].brokerId;
            BrokerOk(if b != 0 && b in m && m[b] == id then m - {b} else m, entries - {id})
  {
  }

  /** The broker index without the entry that leads to a given order. */
  function Forgotten(m: map<uint64, OrderId>, e: Entry): map<uint64, OrderId> {
    if e.brokerId != 0 && e.brokerId in m && m[e.brokerId] == e.id then m - {e.brokerId} else m
  }

  lemma ManagedStays(b: Book, p: OrderId)
    requires p in b.managed
    ensures Refresh(b, p) == b
  {
  }

  lemma ReplaceOnlyProgress(entries: map<OrderId, Entry>, id: OrderId, e: Entry)
    requires id in entries && KeepsIdentity(entries[id], e)
    ensures OnlyProgress(entries, entries[id := e])
  {
  }

  lemma SameKey(e: Entry, e': Entry)
    requires SameIdentity(e, e')
    ensures KeyOf(e') == KeyOf(e) && e'.brokerId == e.brokerId
  {
    hide Normalize;
  }

  lemma IndexesSurviveProgress(m: map<string, seq<OrderId>>, brokers: map<uint64, OrderId>, before: map<OrderId, Entry>,
                               after: map<OrderId, Entry>)
    requires SecurityOk(m, before) && BrokerOk(brokers, before)
    requires before.Keys == after.Keys && OnlyProgress(before, after)
    ensures SecurityOk(m, after) && BrokerOk(brokers, after)
  {
    hide KeyOf, SecurityOk, BrokerOk;
    forall id | id in before
      ensures KeyOf(after[id]) == KeyOf(before[id])
              && after[id].brokerId == before[id].brokerId
    {
      SameKey(before[id], after[id]);
    }
    hide OnlyProgress;
    SecuritySurvives(m, before, after);
    BrokerSurvives(brokers, before, after);
  }

  lemma SecuritySurvives(m: map<string, seq<OrderId>>, before: map<OrderId, Entry>, after: map<OrderId, Entry>)
    requires SecurityOk(m, before) && before.Keys == after.Keys
    requires forall id :: id in before ==> KeyOf(after[id]) == KeyOf(before[id])
    ensures SecurityOk(m, after)
  {
    hide KeyOf, Distinct;
  }

  lemma BrokerSurvives(brokers: map<uint64, OrderId>, before: map<OrderId, Entry>, after: map<OrderId, Entry>)
    requires BrokerOk(brokers, before) && before.Keys == after.Keys
    requires forall id :: id in before ==> after[id].brokerId == before[id].brokerId
    ensures BrokerOk(brokers, after)
  {
  }

  // ---------- Slots ----------

  /** The free stack and the id index share out `n` slots: none is listed twice, none by both, none is missing. */
  ghost predicate SharedOut(index: map<OrderId, nat>, free: seq<nat>, n: nat) {
    && (forall id :: id in index ==> index[id] < n && index[id] !in free)
    && (forall a, b :: a in index && b in index && index[a] == index[b] ==> a == b)
    && (forall i :: 0 <= i < |free| ==> free[i] < n)
    && (forall i, j :: 0 <= i < j < |free| ==> free[i] != free[j])
    && |index| + |free| == n
  }

  lemma PopKeepsShared(index: map<OrderId, nat>, free: seq<nat>, n: nat, id: OrderId)
    requires SharedOut(index, free, n) && id !in index && free != []
    ensures var top := free[|free| - 1];
            && SharedOut(index[id := top], free[..|free| - 1], n)
            && top < n && top !in free[..|free| - 1] && forall x :: x in index ==> index[x] != top
  {
    assert |index[id := free[|free| - 1]]| == |index| + 1;
  }

  lemma PushKeepsShared(index: map<OrderId, nat>, free: seq<nat>, n: nat, id: OrderId)
    requires SharedOut(index, free, n) && id in index
    ensures SharedOut(index - {id}, free + [index[id]], n)
    ensures index[id] < n && index[id] !in free && forall x :: x in index && x != id ==> index[x] != index[id]
  {
    assert (index - {id}).Keys == index.Keys - {id};
    assert |index - {id}| == |(index - {id}).Keys| == |index| - 1;
  }

  /** The booked entries are those in the cells that the id index leads to; the cells on the free stack are blank. */
  ghost predicate Layout(entries: map<OrderId, Entry>, index: map<OrderId, nat>, free: seq<nat>, cells: seq<Entry>) {
    && SharedOut(index, free, |cells|)
    && (forall i :: i in free ==> i < |cells| && cells[i] == BLANK)
    && entries.Keys == index.Keys
    && forall id :: id in index ==> index[id] < |cells| && entries[id] == cells[index[id]]
  }

  lemma TakeKeepsLayout(entries: map<OrderId, Entry>, index: map<OrderId, nat>, free: seq<nat>, cells: seq<Entry>,
                        id: OrderId, e: Entry)
    requires Layout(entries, index, free, cells) && id !in entries && free != []
    ensures var top := free[|free| - 1];
            top < |cells| && Layout(entries[id := e], index[id := top], free[..|free| - 1], cells[top := e])
  {
    hide SharedOut;
    PopKeepsShared(index, free, |cells|, id);
    assert free[|free| - 1] in free;
  }

  lemma ReleaseKeepsLayout(entries: map<OrderId, Entry>, index: map<OrderId, nat>, free: seq<nat>, cells: seq<Entry>,
                           id: OrderId)
    requires Layout(entries, index, free, cells) && id in entries
    ensures index[id] < |cells| && Layout(entries - {id}, index - {id}, free + [index[id]], cells[index[id] := BLANK])
  {
    hide SharedOut;
    PushKeepsShared(index, free, |cells|, id);
  }

  lemma OverwriteKeepsLayout(entries: map<OrderId, Entry>, index: map<OrderId, nat>, free: seq<nat>, cells: seq<Entry>,
                             id: OrderId, e: Entry)
    requires Layout(entries, index, free, cells) && id in entries
    ensures index[id] < |cells| && Layout(entries[id := e], index, free, cells[index[id] := e])
  {
    hide SharedOut;
    PushKeepsShared(index, free, |cells|, id);
  }

  lemma BlankLayout(free: seq<nat>, cells: seq<Entry>)
    requires |free| == |cells| && forall j :: 0 <= j < |cells| ==> cells[j] == BLANK && free[j] == |cells| - 1 - j
    ensures Layout(map[], map[], free, cells)
  {
  }

  // ---------- The book ----------

  class OrderBook {
    const slots: array<Entry>
    var index: map<OrderId, nat>
    var free: seq<nat>
    var brokers: map<uint64, OrderId>
    var bySecurity: map<string, seq<OrderId>>
    var children: map<OrderId, seq<OrderId>>
    var parentOf: map<OrderId, OrderId>
    var managed: set<OrderId>
    var latched: set<OrderId>
    var active: nat
    var nextId: uint32
    /** The book that the slots and relations represent. */
    ghost var view: Book

    ghost predicate EntriesOk()
      reads this`index, this`free, this`view, slots
    {
      && view.capacity == slots.Length
      && Layout(view.entries, index, free, slots[..])
    }

    ghost predicate Tied()
      reads this`index, this`free, this`view, this`children, this`parentOf, this`managed, this`latched, this`nextId,
            slots
    {
      && EntriesOk()
      && children == view.children && parentOf == view.parentOf
      && managed == view.managed && latched == view.latched && nextId == view.nextId
    }

    ghost predicate Indexed()
      reads this`view, this`brokers, this`bySecurity, this`active
    {
      && active == |view.entries|
      && BookOk(view)
      && SecurityOk(bySecurity, view.entries)
      && BrokerOk(brokers, view.entries)
    }

    ghost predicate Valid()
      reads this, slots
    {
      Tied() && Indexed()
    }

    /** Every slot is either free or owned by a booked order, and never both. */
    lemma SlotsArePartitioned(i: nat)
      requires Valid() && i < slots.Length
      ensures i in free <==> !exists id :: id in index && index[id] == i
    {
      assert SharedOut(index, free, slots.Length) by {
        hide SharedOut, Indexed;
      }
      hide Valid, Layout;
      EverySlotIsShared(index, free, slots.Length, i);
    }

    static lemma EverySlotIsShared(index: map<OrderId, nat>, free: seq<nat>, n: nat, i: nat)
      requires SharedOut(index, free, n) && i < n
      ensures i in free <==> !exists id :: id in index && index[id] == i
    {
      var used, unused := Image(index), SetOf(free);
      CountUsed(index);
      CountFree(free);
      assert used !! unused && used <= Upto(n) && unused <= Upto(n) && |index| + |free| == n;
      assert i in used <==> exists id :: id in index && index[id] == i;
      hide SharedOut;
      assert |used + unused| == |used| + |unused|;
      SubsetOfSameSize(used + unused, Upto(n));
    }

    static ghost function Upto(n: nat): (r: set<nat>)
      ensures |r| == n && forall j :: j in r <==> 0 <= j < n
    {
      if n == 0 then {} else Upto(n - 1) + {n - 1}
    }

    static ghost function Image(m: map<OrderId, nat>): (r: set<nat>)
      ensures forall j :: j in r <==> exists id :: id in m && m[id] == j
    {
      set id | id in m :: m[id]
    }

    static lemma {:induction false} CountUsed(m: map<OrderId, nat>)
      requires forall a, b :: a in m && b in m && m[a] == m[b] ==> a == b
      ensures |Image(m)| == |m|
      decreases m.Keys
    {
      hide Image;
      if m != map[] {
        var id :| id in m;
        var rest := m - {id};
        CountUsed(rest);
        assert m.Keys == rest.Keys + {id};
        assert |m| == |m.Keys| && |rest| == |rest.Keys|;
        assert m[id] !in Image(rest);
        SplitImage(m, id);
      } else {
        assert Image(m) == {};
      }
    }

    static lemma SplitImage(m: map<OrderId, nat>, id: OrderId)
      requires id in m
      ensures Image(m) == Image(m - {id}) + {m[id]}
    {
      hide Image;
      forall j | j in Image(m) ensures j in Image(m - {id}) + {m[id]} {
        var x :| x in m && m[x] == j;
        assert x != id ==> x in m - {id} && (m - {id})[x] == j;
      }
    }

    static ghost function SetOf(s: seq<nat>): (r: set<nat>)
      ensures forall j :: j in r <==> j in s
    {
      if s == [] then {}
      else
        assert s == s[..|s| - 1] + [s[|s| - 1]];
        SetOf(s[..|s| - 1]) + {s[|s| - 1]}
    }

    static lemma {:induction false} CountFree(s: seq<nat>)
      requires forall i, j :: 0 <= i < j < |s| ==> s[i] != s[j]
      ensures |SetOf(s)| == |s|
      decreases |s|
    {
      if s != [] {
        CountFree(s[..|s| - 1]);
        assert s[|s| - 1] !in s[..|s| - 1];
      }
    }

    static lemma SubsetOfSameSize(a: set<nat>, b: set<nat>)
      requires a <= b && |a| == |b|
      ensures a == b
    {
      assert |b - a| == |b| - |a|;
    }

    constructor (capacity: nat)
      ensures Valid() && view == EmptyBook(capacity) && fresh(slots)
    {
      slots := new Entry[capacity](_ => BLANK);
      index, free := map[], seq(capacity, i requires 0 <= i < capacity => capacity - 1 - i);
      brokers, bySecurity, children, parentOf := map[], map[], map[], map[];
      managed, latched, active, nextId := {}, {}, 0, 1;
      view := EmptyBook(capacity);
    }

    // ---------- Slots ----------

    lemma RoomExactly()
      requires EntriesOk()
      ensures free != [] <==> |view.entries| < view.capacity
    {
      assert |view.entries| == |view.entries.Keys| == |index.Keys| == |index|;
    }

    /** The entry of a booked order. */
    method Lookup(id: OrderId) returns (e: Entry)
      requires Tied() && id in view.entries
      ensures e == view.entries[id]
    {
      SlotOf(id);
      hide Layout;
      e := slots[index[id]];
    }

    method IsBooked(id: OrderId) returns (b: bool)
      requires Tied()
      ensures b == (id in view.entries)
    {
      b := id in index;
    }

    /** Overwrites the slot of a booked order. */
    method Overwrite(id: OrderId, e: Entry)
      requires Tied() && id in view.entries
      modifies slots, this`view
      ensures Tied() && view == old(view).(entries := old(view).entries[id := e])
    {
      hide Layout;
      OverwriteKeepsLayout(view.entries, index, free, slots[..], id, e);
      SlotOf(id);
      slots[index[id]] := e;
      assert slots[..] == old(slots[..])[index[id] := e];
      view := view.(entries := view.entries[id := e]);
    }

    lemma SlotOf(id: OrderId)
      requires EntriesOk()
      ensures id in view.entries <==> id in index
      ensures id in index ==> index[id] < slots.Length && slots[index[id]] == view.entries[id]
    {
      hide SharedOut;
    }

    /** Pops a free slot for a new order. */
    method TakeSlot(id: OrderId, e: Entry)
      requires Tied() && id !in view.entries && free != []
      modifies this`free, this`index, this`view, slots
      ensures Tied() && view == old(view).(entries := old(view).entries[id := e])
    {
      hide Layout;
      TakeKeepsLayout(view.entries, index, free, slots[..], id, e);
      var slot := free[|free| - 1];
      free := free[..|free| - 1];
      slots[slot] := e;
      assert slots[..] == old(slots[..])[slot := e];
      index := index[id := slot];
      view := view.(entries := view.entries[id := e]);
    }

    /** Blanks the slot of an order and pushes it on the free stack. */
    method ReleaseSlot(id: OrderId)
      requires Tied() && id in view.entries
      modifies this`free, this`index, this`view, slots
      ensures Tied() && view == old(view).(entries := old(view).entries - {id})
    {
      hide Layout;
      ReleaseKeepsLayout(view.entries, index, free, slots[..], id);
      SlotOf(id);
      var slot := index[id];
      index := index - {id};
      slots[slot] := BLANK;
      assert slots[..] == old(slots[..])[slot := BLANK];
      free := free + [slot];
      view := view.(entries := view.entries - {id});
    }

    // ---------- Aggregation ----------

    /** The loop over a parent's children. */
    method CollectTotals(parentId: OrderId) returns (t: Totals)
      requires Tied() && parentId in index && parentId in children
      ensures parentId in view.entries && t == Aggregate(view.entries[parentId], view.entries, children[parentId])
    {
      hide SaturatingAdd, ProgressRank, IsTerminal;
      var ids := children[parentId];
      t := NoTotals(slots[index[parentId]]);
      for i := 0 to |ids|
        invariant t == Aggregate(view.entries[parentId], view.entries, ids[..i])
      {
        assert ids[..i + 1][..i] == ids[..i];
        if ids[i] in index {
          t := Accumulate(t, slots[index[ids[i]]]);
        }
      }
      assert ids[..|ids|] == ids;
    }

    method RefreshParent(parentId: OrderId)
      requires Tied()
      modifies slots, this`view
      ensures Tied() && view == Refresh(old(view), parentId)
    {
      hide Layout, Aggregate, Aggregated;
      SlotOf(parentId);
      if parentId in managed {
        return;
      }
      if parentId !in index {
        return;
      }
      if parentId !in children {
        return;
      }
      var t := CollectTotals(parentId);
      if t.count == 0 {
        return;
      }
      var parent := Lookup(parentId);
      Overwrite(parentId, Aggregated(parent, t, parentId in latched));
    }

    // ---------- Operations ----------

    /** The three checks of an addition: a nonzero id, not booked yet, and a slot left for it. */
    method HasPlace(id: OrderId) returns (ok: bool)
      requires Tied()
      ensures ok == CanAdd(view, id)
      ensures ok ==> free != [] && id !in view.entries
    {
      hide Layout;
      RoomExactly();
      SlotOf(id);
      if id == 0 {
        return false;
      }
      if id in index {
        return false;
      }
      if free == [] {
        return false;
      }
      ok := true;
    }

    method AddOrder(e: Entry, now: uint64) returns (ok: bool)
      requires Valid()
      modifies this, slots
      ensures Valid() && view == Add(old(view), e, now)
      ensures ok == CanAdd(old(view), e.id)
      ensures brokers == if ok && e.brokerId != 0 then old(brokers)[e.brokerId := e.id] else old(brokers)
    {
      hide Tied, EntriesOk, CanAdd, Layout, BookOk, SecurityOk, BrokerOk, Linked, OrderBookModel.Stored, KeyOf;
      ok := HasPlace(e.id);
      if !ok {
        return;
      }
      AddKeepsOk(view, e, now);
      AddCounts(view, e, now);
      StoredKeepsIdentity(e, now);
      SameKey(e, OrderBookModel.Stored(e, now));
      var stored := OrderBookModel.Stored(e, now);
      FileNewOrder(bySecurity, view.entries, e.id, stored);
      BrokerNewOrder(brokers, view.entries, e.id, stored);
      TakeSlot(e.id, stored);
      RaiseNextId(SaturatedNextId(e.id));
      Index(e.id, e);
      LinkToParent(e);
      active := active + 1;
    }

    method RaiseNextId(floor: uint32)
      requires Tied()
      modifies this`nextId, this`view
      ensures Tied() && view == old(view).(nextId := Max(old(view).nextId, floor))
    {
      hide Layout;
      if nextId < floor {
        nextId := floor;
      }
      view := view.(nextId := nextId);
    }

    method EnsureNextOrderIdAtLeast(floor: uint32)
      requires Valid()
      modifies this`nextId, this`view
      ensures Valid() && view == old(view).(nextId := Max(old(view).nextId, floor))
    {
      hide Tied, EntriesOk, Layout, SecurityOk, BrokerOk;
      RaiseNextId(floor);
    }

    /** Enters a new order into the broker and security indexes. */
    method Index(id: OrderId, e: Entry)
      modifies this`brokers, this`bySecurity
      ensures brokers == if e.brokerId != 0 then old(brokers)[e.brokerId := id] else old(brokers)
      ensures bySecurity == if KeyOf(e).Some? then FileUnder(old(bySecurity), KeyOf(e).value, id) else old(bySecurity)
    {
      hide Normalize;
      if e.brokerId != 0 {
        brokers := brokers[e.brokerId := id];
      }
      if e.securityKey != "" {
        var key := Normalize(e.securityKey);
        if key.Some? {
          bySecurity := FileUnder(bySecurity, key.value, id);
        }
      }
    }

    /** Lists a split child under its parent and refreshes the parent. */
    method LinkToParent(e: Entry)
      requires Tied() && SecurityOk(bySecurity, view.entries) && BrokerOk(brokers, view.entries)
      modifies this`children, this`parentOf, this`view, slots
      ensures Tied() && view == Linked(old(view), e)
      ensures SecurityOk(bySecurity, view.entries) && BrokerOk(brokers, view.entries)
    {
      hide Layout, SecurityOk, BrokerOk, Refresh;
      if e.isSplitChild && e.parent != 0 {
        children := children[e.parent := (if e.parent in children then children[e.parent] else []) + [e.id]];
        parentOf := parentOf[e.id := e.parent];
        view := view.(children := children, parentOf := parentOf);
        RefreshOnlyProgress(view, e.parent);
        IndexesSurviveProgress(bySecurity, brokers, view.entries, Refresh(view, e.parent).entries);
        if e.parent in managed {
          ManagedStays(view, e.parent);
        } else {
          RefreshParent(e.parent);
        }
      }
    }

    /** Replaces a booked entry, latches it if asked to, and refreshes the parent it may have. */
    method ChangeEntry(id: OrderId, e: Entry, latch: bool)
      requires Valid() && id in view.entries && KeepsIdentity(view.entries[id], e)
      modifies this`latched, this`view, slots
      ensures Valid()
      ensures view == Change(old(view), id, e, if latch then old(view).latched + {id} else old(view).latched)
    {
      ghost var latchedThen := if latch then view.latched + {id} else view.latched;
      hide Layout, BookOk, SecurityOk, BrokerOk, Refresh, OnlyProgress;
      OwnId(view, id);
      ChangeKeepsOk(view, id, e, latchedThen);
      ChangeOnlyProgress(view, id, e, latchedThen);
      SameSize(view.entries, Change(view, id, e, latchedThen).entries);
      IndexesSurviveProgress(bySecurity, brokers, view.entries, Change(view, id, e, latchedThen).entries);
      Replace(id, e, latch);
    }

    method Replace(id: OrderId, e: Entry, latch: bool)
      requires Tied() && id in view.entries
      modifies this`latched, this`view, slots
      ensures Tied()
      ensures view == Change(old(view), id, e, if latch then old(view).latched + {id} else old(view).latched)
    {
      hide Layout, Refresh;
      Overwrite(id, e);
      if latch {
        latched := latched + {id};
        view := view.(latched := latched);
      }
      if id in parentOf {
        if parentOf[id] in managed {
          ManagedStays(view, parentOf[id]);
        } else {
          RefreshParent(parentOf[id]);
        }
      }
    }

    method UpdateState(id: OrderId, state: OrderState, now: uint64) returns (ok: bool)
      requires Valid()
      modifies this`latched, this`view, slots
      ensures Valid() && view == OrderBookModel.UpdateState(old(view), id, state, now)
      ensures ok == (id in old(view).entries)
    {
      hide Layout, Indexed, Change;
      ok := IsBooked(id);
      if !ok {
        return;
      }
      var e := Lookup(id);
      var latch := state == TraderError && id in children && id !in managed;
      ChangeEntry(id, e.(state := state, updatedNs := now), latch);
    }

    method UpdateTrade(id: OrderId, volume: uint64, price: uint64, value: uint64, fee: uint64,
                       now: uint64) returns (ok: bool)
      requires Valid()
      modifies this`latched, this`view, slots
      ensures Valid() && view == OrderBookModel.UpdateTrade(old(view), id, volume, price, value, fee, now)
      ensures ok == (id in old(view).entries)
    {
      hide Layout, Indexed, Change, Trade;
      ok := IsBooked(id);
      if !ok {
        return;
      }
      var e := Lookup(id);
      TradeKeepsIdentity(e, volume, price, value, fee, now);
      e := Recorded(e, volume, price, value, fee, now);
      ChangeEntry(id, e, false);
    }

    /** The field updates of a trade, one after the other. */
    static method Recorded(e0: Entry, volume: uint64, price: uint64, value: uint64, fee: uint64,
                           now: uint64) returns (e: Entry)
      ensures e == Trade(e0, volume, price, value, fee, now)
    {
      e := e0.(traded := SaturatingAdd(e0.traded, volume));
      if e.entrust > 0 && e.traded > e.entrust {
        e := e.(traded := e.entrust);
      }
      if volume >= e.remain {
        e := e.(remain := 0);
      } else {
        e := e.(remain := e.remain - volume);
      }
      e := e.(value := SaturatingAdd(e.value, value), fee := SaturatingAdd(e.fee, fee));
      if e.traded > 0 {
        if e.value > 0 {
          e := e.(averagePrice := Average(e.value, e.traded));
        } else {
          e := e.(averagePrice := price);
        }
      }
      if e.remain == 0 && !IsTerminal(e.state) {
        e := e.(state := Finished);
      }
      e := e.(updatedNs := now);
    }

    /** Writes the reservation of an order through the pointer a lookup returned. */
    method SetFundFrozen(id: OrderId, amount: uint64)
      requires Valid() && id in view.entries
      modifies this`view, slots
      ensures Valid()
      ensures view == old(view).(entries := old(view).entries[id := old(view).entries[id].(fundFrozen := amount)])
    {
      hide Tied, EntriesOk, Layout, BookOk, SecurityOk, BrokerOk, KeyOf;
      var before := Lookup(id);
      var e := before.(fundFrozen := amount);
      OwnId(view, id);
      ReplaceKeepsOk(view, id, e);
      SameSize(view.entries, view.entries[id := e]);
      SameKey(before, e);
      SecuritySurvives(bySecurity, view.entries, view.entries[id := e]);
      BrokerSurvives(brokers, view.entries, view.entries[id := e]);
      Overwrite(id, e);
    }

    method MarkManagedParent(id: OrderId) returns (ok: bool)
      requires Valid()
      modifies this`managed, this`view
      ensures Valid() && view == MarkManaged(old(view), id)
      ensures ok == (id in old(view).entries)
    {
      hide Tied, EntriesOk, Layout, BookOk, SecurityOk, BrokerOk;
      ManageKeepsOk(view, id);
      ok := IsBooked(id);
      if !ok {
        return;
      }
      Manage(id);
    }

    method Manage(id: OrderId)
      requires Tied()
      modifies this`managed, this`view
      ensures Tied() && view == old(view).(managed := old(view).managed + {id})
    {
      hide Layout;
      managed := managed + {id};
      view := view.(managed := managed);
    }

    method SyncManagedParentView(id: OrderId, v: ManagedView, state: OrderState, now: uint64) returns (ok: bool)
      requires Valid()
      modifies this`managed, this`view, slots
      ensures Valid() && view == SyncManaged(old(view), id, v, state, now)
      ensures ok == (id in old(view).entries)
    {
      hide Tied, EntriesOk, Layout, BookOk, SecurityOk, BrokerOk, OnlyProgress, Mirrored;
      SyncKeepsOk(view, id, v, state, now);
      ok := IsBooked(id);
      if !ok {
        return;
      }
      var e := Lookup(id);
      var mirrored := Mirrored(e, v, state, now);
      MirrorKeepsIdentity(e, v, state, now);
      ReplaceOnlyProgress(view.entries, id, mirrored);
      SameSize(view.entries, view.entries[id := mirrored]);
      IndexesSurviveProgress(bySecurity, brokers, view.entries, view.entries[id := mirrored]);
      Overwrite(id, mirrored);
      Manage(id);
    }

    method ArchiveOrder(id: OrderId) returns (ok: bool)
      requires Valid()
      modifies this, slots
      ensures Valid() && view == Archive(old(view), id)
      ensures ok == (id in old(view).entries)
      ensures brokers == if ok then Forgotten(old(brokers), old(view).entries[id]) else old(brokers)
    {
      hide Tied, EntriesOk, Layout, BookOk, SecurityOk, BrokerOk, KeyOf;
      ok := IsBooked(id);
      if !ok {
        return;
      }
      ArchiveKeepsOk(view, id);
      OneLess(view.entries, id);
      OwnId(view, id);
      RemoveBooked(id);
      active := active - 1;
    }

    /** Takes a booked order out of the indexes, its slot and the sets of marks. */
    method RemoveBooked(id: OrderId)
      requires Tied() && id in view.entries && view.entries[id].id == id
      requires SecurityOk(bySecurity, view.entries) && BrokerOk(brokers, view.entries)
      modifies this, slots
      ensures Tied() && view == Archive(old(view), id) && active == old(active)
      ensures SecurityOk(bySecurity, view.entries) && BrokerOk(brokers, view.entries)
      ensures brokers == Forgotten(old(brokers), old(view).entries[id])
    {
      hide Tied, EntriesOk, Layout, SecurityOk, BrokerOk, KeyOf, Unfile;
      var e := Lookup(id);
      Unindex(id, e);
      ReleaseSlot(id);
      DropMarks(id);
    }

    method DropMarks(id: OrderId)
      requires Tied()
      modifies this`managed, this`latched, this`view
      ensures Tied() && view == old(view).(managed := old(view).managed - {id}, latched := old(view).latched - {id})
    {
      hide Layout;
      managed := managed - {id};
      latched := latched - {id};
      view := view.(managed := managed, latched := latched);
    }

    /** Takes an order out of the broker and security indexes. */
    method Unindex(id: OrderId, e: Entry)
      requires id in view.entries && e == view.entries[id]
      requires SecurityOk(bySecurity, view.entries) && BrokerOk(brokers, view.entries)
      modifies this`brokers, this`bySecurity
      ensures SecurityOk(bySecurity, view.entries - {id}) && BrokerOk(brokers, view.entries - {id})
      ensures e.id == id ==> brokers == Forgotten(old(brokers), e)
    {
      hide Normalize, SecurityOk, BrokerOk, Unfile;
      UnfileOrder(bySecurity, view.entries, id);
      BrokerForget(brokers, view.entries, id);
      if e.brokerId != 0 && e.brokerId in brokers && brokers[e.brokerId] == id {
        brokers := brokers - {e.brokerId};
      }
      if e.securityKey != "" {
        var key := Normalize(e.securityKey);
        if key.Some? {
          bySecurity := Unfile(bySecurity, key.value, id);
        }
      }
    }

    method Clear()
      requires Valid()
      modifies this, slots
      ensures Valid() && view == OrderBookModel.Clear(old(view)) && brokers == map[]
    {
      hide BookOk, Layout, SecurityOk, BrokerOk;
      ClearKeepsOk(view);
      NothingIndexed();
      ClearEntries();
      hide Tied, EntriesOk;
      brokers, bySecurity, active := map[], map[], 0;
    }

    static lemma NothingIndexed()
      ensures SecurityOk(map[], map[]) && BrokerOk(map[], map[])
    {
    }

    method ClearEntries()
      requires Tied()
      modifies this`index, this`free, this`children, this`parentOf, this`managed, this`latched, this`view, slots
      ensures Tied() && view == OrderBookModel.Clear(old(view))
    {
      hide Layout;
      index := map[];
      BlankAll();
      children, parentOf, managed, latched := map[], map[], {}, {};
      view := EmptyBook(slots.Length).(nextId := nextId);
    }

    method BlankAll()
      requires index == map[]
      modifies this`free, slots
      ensures Layout(map[], index, free, slots[..])
    {
      hide Layout;
      free := [];
      for i := 0 to slots.Length
        invariant |free| == i
        invariant forall j :: 0 <= j < i ==> slots[j] == BLANK && free[j] == slots.Length - 1 - j
        modifies this`free, slots
      {
        slots[i] := BLANK;
        free := free + [slots.Length - 1 - i];
      }
      BlankLayout(free, slots[..]);
    }

    method FindOrder(id: OrderId) returns (found: Option<Entry>)
      requires Valid()
      ensures found == if id in view.entries then Some(view.entries[id]) else None
    {
      hide Layout, Indexed;
      var booked := IsBooked(id);
      if !booked {
        return None;
      }
      var e := Lookup(id);
      found := Some(e);
    }

    method GetChildren(id: OrderId) returns (ids: seq<OrderId>)
      requires Valid()
      ensures ids == ChildrenOf(view, id)
    {
      hide Layout;
      ids := if id in children then children[id] else [];
    }

    method FindByBrokerId(brokerId: uint64) returns (id: Option<OrderId>)
      requires Valid()
      ensures id == if brokerId in brokers then Some(brokers[brokerId]) else None
      ensures id.Some? ==> id.value in view.entries && view.entries[id.value].brokerId == brokerId && brokerId != 0
      ensures BrokerComplete(brokers, view.entries) && brokerId != 0 ==>
                (id.Some? <==> exists x :: x in view.entries && view.entries[x].brokerId == brokerId)
    {
      hide Tied, BookOk, SecurityOk;
      id := if brokerId in brokers then Some(brokers[brokerId]) else None;
    }

    method GetOrdersBySecurity(key: string) returns (ids: seq<OrderId>)
      requires Valid()
      ensures Distinct(ids)
      ensures Normalize(key).Some? && key != "" ==>
                forall id :: id in ids <==>
                  id in view.entries && view.entries[id].securityKey != ""
                  && Normalize(view.entries[id].securityKey) == Normalize(key)
      ensures Normalize(key).None? || key == "" ==> ids == []
    {
      hide Normalize, BookOk, Tied;
      ids := [];
      if key != "" {
        var normalized := Normalize(key);
        if normalized.Some? && normalized.value in bySecurity {
          ids := bySecurity[normalized.value];
        }
      }
    }
  }

  lemma AddCounts(b: Book, e: Entry, now: uint64)
    requires CanAdd(b, e.id)
    ensures |Add(b, e, now).entries| == |b.entries| + 1
  {
    hide Refresh, OrderBookModel.Stored;
    var entries := b.entries[e.id := OrderBookModel.Stored(e, now)];
    assert |entries| == |b.entries| + 1;
    if e.isSplitChild && e.parent != 0 {
      var b2 := b.(entries := entries, nextId := Max(b.nextId, SaturatedNextId(e.id)),
                   children := b.children[e.parent := ChildrenOf(b, e.parent) + [e.id]],
                   parentOf := b.parentOf[e.id := e.parent]);
      RefreshOnlyProgress(b2, e.parent);
      SameSize(entries, Refresh(b2, e.parent).entries);
    }
  }
}
