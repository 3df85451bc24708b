/** The order book as a value: booked entries by id, the relation of parents and children, and the sets of managed and
    error-latched parents (src/order/order_book.cpp). The class of module OrderBooks stores it in slots and indexes. */
module OrderBookModel {
  import opened Integers
  import opened OrderTypes
  import opened Sums
  import opened SecurityIdentity

  /** What only a managed parent shows: the codes of its algorithm and execution state, and its planned volumes. */
  datatype Mirror = Mirror(algo: nat, state: nat, target: uint64, working: uint64, schedulable: uint64)

  const NO_MIRROR: Mirror := Mirror(0, 0, 0, 0, 0)

  datatype Entry = Entry(
    id: OrderId, kind: OrderType, side: TradeSide, state: OrderState,
    entrust: uint64, price: uint64, traded: uint64, remain: uint64, value: uint64, averagePrice: uint64,
    feeEstimate: uint64, fee: uint64,
    brokerId: uint64, securityKey: string, origId: OrderId,
    isSplitChild: bool, parent: OrderId, fundFrozen: uint64,
    submitNs: uint64, updatedNs: uint64, slotIndex: uint32, mirror: Mirror)

  const BLANK: Entry := Entry(
    0, OrderType.NotSet, TradeSide.NotSet, OrderState.NotSet, 0, 0, 0, 0, 0, 0, 0, 0, 0, "", 0, false, 0, 0, 0, 0,
      U32_MAX, NO_MIRROR)

  datatype Book = Book(
    capacity: nat,
    entries: map<OrderId, Entry>,
    children: map<OrderId, seq<OrderId>>,
    parentOf: map<OrderId, OrderId>,
    managed: set<OrderId>,
    latched: set<OrderId>,
    nextId: uint32)

  /** The execution engine's view of a parent. */
  datatype ManagedView = ManagedView(mirror: Mirror, traded: uint64, value: uint64, fee: uint64)

  // ---------- Aggregation over children ----------

  datatype Totals = Totals(
    count: nat, traded: uint64, remain: uint64, value: uint64, fee: uint64,
    latestNs: uint64, allTerminal: bool, bestRank: int, best: OrderState)

  function NoTotals(parent: Entry): Totals {
    Totals(0, 0, 0, 0, 0, parent.updatedNs, true, -1, OrderState.NotSet)
  }

  function Accumulate(t: Totals, child: Entry): Totals {
    if child.kind != OrderType.New then t
    else
      var rank := ProgressRank(child.state);
      Totals(
        t.count + 1,
        SaturatingAdd(t.traded, child.traded), SaturatingAdd(t.remain, child.remain),
        SaturatingAdd(t.value, child.value), SaturatingAdd(t.fee, child.fee),
        Max(t.latestNs, child.updatedNs),
        t.allTerminal && IsTerminal(child.state),
        if rank > t.bestRank then rank else t.bestRank,
        if rank > t.bestRank then child.state else t.best)
  }

  function Aggregate(parent: Entry, entries: map<OrderId, Entry>, ids: seq<OrderId>): Totals {
    if ids == [] then NoTotals(parent)
    else
      var n := |ids| - 1;
      var t := Aggregate(parent, entries, ids[..n]);
      if ids[n] in entries then Accumulate(t, entries[ids[n]]) else t
  }

  function Average(value: uint64, traded: uint64): uint64
    requires traded > 0
  {
    value / traded
  }

  function Aggregated(parent: Entry, t: Totals, isLatched: bool): Entry {
    parent.(
      traded := t.traded,
      remain := if parent.entrust > 0 && t.remain > parent.entrust then parent.entrust else t.remain,
      value := t.value,
      fee := t.fee,
      averagePrice := if t.traded > 0 then Average(t.value, t.traded) else parent.averagePrice,
      updatedNs := t.latestNs,
      state := if isLatched then TraderError
               else if t.allTerminal then Finished
               else if t.best != OrderState.NotSet then t.best
               else parent.state)
  }

  function Refresh(b: Book, parentId: OrderId): (b': Book)
    ensures b' == b.(entries := b'.entries)
  {
    if parentId in b.managed || parentId !in b.entries || parentId !in b.children then b
    else
      var parent := b.entries[parentId];
      var t := Aggregate(parent, b.entries, b.children[parentId]);
      if t.count == 0 then b
      else b.(entries := b.entries[parentId := Aggregated(parent, t, parentId in b.latched)])
  }

  // ---------- Operations ----------

  function EmptyBook(capacity: nat): Book {
    Book(capacity, map[], map[], map[], {}, {}, 1)
  }

  function SaturatedNextId(id: OrderId): OrderId {
    if id == U32_MAX then id else id + 1
  }

  /** The key under which an order is indexed by security: the canonical form of its own, if there is one. */
  function KeyOf(e: Entry): Option<string> {
    if e.securityKey == "" then None else Normalize(e.securityKey)
  }

  /** The entry as the book stores it: stamped, and with its remaining volume. Its security key stays as it came; only
      the index uses the canonical one. */
  function Stored(e: Entry, now: uint64): Entry {
    var submitNs := if e.submitNs == 0 then now else e.submitNs;
    e.(submitNs := submitNs,
       updatedNs := if e.updatedNs == 0 then submitNs else e.updatedNs,
       remain := if e.kind == OrderType.New && e.remain == 0 && e.entrust >= e.traded then e.entrust - e.traded
         else e.remain)
  }

  predicate CanAdd(b: Book, id: OrderId) {
    id != 0 && id !in b.entries && |b.entries| < b.capacity
  }

  function ChildrenOf(b: Book, parentId: OrderId): seq<OrderId> {
    if parentId in b.children then b.children[parentId] else []
  }

  /** Lists a split child under its parent and refreshes the parent. */
  function Linked(b: Book, e: Entry): Book {
    if e.isSplitChild && e.parent != 0 then
      Refresh(b.(children := b.children[e.parent := ChildrenOf(b, e.parent) + [e.id]],
                 parentOf := b.parentOf[e.id := e.parent]),
              e.parent)
    else b
  }

  function Add(b: Book, e: Entry, now: uint64): Book {
    if !CanAdd(b, e.id) then b
    else Linked(b.(entries := b.entries[e.id := Stored(e, now)], nextId := Max(b.nextId, SaturatedNextId(e.id))), e)
  }

  function RefreshParentOf(b: Book, id: OrderId): Book {
    if id in b.parentOf then Refresh(b, b.parentOf[id]) else b
  }

  /** Replaces an entry and refreshes the parent it may have. */
  function Change(b: Book, id: OrderId, e: Entry, latched: set<OrderId>): Book {
    RefreshParentOf(b.(entries := b.entries[id := e], latched := latched), id)
  }

  function UpdateState(b: Book, id: OrderId, state: OrderState, now: uint64): Book {
    if id !in b.entries then b
    else
      var latched := if state == TraderError && id in b.children && id !in b.managed then b.latched + {id}
          else b.latched;
      Change(b, id, b.entries[id].(state := state, updatedNs := now), latched)
  }

  function Trade(e: Entry, volume: uint64, price: uint64, value: uint64, fee: uint64, now: uint64): Entry {
    var added := SaturatingAdd(e.traded, volume);
    var traded := if e.entrust > 0 && added > e.entrust then e.entrust else added;
    var remain := if volume >= e.remain then 0 else e.remain - volume;
    var total := SaturatingAdd(e.value, value);
    e.(traded := traded, remain := remain, value := total, fee := SaturatingAdd(e.fee, fee),
       averagePrice := if traded > 0 then (if total > 0 then Average(total, traded) else price) else e.averagePrice,
       state := if remain == 0 && !IsTerminal(e.state) then Finished else e.state,
       updatedNs := now)
  }

  function UpdateTrade(b: Book, id: OrderId, volume: uint64, price: uint64, value: uint64, fee: uint64,
                       now: uint64): Book
  {
    if id !in b.entries then b
    else Change(b, id, Trade(b.entries[id], volume, price, value, fee, now), b.latched)
  }

  function MarkManaged(b: Book, id: OrderId): Book {
    if id !in b.entries then b else b.(managed := b.managed + {id})
  }

  function Mirrored(e: Entry, v: ManagedView, state: OrderState, now: uint64): Entry {
    var target := v.mirror.target;
    var e' := e.(mirror := v.mirror, entrust := target, traded := v.traded,
                 remain := if target >= v.traded then target - v.traded else 0,
                 value := v.value, fee := v.fee,
                 averagePrice := if v.traded > 0 then Average(v.value, v.traded) else 0,
                 state := state);
    if e' == e then e else e'.(updatedNs := now)
  }

  function SyncManaged(b: Book, id: OrderId, v: ManagedView, state: OrderState, now: uint64): Book {
    if id !in b.entries then b
    else b.(managed := b.managed + {id}, entries := b.entries[id := Mirrored(b.entries[id], v, state, now)])
  }

  function Archive(b: Book, id: OrderId): Book {
    if id !in b.entries then b
    else b.(entries := b.entries - {id}, managed := b.managed - {id}, latched := b.latched - {id})
  }

  function Clear(b: Book): Book {
    EmptyBook(b.capacity).(nextId := b.nextId)
  }

  datatype Operation =
    | AddOrder(entry: Entry)
    | SetState(id: OrderId, state: OrderState)
    | RecordTrade(id: OrderId, volume: uint64, price: uint64, value: uint64, fee: uint64)
    | ManageParent(id: OrderId)
    | SyncParent(id: OrderId, view: ManagedView, state: OrderState)
    | ArchiveOrder(id: OrderId)
    | ClearAll

  function Apply(b: Book, op: Operation, now: uint64): (b': Book)
    ensures b'.capacity == b.capacity
  {
    match op
    case AddOrder(entry) => Add(b, entry, now)
    case SetState(id, state) => UpdateState(b, id, state, now)
    case RecordTrade(id, volume, price, value, fee) => UpdateTrade(b, id, volume, price, value, fee, now)
    case ManageParent(id) => MarkManaged(b, id)
    case SyncParent(id, view, state) => SyncManaged(b, id, view, state, now)
    case ArchiveOrder(id) => Archive(b, id)
    case ClearAll => Clear(b)
  }

  // ---------- The invariant ----------

  ghost predicate BookOk(b: Book) {
    && (forall id :: id in b.entries ==> id != 0 && b.entries[id].id == id)
    && |b.entries| <= b.capacity
    && b.managed <= b.entries.Keys && b.latched <= b.entries.Keys
    && (forall c :: c in b.parentOf ==> b.parentOf[c] in b.children && c in b.children[b.parentOf[c]])
  }

  /** An entry keeps what the indexes look at: its id, broker id and security key. */
  predicate SameIdentity(e: Entry, e': Entry) {
    e'.id == e.id && e'.brokerId == e.brokerId && e'.securityKey == e.securityKey
  }

  /** The changes an operation may make to entries that stay: none to their identity or their reservation. */
  ghost predicate OnlyProgress(before: map<OrderId, Entry>, after: map<OrderId, Entry>) {
    && before.Keys <= after.Keys
    && forall id :: id in before ==> KeepsIdentity(before[id], after[id])
  }

  lemma RefreshOnlyProgress(b: Book, parentId: OrderId)
    ensures OnlyProgress(b.entries, Refresh(b, parentId).entries)
    ensures Refresh(b, parentId).entries.Keys == b.entries.Keys
    ensures Refresh(b, parentId) == b.(entries := Refresh(b, parentId).entries)
    ensures forall id :: id in b.entries && id != parentId ==> Refresh(b, parentId).entries[id] == b.entries[id]
  {
  }

  lemma RefreshKeepsOk(b: Book, parentId: OrderId)
    requires BookOk(b)
    ensures BookOk(Refresh(b, parentId))
  {
    RefreshOnlyProgress(b, parentId);
    SameSize(b.entries, Refresh(b, parentId).entries);
    hide Refresh;
  }

  lemma StoredKeepsIdentity(e: Entry, now: uint64)
    ensures KeepsIdentity(e, Stored(e, now))
  {
  }

  lemma UnchangedUnlessAddable(b: Book, e: Entry, now: uint64)
    requires !CanAdd(b, e.id)
    ensures Add(b, e, now) == b
  {
  }

  lemma SameSize(a: map<OrderId, Entry>, c: map<OrderId, Entry>)
    requires a.Keys == c.Keys
    ensures |a| == |c|
  {
    assert |a| == |a.Keys| == |c.Keys| == |c|;
  }

  lemma AddKeepsOk(b: Book, e: Entry, now: uint64)
    requires BookOk(b)
    ensures BookOk(Add(b, e, now))
  {
    hide Linked, BookOk, Stored, SaturatedNextId;
    if CanAdd(b, e.id) {
      StoredKeepsIdentity(e, now);
      var b1 := b.(entries := b.entries[e.id := Stored(e, now)], nextId := Max(b.nextId, SaturatedNextId(e.id)));
      NewEntryKeepsOk(b, e.id, Stored(e, now), Max(b.nextId, SaturatedNextId(e.id)));
      LinkKeepsOk(b1, e);
    }
  }

  lemma NewEntryKeepsOk(b: Book, id: OrderId, e: Entry, nextId: uint32)
    requires BookOk(b) && CanAdd(b, id) && e.id == id
    ensures BookOk(b.(entries := b.entries[id := e], nextId := nextId))
  {
  }

  lemma LinkKeepsOk(b: Book, e: Entry)
    requires BookOk(b)
    ensures BookOk(Linked(b, e))
  {
    hide Refresh;
    if e.isSplitChild && e.parent != 0 {
      var b' := b.(children := b.children[e.parent := ChildrenOf(b, e.parent) + [e.id]],
                   parentOf := b.parentOf[e.id := e.parent]);
      assert BookOk(b');
      hide BookOk;
      RefreshKeepsOk(b', e.parent);
    }
  }

  lemma ReplaceKeepsOk(b: Book, id: OrderId, e: Entry)
    requires BookOk(b) && id in b.entries && e.id == id
    ensures BookOk(b.(entries := b.entries[id := e]))
    ensures BookOk(b.(entries := b.entries[id := e], latched := b.latched + {id}))
    ensures BookOk(b.(entries := b.entries[id := e], managed := b.managed + {id}))
  {
    SameSize(b.entries, b.entries[id := e]);
  }

  lemma ChangeKeepsOk(b: Book, id: OrderId, e: Entry, latched: set<OrderId>)
    requires BookOk(b) && id in b.entries && e.id == id
    requires latched == b.latched || latched == b.latched + {id}
    ensures BookOk(Change(b, id, e, latched))
  {
    hide BookOk, Refresh;
    ReplaceKeepsOk(b, id, e);
    var b' := b.(entries := b.entries[id := e], latched := latched);
    assert b.(entries := b.entries[id := e], latched := b.latched) == b.(entries := b.entries[id := e]);
    if id in b.parentOf {
      RefreshKeepsOk(b', b.parentOf[id]);
    }
  }

  lemma ArchiveKeepsOk(b: Book, id: OrderId)
    requires BookOk(b)
    ensures BookOk(Archive(b, id))
  {
    OneLess(b.entries, id);
  }

  lemma SyncKeepsOk(b: Book, id: OrderId, v: ManagedView, state: OrderState, now: uint64)
    requires BookOk(b)
    ensures BookOk(SyncManaged(b, id, v, state, now))
  {
    hide BookOk, Mirrored;
    if id in b.entries {
      MirrorKeepsIdentity(b.entries[id], v, state, now);
      OwnId(b, id);
      ReplaceKeepsOk(b, id, Mirrored(b.entries[id], v, state, now));
    }
  }

  lemma StateKeepsOk(b: Book, id: OrderId, state: OrderState, now: uint64)
    requires BookOk(b)
    ensures BookOk(UpdateState(b, id, state, now))
  {
    hide BookOk, Change;
    if id in b.entries {
      OwnId(b, id);
      var latched := if state == TraderError && id in b.children && id !in b.managed then b.latched + {id}
          else b.latched;
      ChangeKeepsOk(b, id, b.entries[id].(state := state, updatedNs := now), latched);
    }
  }

  lemma TradeKeepsOk(b: Book, id: OrderId, volume: uint64, price: uint64, value: uint64, fee: uint64, now: uint64)
    requires BookOk(b)
    ensures BookOk(UpdateTrade(b, id, volume, price, value, fee, now))
  {
    hide BookOk, Change, Trade;
    if id in b.entries {
      OwnId(b, id);
      TradeKeepsIdentity(b.entries[id], volume, price, value, fee, now);
      ChangeKeepsOk(b, id, Trade(b.entries[id], volume, price, value, fee, now), b.latched);
    }
  }

  lemma OwnId(b: Book, id: OrderId)
    requires BookOk(b) && id in b.entries
    ensures b.entries[id].id == id
  {
  }

  lemma ManageKeepsOk(b: Book, id: OrderId)
    requires BookOk(b)
    ensures BookOk(MarkManaged(b, id))
  {
  }

  lemma OperationKeepsOk(b: Book, op: Operation, now: uint64)
    requires BookOk(b)
    ensures BookOk(Apply(b, op, now))
  {
    hide BookOk, Add, UpdateState, UpdateTrade, MarkManaged, SyncManaged, Archive, Clear;
    match op
    case AddOrder(entry) => AddKeepsOk(b, entry, now);
    case SetState(id, state) => StateKeepsOk(b, id, state, now);
    case RecordTrade(id, volume, price, value, fee) => TradeKeepsOk(b, id, volume, price, value, fee, now);
    case ManageParent(id) => ManageKeepsOk(b, id);
    case SyncParent(id, view, state) => SyncKeepsOk(b, id, view, state, now);
    case ArchiveOrder(id) => ArchiveKeepsOk(b, id);
    case ClearAll => ClearKeepsOk(b);
  }

  lemma ClearKeepsOk(b: Book)
    ensures BookOk(Clear(b))
  {
  }

  lemma OneLess(m: map<OrderId, Entry>, id: OrderId)
    ensures |m - {id}| == if id in m then |m| - 1 else |m|
  {
    assert (m - {id}).Keys == m.Keys - {id};
  }

  ghost function RunBook(b: Book, ops: seq<(Operation, uint64)>): Book
    decreases |ops|
  {
    if ops == [] then b else RunBook(Apply(b, ops[0].0, ops[0].1), ops[1..])
  }

  /** Main result: over every sequence of operations, each id maps to its own entry, the book stays within its capacity,
      managed and latched parents are booked, and every child is listed under its parent. */
  lemma {:induction false} EveryRunKeepsOk(b: Book, ops: seq<(Operation, uint64)>)
    requires BookOk(b)
    ensures BookOk(RunBook(b, ops)) && RunBook(b, ops).capacity == b.capacity
    decreases |ops|
  {
    hide BookOk, Apply;
    if ops != [] {
      OperationKeepsOk(b, ops[0].0, ops[0].1);
      EveryRunKeepsOk(Apply(b, ops[0].0, ops[0].1), ops[1..]);
    }
  }

  predicate KeepsIdentity(e: Entry, e': Entry) {
    && SameIdentity(e, e')
    && e'.fundFrozen == e.fundFrozen && e'.kind == e.kind && e'.side == e.side && e'.origId == e.origId
  }

  lemma TradeKeepsIdentity(e: Entry, volume: uint64, price: uint64, value: uint64, fee: uint64, now: uint64)
    ensures KeepsIdentity(e, Trade(e, volume, price, value, fee, now))
  {
  }

  lemma MirrorKeepsIdentity(e: Entry, v: ManagedView, state: OrderState, now: uint64)
    ensures KeepsIdentity(e, Mirrored(e, v, state, now))
  {
  }

  lemma ChangeOnlyProgress(b: Book, id: OrderId, e: Entry, latched: set<OrderId>)
    requires id in b.entries && KeepsIdentity(b.entries[id], e)
    ensures OnlyProgress(b.entries, Change(b, id, e, latched).entries)
    ensures Change(b, id, e, latched).entries.Keys == b.entries.Keys
  {
    hide Refresh;
    var b' := b.(entries := b.entries[id := e], latched := latched);
    if id in b.parentOf {
      RefreshOnlyProgress(b', b.parentOf[id]);
    }
  }

  // ---------- The parent's cached aggregate ----------

  predicate Distinct(ids: seq<OrderId>) {
    forall i, j :: 0 <= i < j < |ids| ==> ids[i] != ids[j]
  }

  /** One figure of every booked New child, by id. */
  ghost function Figures(entries: map<OrderId, Entry>, ids: seq<OrderId>, f: Entry -> uint64): map<OrderId, uint64> {
    map id | id in ids && id in entries && entries[id].kind == OrderType.New :: f(entries[id])
  }

  lemma FiguresGrow(entries: map<OrderId, Entry>, ids: seq<OrderId>, f: Entry -> uint64)
    requires ids != [] && Distinct(ids)
    ensures var n := |ids| - 1;
            var before := Figures(entries, ids[..n], f);
            Distinct(ids[..n]) && ids[n] !in before
            && Figures(entries, ids, f)
               == (if ids[n] in entries && entries[ids[n]].kind == OrderType.New
                   then before[ids[n] := f(entries[ids[n]])] else before)
            && Sum(Figures(entries, ids, f))
               == Sum(before) + (if ids[n] in entries && entries[ids[n]].kind == OrderType.New then f(entries[ids[n]])
                                 else 0)
  {
    var n := |ids| - 1;
    assert ids == ids[..n] + [ids[n]];
    var before := Figures(entries, ids[..n], f);
    if ids[n] in entries {
      SumUpdate(before, ids[n], f(entries[ids[n]]));
    }
  }

  const TRADED: Entry -> uint64 := (e: Entry) => e.traded
  const REMAIN: Entry -> uint64 := (e: Entry) => e.remain
  const VALUE: Entry -> uint64 := (e: Entry) => e.value
  const FEE: Entry -> uint64 := (e: Entry) => e.fee
  const ENTRUST: Entry -> uint64 := (e: Entry) => e.entrust

  ghost function Folded(entries: map<OrderId, Entry>, ids: seq<OrderId>, f: Entry -> uint64): uint64 {
    if ids == [] then 0
    else
      var n := |ids| - 1;
      var t := Folded(entries, ids[..n], f);
      if ids[n] in entries && entries[ids[n]].kind == OrderType.New then SaturatingAdd(t, f(entries[ids[n]])) else t
  }

  lemma {:induction false} FoldedIsCappedSum(entries: map<OrderId, Entry>, ids: seq<OrderId>, f: Entry -> uint64)
    requires Distinct(ids)
    ensures Folded(entries, ids, f) == Cap(Sum(Figures(entries, ids, f)))
    decreases |ids|
  {
    if ids == [] {
      assert Figures(entries, ids, f) == map[];
    } else {
      FiguresGrow(entries, ids, f);
      hide Sum, Figures, Distinct;
      FoldedIsCappedSum(entries, ids[..|ids| - 1], f);
    }
  }

  lemma {:induction false} AggregateIsFolded(parent: Entry, entries: map<OrderId, Entry>, ids: seq<OrderId>)
    ensures var t := Aggregate(parent, entries, ids);
            && t.traded == Folded(entries, ids, TRADED) && t.remain == Folded(entries, ids, REMAIN)
            && t.value == Folded(entries, ids, VALUE) && t.fee == Folded(entries, ids, FEE)
    decreases |ids|
  {
    hide SaturatingAdd, ProgressRank, IsTerminal;
    if ids != [] {
      AggregateIsFolded(parent, entries, ids[..|ids| - 1]);
    }
  }

  predicate NewChild(entries: map<OrderId, Entry>, id: OrderId) {
    id in entries && entries[id].kind == OrderType.New
  }

  lemma {:induction false} AggregateStates(parent: Entry, entries: map<OrderId, Entry>, ids: seq<OrderId>)
    ensures var t := Aggregate(parent, entries, ids);
            && (t.count > 0 <==> exists id :: id in ids && NewChild(entries, id))
            && (t.allTerminal <==> forall id :: id in ids && NewChild(entries, id) ==> IsTerminal(entries[id].state))
    decreases |ids|
  {
    hide SaturatingAdd, ProgressRank, IsTerminal;
    if ids != [] {
      var n := |ids| - 1;
      AggregateStates(parent, entries, ids[..n]);
      assert ids == ids[..n] + [ids[n]];
      assert forall id :: id in ids <==> id in ids[..n] || id == ids[n];
    }
  }

  /** The saturating fold over a list of children is the capped exact sum over the set of booked New children. */
  lemma AggregateIsCappedSum(parent: Entry, entries: map<OrderId, Entry>, ids: seq<OrderId>)
    requires Distinct(ids)
    ensures var t := Aggregate(parent, entries, ids);
            && t.traded == Cap(Sum(Figures(entries, ids, TRADED)))
            && t.remain == Cap(Sum(Figures(entries, ids, REMAIN)))
            && t.value == Cap(Sum(Figures(entries, ids, VALUE))) && t.fee == Cap(Sum(Figures(entries, ids, FEE)))
  {
    AggregateIsFolded(parent, entries, ids);
    FoldedIsCappedSum(entries, ids, TRADED);
    FoldedIsCappedSum(entries, ids, REMAIN);
    FoldedIsCappedSum(entries, ids, VALUE);
    FoldedIsCappedSum(entries, ids, FEE);
    hide Sum, Figures, Folded, Aggregate, Distinct;
  }

  /** The cached figures of a parent are those of its booked New children: capped exact sums, and for the remaining
      volume never more than the parent's own. */
  ghost predicate Mirrors(b: Book, p: OrderId)
    requires p in b.entries && p in b.children
  {
    var e, ids := b.entries[p], b.children[p];
    var remain := Cap(Sum(Figures(b.entries, ids, REMAIN)));
    && e.traded == Cap(Sum(Figures(b.entries, ids, TRADED)))
    && e.value == Cap(Sum(Figures(b.entries, ids, VALUE)))
    && e.fee == Cap(Sum(Figures(b.entries, ids, FEE)))
    && e.remain == (if e.entrust > 0 then Min(remain, e.entrust) else remain)
  }

  /** A parent whose children the book aggregates: booked, not managed, not its own child, no child listed twice. */
  ghost predicate Aggregating(b: Book, p: OrderId) {
    && p in b.entries && p in b.children && p !in b.managed
    && p !in b.children[p] && Distinct(b.children[p])
    && exists c :: c in b.children[p] && NewChild(b.entries, c)
  }

  lemma FiguresIgnoreParent(entries: map<OrderId, Entry>, ids: seq<OrderId>, p: OrderId, e: Entry, f: Entry -> uint64)
    requires p !in ids
    ensures Figures(entries[p := e], ids, f) == Figures(entries, ids, f)
  {
  }

  lemma RefreshMirrors(b: Book, p: OrderId)
    requires Aggregating(b, p)
    ensures Aggregating(Refresh(b, p), p) && Mirrors(Refresh(b, p), p)
    ensures Refresh(b, p).entries[p].entrust == b.entries[p].entrust
  {
    var parent, ids := b.entries[p], b.children[p];
    var t := Aggregate(parent, b.entries, ids);
    AggregateStates(parent, b.entries, ids);
    AggregateIsCappedSum(parent, b.entries, ids);
    var e := Aggregated(parent, t, p in b.latched);
    FiguresIgnoreParent(b.entries, ids, p, e, TRADED);
    FiguresIgnoreParent(b.entries, ids, p, e, REMAIN);
    FiguresIgnoreParent(b.entries, ids, p, e, VALUE);
    FiguresIgnoreParent(b.entries, ids, p, e, FEE);
    hide Sum, Figures, Aggregate, Aggregated, Distinct;
    assert Refresh(b, p) == b.(entries := b.entries[p := e]);
    var c :| c in ids && NewChild(b.entries, c);
    assert NewChild(b.entries[p := e], c);
    assert e == Aggregated(parent, t, p in b.latched);
    AggregatedFigures(parent, t, p in b.latched);
  }

  lemma AggregatedFigures(parent: Entry, t: Totals, isLatched: bool)
    ensures var e := Aggregated(parent, t, isLatched);
            && e.entrust == parent.entrust && e.traded == t.traded && e.value == t.value && e.fee == t.fee
            && e.remain == (if parent.entrust > 0 then Min(t.remain, parent.entrust) else t.remain)
  {
  }

  /** Main result: after a New child of an aggregating parent is added, or has its state or trades updated, the parent's
      cached traded volume, value and fee are the exact sums over its booked New children, capped at 64 bits, whatever
      their order. */
  lemma UpdatedChildIsMirrored(b: Book, child: OrderId, op: Operation, now: uint64)
    requires child in b.entries && child in b.parentOf && b.parentOf[child] != child
    requires Aggregating(b, b.parentOf[child])
    requires op.SetState? || op.RecordTrade?
    requires op.id == child
    ensures var p := b.parentOf[child];
            Aggregating(Apply(b, op, now), p) && Mirrors(Apply(b, op, now), p)
  {
    hide Sum, Figures, Mirrors, Refresh, Trade;
    var p := b.parentOf[child];
    match op
    case SetState(_, state) =>
      var latched := if state == TraderError && child in b.children && child !in b.managed then b.latched + {child}
          else b.latched;
      ChangedChildIsMirrored(b, child, b.entries[child].(state := state, updatedNs := now), latched);
    case RecordTrade(_, volume, price, value, fee) =>
      TradeKeepsIdentity(b.entries[child], volume, price, value, fee, now);
      ChangedChildIsMirrored(b, child, Trade(b.entries[child], volume, price, value, fee, now), b.latched);
  }

  lemma ChangedChildIsMirrored(b: Book, child: OrderId, e: Entry, latched: set<OrderId>)
    requires child in b.entries && child in b.parentOf && b.parentOf[child] != child
    requires Aggregating(b, b.parentOf[child]) && e.kind == b.entries[child].kind
    ensures var p := b.parentOf[child];
            Aggregating(Change(b, child, e, latched), p) && Mirrors(Change(b, child, e, latched), p)
  {
    hide Sum, Figures, Mirrors, Refresh, Distinct;
    var p := b.parentOf[child];
    var b' := b.(entries := b.entries[child := e], latched := latched);
    var c :| c in b.children[p] && NewChild(b.entries, c);
    assert NewChild(b'.entries, c);
    RefreshMirrors(b', p);
  }

  lemma AddedChildIsMirrored(b: Book, e: Entry, now: uint64)
    requires CanAdd(b, e.id) && e.isSplitChild && e.parent != 0 && e.parent != e.id && e.kind == OrderType.New
    requires e.parent in b.entries && e.parent !in b.managed
    requires e.parent !in ChildrenOf(b, e.parent) && e.id !in ChildrenOf(b, e.parent)
             && Distinct(ChildrenOf(b, e.parent))
    ensures var b' := Add(b, e, now);
            Aggregating(b', e.parent) && Mirrors(b', e.parent) && e.id in b'.children[e.parent]
              && NewChild(b'.entries, e.id)
  {
    hide Sum, Figures, Mirrors, Refresh;
    var b1 := b.(entries := b.entries[e.id := Stored(e, now)], nextId := Max(b.nextId, SaturatedNextId(e.id)));
    var b2 := b1.(children := b1.children[e.parent := ChildrenOf(b, e.parent) + [e.id]],
                  parentOf := b1.parentOf[e.id := e.parent]);
    assert NewChild(b2.entries, e.id) && e.id in b2.children[e.parent];
    RefreshMirrors(b2, e.parent);
    RefreshOnlyProgress(b2, e.parent);
  }

  // ---------- Volumes of a parent and its children ----------

  predicate Whole(e: Entry) {
    e.traded + e.remain == e.entrust
  }

  /** A trade keeps traded + remaining equal to the entrusted volume, unless volume is reported on an order of none. */
  lemma TradeKeepsWholeExactly(e: Entry, volume: uint64, price: uint64, value: uint64, fee: uint64, now: uint64)
    requires Whole(e)
    ensures Whole(Trade(e, volume, price, value, fee, now)) <==> e.entrust > 0 || volume == 0
  {
  }

  /** A parent mirroring whole children has, traded and remaining together, exactly what they were entrusted with, as
      long as that fits the parent. */
  lemma ParentHoldsItsChildren(b: Book, p: OrderId)
    requires p in b.entries && p in b.children && Mirrors(b, p)
    requires forall c :: c in b.children[p] && NewChild(b.entries, c) ==> Whole(b.entries[c])
    requires Sum(Figures(b.entries, b.children[p], ENTRUST)) <= b.entries[p].entrust
    ensures b.entries[p].traded + b.entries[p].remain == Sum(Figures(b.entries, b.children[p], ENTRUST))
  {
    var ids := b.children[p];
    var t, r, e := Figures(b.entries, ids, TRADED), Figures(b.entries, ids, REMAIN), Figures(b.entries, ids, ENTRUST);
    forall c | c in e ensures e[c] == t[c] + r[c] {
      assert c in ids && NewChild(b.entries, c);
    }
    hide Figures;
    SumPointwise(t, r, e);
  }
}
