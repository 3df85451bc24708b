/** Parents and their children over whole runs of the order book (src/order/order_book.cpp): when the lists of children
    stay free of repetitions, so that a parent's cached figures are those of its children, and the input for which they
    do not. */
module OrderFamilies {
  import opened Integers
  import opened OrderTypes
  import opened Sums
  import opened OrderBookModel

  /** Whether adding an order lists it under a parent. */
  predicate Lists(e: Entry) {
    e.isSplitChild && e.parent != 0
  }

  /** No child is listed twice, under two parents, or under itself; and every known child is listed. */
  ghost predicate ListsOk(b: Book) {
    && (forall p :: p in b.children ==> Distinct(b.children[p]) && p !in b.children[p])
    && (forall p, c :: p in b.children && c in b.children[p] ==> c in b.parentOf && b.parentOf[c] == p)
    && (forall c :: c in b.parentOf ==> b.parentOf[c] in b.children && c in b.children[b.parentOf[c]])
  }

  /** The id of a new child was never one of a child before, and a child is not its own parent. */
  predicate ListsFreshly(b: Book, e: Entry) {
    CanAdd(b, e.id) && Lists(e) ==> e.id !in b.parentOf && e.parent != e.id
  }

  lemma AddLists(b: Book, e: Entry, now: uint64)
    ensures var b' := Add(b, e, now);
            if CanAdd(b, e.id) && Lists(e) then
              b'.children == b.children[e.parent := ChildrenOf(b, e.parent) + [e.id]]
                && b'.parentOf == b.parentOf[e.id := e.parent]
            else b'.children == b.children && b'.parentOf == b.parentOf
  {
    hide Refresh, Stored;
  }

  /** Adding an order keeps the lists in order exactly if it lists the order freshly. */
  lemma AddKeepsListsExactly(b: Book, e: Entry, now: uint64)
    requires ListsOk(b)
    ensures ListsOk(Add(b, e, now)) <==> ListsFreshly(b, e)
  {
    AddLists(b, e, now);
    hide Add, CanAdd;
    var b' := Add(b, e, now);
    if CanAdd(b, e.id) && Lists(e) {
      var before := ChildrenOf(b, e.parent);
      assert b'.children[e.parent] == before + [e.id];
      if e.id in b.parentOf {
        OldChildBreaksLists(b, b', e);
      } else if e.parent == e.id {
        assert e.id in b'.children[e.parent];
      } else {
        FreshChildKeepsLists(b, b', e);
      }
    }
  }

  lemma OldChildBreaksLists(b: Book, b': Book, e: Entry)
    requires ListsOk(b) && e.id in b.parentOf
    requires b'.children == b.children[e.parent := ChildrenOf(b, e.parent) + [e.id]]
             && b'.parentOf == b.parentOf[e.id := e.parent]
    ensures !ListsOk(b')
  {
    var p := b.parentOf[e.id];
    assert e.id in b.children[p];
    if p == e.parent {
      var i :| 0 <= i < |b.children[p]| && b.children[p][i] == e.id;
      assert b'.children[p][i] == b'.children[p][|b.children[p]|];
    } else {
      assert e.id in b'.children[p] && b'.parentOf[e.id] != p;
    }
  }

  lemma FreshChildKeepsLists(b: Book, b': Book, e: Entry)
    requires ListsOk(b) && e.id !in b.parentOf && e.parent != e.id
    requires b'.children == b.children[e.parent := ChildrenOf(b, e.parent) + [e.id]]
             && b'.parentOf == b.parentOf[e.id := e.parent]
    ensures ListsOk(b')
  {
    assert e.id !in ChildrenOf(b, e.parent);
    forall p | p in b'.children ensures Distinct(b'.children[p]) && p !in b'.children[p] {
      assert p != e.parent ==> b'.children[p] == b.children[p];
    }
  }

  /** Only additions and clearing touch the families. */
  lemma OthersKeepFamilies(b: Book, op: Operation, now: uint64)
    requires !op.AddOrder? && !op.ClearAll?
    ensures Apply(b, op, now).children == b.children && Apply(b, op, now).parentOf == b.parentOf
  {
    hide Refresh, Trade, Mirrored;
  }

  ghost predicate Proper(b: Book, op: Operation) {
    op.AddOrder? ==> ListsFreshly(b, op.entry)
  }

  lemma ProperKeepsLists(b: Book, op: Operation, now: uint64)
    requires ListsOk(b) && Proper(b, op)
    ensures ListsOk(Apply(b, op, now))
  {
    match op {
      case AddOrder(e) => AddKeepsListsExactly(b, e, now);
      case ClearAll =>
      case _ => OthersKeepFamilies(b, op, now);
    }
  }

  ghost predicate ProperRun(b: Book, ops: seq<(Operation, uint64)>)
    decreases |ops|
  {
    ops == [] || (Proper(b, ops[0].0) && ProperRun(Apply(b, ops[0].0, ops[0].1), ops[1..]))
  }

  lemma {:induction false} ProperRunKeepsLists(b: Book, ops: seq<(Operation, uint64)>)
    requires ListsOk(b) && ProperRun(b, ops)
    ensures ListsOk(RunBook(b, ops))
    decreases |ops|
  {
    hide ListsOk, Proper, Apply;
    if ops != [] {
      ProperKeepsLists(b, ops[0].0, ops[0].1);
      ProperRunKeepsLists(Apply(b, ops[0].0, ops[0].1), ops[1..]);
    }
  }

  // ---------- Volumes of children ----------

  /** Every booked New order that was a child has, traded and remaining together, what it was entrusted with; and no
      child is a parent. */
  ghost predicate WholeOk(b: Book) {
    && (forall c :: c in b.parentOf ==> c !in b.children)
    && (forall c :: c in b.parentOf && NewChild(b.entries, c) ==> Whole(b.entries[c]))
  }

  /** What keeps children whole: they come whole and without children of their own, their fills are on a volume, and the
      engine mirrors parents only. */
  ghost predicate KeepsWhole(b: Book, op: Operation, now: uint64) {
    match op
    case AddOrder(e) =>
      CanAdd(b, e.id) ==>
        && (Lists(e) ==> e.id !in b.children && e.parent !in b.parentOf && e.parent != e.id)
        && ((Lists(e) || e.id in b.parentOf) && e.kind == OrderType.New ==> Whole(Stored(e, now)))
    case RecordTrade(id, volume, _, _, _) => id in b.parentOf && id in b.entries ==>
      b.entries[id].entrust > 0 || volume == 0
    case SyncParent(id, _, _) => id !in b.parentOf
    case _ => true
  }

  /** The entries of children change only where they are named. */
  lemma RefreshKeepsChildren(b: Book, p: OrderId)
    requires WholeOk(b)
    ensures WholeOk(Refresh(b, p))
  {
    RefreshOnlyProgress(b, p);
    if p !in b.children {
      assert Refresh(b, p) == b;
    }
    hide Refresh, OnlyProgress, Whole;
    forall c | c in b.parentOf && NewChild(Refresh(b, p).entries, c) ensures Whole(Refresh(b, p).entries[c]) {
      assert Refresh(b, p).entries[c] == b.entries[c];
    }
  }

  lemma ChangeKeepsWhole(b: Book, id: OrderId, e: Entry, latched: set<OrderId>)
    requires WholeOk(b) && id in b.entries && (id in b.parentOf && e.kind == OrderType.New ==> Whole(e))
    ensures WholeOk(Change(b, id, e, latched))
  {
    hide Refresh, Whole;
    var b' := b.(entries := b.entries[id := e], latched := latched);
    assert WholeOk(b');
    if id in b.parentOf {
      hide WholeOk;
      RefreshKeepsChildren(b', b.parentOf[id]);
    }
  }

  lemma AddKeepsWhole(b: Book, e: Entry, now: uint64)
    requires WholeOk(b) && KeepsWhole(b, AddOrder(e), now)
    ensures WholeOk(Add(b, e, now))
  {
    hide Refresh, Whole, Stored;
    StoredKeepsIdentity(e, now);
    if CanAdd(b, e.id) {
      var b1 := b.(entries := b.entries[e.id := Stored(e, now)], nextId := Max(b.nextId, SaturatedNextId(e.id)));
      if Lists(e) {
        var b2 := b1.(children := b1.children[e.parent := ChildrenOf(b1, e.parent) + [e.id]],
                      parentOf := b1.parentOf[e.id := e.parent]);
        assert WholeOk(b2);
        RefreshKeepsChildren(b2, e.parent);
      } else {
        assert WholeOk(b1);
      }
    }
  }

  lemma StepKeepsWhole(b: Book, op: Operation, now: uint64)
    requires WholeOk(b) && KeepsWhole(b, op, now)
    ensures WholeOk(Apply(b, op, now))
  {
    hide WholeOk, Change, Add, Trade, Whole, Mirrored;
    match op
    case AddOrder(e) => AddKeepsWhole(b, e, now);
    case SetState(id, state) =>
      if id in b.entries {
        var latched := if state == TraderError && id in b.children && id !in b.managed then b.latched + {id}
            else b.latched;
        StateKeepsWhole(b, id, state, now);
        ChangeKeepsWhole(b, id, b.entries[id].(state := state, updatedNs := now), latched);
      }
    case RecordTrade(id, volume, price, value, fee) =>
      if id in b.entries {
        TradedStaysWhole(b, id, volume, price, value, fee, now);
        ChangeKeepsWhole(b, id, Trade(b.entries[id], volume, price, value, fee, now), b.latched);
      }
    case _ => PlainStepKeepsWhole(b, op, now);
  }

  lemma StateKeepsWhole(b: Book, id: OrderId, state: OrderState, now: uint64)
    requires WholeOk(b) && id in b.entries
    ensures var e := b.entries[id].(state := state, updatedNs := now);
            id in b.parentOf && e.kind == OrderType.New ==> Whole(e)
  {
  }

  lemma TradedStaysWhole(b: Book, id: OrderId, volume: uint64, price: uint64, value: uint64, fee: uint64, now: uint64)
    requires WholeOk(b) && id in b.entries && (id in b.parentOf ==> b.entries[id].entrust > 0 || volume == 0)
    ensures var e := Trade(b.entries[id], volume, price, value, fee, now);
            id in b.parentOf && e.kind == OrderType.New ==> Whole(e)
  {
    TradeKeepsIdentity(b.entries[id], volume, price, value, fee, now);
    if id in b.parentOf && b.entries[id].kind == OrderType.New {
      TradeKeepsWholeExactly(b.entries[id], volume, price, value, fee, now);
    }
    hide Trade;
  }

  lemma PlainStepKeepsWhole(b: Book, op: Operation, now: uint64)
    requires WholeOk(b) && KeepsWhole(b, op, now)
    requires op.ManageParent? || op.SyncParent? || op.ArchiveOrder? || op.ClearAll?
    ensures WholeOk(Apply(b, op, now))
  {
    hide Whole, Mirrored;
  }

  ghost predicate WholeRun(b: Book, ops: seq<(Operation, uint64)>)
    decreases |ops|
  {
    ops == [] || (KeepsWhole(b, ops[0].0, ops[0].1) && WholeRun(Apply(b, ops[0].0, ops[0].1), ops[1..]))
  }

  lemma {:induction false} WholeRunKeepsWhole(b: Book, ops: seq<(Operation, uint64)>)
    requires WholeOk(b) && WholeRun(b, ops)
    ensures WholeOk(RunBook(b, ops))
    decreases |ops|
  {
    hide WholeOk, KeepsWhole, Apply;
    if ops != [] {
      StepKeepsWhole(b, ops[0].0, ops[0].1);
      WholeRunKeepsWhole(Apply(b, ops[0].0, ops[0].1), ops[1..]);
    }
  }

  // ---------- Parents over runs ----------

  /** The operation adds a New child under p, or changes the state or the trades of one. */
  ghost predicate Touches(b: Book, op: Operation, p: OrderId) {
    match op
    case AddOrder(e) => CanAdd(b, e.id) && Lists(e) && e.parent == p && e.kind == OrderType.New
    case SetState(id, _) => id in b.parentOf && b.parentOf[id] == p && NewChild(b.entries, id)
    case RecordTrade(id, _, _, _, _) => id in b.parentOf && b.parentOf[id] == p && NewChild(b.entries, id)
    case _ => false
  }

  lemma TouchedParentMirrors(b: Book, op: Operation, now: uint64, p: OrderId)
    requires ListsOk(b) && Proper(b, op) && Touches(b, op, p)
    requires p in b.entries && p !in b.managed
    ensures Aggregating(Apply(b, op, now), p) && Mirrors(Apply(b, op, now), p)
  {
    hide Mirrors, Add, UpdateState, UpdateTrade;
    if op.AddOrder? {
      FreshChildIsUnlisted(b, op.entry);
      hide ListsOk, Distinct;
      AddedChildIsMirrored(b, op.entry, now);
    } else {
      assert op.id in b.children[p];
      hide ListsOk, Distinct;
      UpdatedChildIsMirrored(b, op.id, op, now);
    }
  }

  lemma FreshChildIsUnlisted(b: Book, e: Entry)
    requires ListsOk(b) && e.id !in b.parentOf
    ensures e.parent !in ChildrenOf(b, e.parent) && e.id !in ChildrenOf(b, e.parent)
            && Distinct(ChildrenOf(b, e.parent))
  {
  }

  /** The exact sum over a parent's booked New children. */
  ghost function ChildSum(b: Book, p: OrderId, f: Entry -> uint64): nat {
    Sum(Figures(b.entries, ChildrenOf(b, p), f))
  }

  /** Main result: over every run from an empty book in which child ids are never listed again, an operation on a New
      child of a booked, unmanaged parent leaves the parent's cached traded volume, value and fee equal to the exact
      sums over its booked New children, capped at 64 bits. */
  lemma EveryTouchedParentMirrors(capacity: nat, ops: seq<(Operation, uint64)>, op: Operation, now: uint64, p: OrderId)
    requires ProperRun(EmptyBook(capacity), ops)
    requires var b := RunBook(EmptyBook(capacity), ops);
             Proper(b, op) && Touches(b, op, p) && p in b.entries && p !in b.managed
    ensures var b' := Apply(RunBook(EmptyBook(capacity), ops), op, now);
            && p in b'.entries && Distinct(ChildrenOf(b', p)) && p !in ChildrenOf(b', p)
            && var e := b'.entries[p];
               && e.traded == Cap(ChildSum(b', p, TRADED))
               && e.value == Cap(ChildSum(b', p, VALUE))
               && e.fee == Cap(ChildSum(b', p, FEE))
  {
    ProperRunKeepsLists(EmptyBook(capacity), ops);
    hide ListsOk, Proper, Touches, Distinct, Apply, Figures, Sum, RunBook;
    TouchedParentMirrors(RunBook(EmptyBook(capacity), ops), op, now, p);
  }

  /** Main result: if moreover every child comes whole, the parent's traded and remaining volume add up to what its
      booked New children were entrusted with, as long as that fits the parent. */
  lemma EveryTouchedParentHoldsItsChildren(capacity: nat, ops: seq<(Operation, uint64)>, op: Operation, now: uint64,
                                           p: OrderId)
    requires ProperRun(EmptyBook(capacity), ops) && WholeRun(EmptyBook(capacity), ops)
    requires var b := RunBook(EmptyBook(capacity), ops);
             Proper(b, op) && KeepsWhole(b, op, now) && Touches(b, op, p) && p in b.entries && p !in b.managed
    ensures var b' := Apply(RunBook(EmptyBook(capacity), ops), op, now);
            p in b'.entries
            && (ChildSum(b', p, ENTRUST) <= b'.entries[p].entrust ==>
                  b'.entries[p].traded + b'.entries[p].remain == ChildSum(b', p, ENTRUST))
  {
    ProperRunKeepsLists(EmptyBook(capacity), ops);
    WholeRunKeepsWhole(EmptyBook(capacity), ops);
    var b := RunBook(EmptyBook(capacity), ops);
    hide RunBook, Proper, Touches, Apply, KeepsWhole;
    TouchedParentMirrors(b, op, now, p);
    ProperKeepsLists(b, op, now);
    StepKeepsWhole(b, op, now);
    MirroredWholeParent(Apply(b, op, now), p);
  }

  lemma MirroredWholeParent(b: Book, p: OrderId)
    requires ListsOk(b) && WholeOk(b) && Aggregating(b, p) && Mirrors(b, p)
    ensures ChildSum(b, p, ENTRUST) <= b.entries[p].entrust ==>
              b.entries[p].traded + b.entries[p].remain == ChildSum(b, p, ENTRUST)
  {
    hide Mirrors, Sum, Figures, Whole, Distinct;
    if ChildSum(b, p, ENTRUST) <= b.entries[p].entrust {
      assert forall c :: c in b.children[p] ==> c in b.parentOf;
      ParentHoldsItsChildren(b, p);
    }
  }

  // ---------- A child that is listed twice ----------

  const PARENT: Entry := BLANK.(id := 1, kind := OrderType.New, side := Buy, entrust := 10, submitNs := 1,
                                updatedNs := 1)
  const CHILD: Entry :=
    BLANK.(id := 2, kind := OrderType.New, side := Buy, entrust := 5, isSplitChild := true, parent := 1, submitNs := 1,
           updatedNs := 1)

  /** A child is archived, its id is used for a new child of the same parent, and that one trades 5. */
  const REUSED: seq<(Operation, uint64)> :=
    [(AddOrder(PARENT), 1), (AddOrder(CHILD), 1), (ArchiveOrder(2), 1), (AddOrder(CHILD), 1),
     (RecordTrade(2, 5, 1, 5, 0), 1)]

  lemma AggregateOfTwo(parent: Entry, entries: map<OrderId, Entry>, c: OrderId)
    requires NewChild(entries, c)
    ensures var t := Aggregate(parent, entries, [c, c]);
            t.count == 2 && t.traded == SaturatingAdd(entries[c].traded, entries[c].traded)
  {
    hide ProgressRank, IsTerminal;
    var once := [c, c][..1];
    assert once == [c] && once[..0] == [];
    assert Aggregate(parent, entries, once) == Accumulate(NoTotals(parent), entries[c]);
  }

  lemma RefreshCountsTwice(b: Book, p: OrderId, c: OrderId)
    requires p in b.entries && p !in b.managed && p in b.children && b.children[p] == [c, c] && NewChild(b.entries, c)
    ensures Refresh(b, p).entries[p].traded == SaturatingAdd(b.entries[c].traded, b.entries[c].traded)
    ensures c != p ==> Refresh(b, p).entries[c] == b.entries[c]
  {
    AggregateOfTwo(b.entries[p], b.entries, c);
    hide Aggregate;
  }

  lemma RunTwo(b: Book, ops: seq<(Operation, uint64)>)
    requires |ops| >= 2
    ensures RunBook(b, ops) == RunBook(Apply(Apply(b, ops[0].0, ops[0].1), ops[1].0, ops[1].1), ops[2..])
    ensures |ops| == 2 ==> RunBook(b, ops) == Apply(Apply(b, ops[0].0, ops[0].1), ops[1].0, ops[1].1)
  {
    hide Apply;
    assert ops[1..][1..] == ops[2..];
  }

  lemma AddsTheChild(b: Book)
    requires 1 in b.entries && 2 !in b.entries && |b.entries| < b.capacity
    ensures var b' := Apply(b, AddOrder(CHILD), 1);
            && b'.entries.Keys == b.entries.Keys + {2} && b'.entries[2] == Stored(CHILD, 1)
            && b'.children == b.children[1 := ChildrenOf(b, 1) + [2]] && b'.parentOf == b.parentOf[2 := 1]
            && b'.managed == b.managed && b'.capacity == b.capacity
  {
    hide Refresh, Stored;
    var linked := b.(entries := b.entries[2 := Stored(CHILD, 1)], nextId := Max(b.nextId, SaturatedNextId(2)),
                     children := b.children[1 := ChildrenOf(b, 1) + [2]], parentOf := b.parentOf[2 := 1]);
    RefreshOnlyProgress(linked, 1);
  }

  /** The book after the parent was added, and the child added and archived. */
  ghost function AfterArchive(): Book {
    Apply(Apply(Apply(EmptyBook(4), AddOrder(PARENT), 1), AddOrder(CHILD), 1), ArchiveOrder(2), 1)
  }

  lemma AfterArchiveShape()
    ensures var b := AfterArchive();
            && b.entries.Keys == {1} && ChildrenOf(b, 1) == [2] && b.parentOf == map[2 := 1]
            && b.managed == {} && b.capacity == 4
  {
    hide Stored;
    var b1 := Apply(EmptyBook(4), AddOrder(PARENT), 1);
    assert b1.entries.Keys == {1} && b1.children == map[] && |b1.entries| == 1;
    AddsTheChild(b1);
  }

  lemma TradesTwice(b: Book)
    requires 1 in b.entries && 1 !in b.managed && 1 in b.children && b.children[1] == [2, 2]
    requires 2 in b.entries && b.entries[2] == Stored(CHILD, 1) && 2 in b.parentOf && b.parentOf[2] == 1
    ensures var b' := Apply(b, RecordTrade(2, 5, 1, 5, 0), 1);
            && 1 in b'.entries && b'.entries[1].traded == 10
            && ChildrenOf(b', 1) == [2, 2] && 2 in b'.entries && b'.entries[2].traded == 5
            && b'.entries[2].kind == OrderType.New
  {
    hide Refresh;
    var b1 := b.(entries := b.entries[2 := Trade(b.entries[2], 5, 1, 5, 0, 1)]);
    RefreshCountsTwice(b1, 1, 2);
    RefreshOnlyProgress(b1, 1);
    assert Apply(b, RecordTrade(2, 5, 1, 5, 0), 1) == Refresh(b1, 1);
  }

  lemma OnlyChildSum(b: Book)
    requires ChildrenOf(b, 1) == [2, 2] && 2 in b.entries && b.entries[2].traded == 5
             && b.entries[2].kind == OrderType.New
    ensures ChildSum(b, 1, TRADED) == 5
  {
    hide Sum;
    SumSingle(Figures(b.entries, [2, 2], TRADED), 2);
  }

  lemma ReusedRun()
    ensures RunBook(EmptyBook(4), REUSED)
            == Apply(Apply(AfterArchive(), AddOrder(CHILD), 1), RecordTrade(2, 5, 1, 5, 0), 1)
  {
    hide Apply;
    RunTwo(EmptyBook(4), REUSED);
    RunTwo(Apply(Apply(EmptyBook(4), AddOrder(PARENT), 1), AddOrder(CHILD), 1), REUSED[2..]);
    assert REUSED[2..][2..] == REUSED[4..];
  }

  /** The input for which the lists repeat: a parent whose only booked child traded 5 shows 10, although each order was
      added, archived and traded without complaint. */
  lemma ReusedIdIsCountedTwice()
    ensures var b := RunBook(EmptyBook(4), REUSED);
            && 1 in b.entries && b.entries[1].traded == 10
            && ChildrenOf(b, 1) == [2, 2] && 2 in b.entries && b.entries[2].traded == 5 && ChildSum(b, 1, TRADED) == 5
    ensures !ListsFreshly(AfterArchive(), CHILD)
  {
    ReusedRun();
    AfterArchiveShape();
    var b3 := AfterArchive();
    assert |b3.entries| == |b3.entries.Keys| == 1;
    hide AfterArchive, Apply, Stored, RunBook;
    AddsTheChild(b3);
    TradesTwice(Apply(b3, AddOrder(CHILD), 1));
    OnlyChildSum(Apply(Apply(b3, AddOrder(CHILD), 1), RecordTrade(2, 5, 1, 5, 0), 1));
  }
}
