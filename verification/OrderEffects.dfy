/** What the book shows of an order after each operation, in the reported figures themselves, and over whole runs
    (src/order/order_book.cpp). */
module OrderEffects {
  import opened Integers
  import opened OrderTypes
  import opened Sums
  import opened OrderBookModel

  // ---------- Operations on other orders ----------

  /** From one book to the next an order that is nobody's parent stays as it is, and nobody's parent. */
  ghost predicate Steady(b: Book, b': Book, id: OrderId) {
    id in b.entries && id !in b.children ==>
      id in b'.entries && b'.entries[id] == b.entries[id] && id !in b'.children
  }

  lemma SteadyChains(b: Book, b': Book, b'': Book, id: OrderId)
    requires Steady(b, b', id) && Steady(b', b'', id)
    ensures Steady(b, b'', id)
  {
  }

  lemma SameIsSteady(b: Book, id: OrderId)
    ensures Steady(b, b, id)
  {
  }

  lemma RefreshIsSteady(b: Book, p: OrderId, id: OrderId)
    ensures Steady(b, Refresh(b, p), id)
  {
    RefreshOnlyProgress(b, p);
    if p !in b.children {
      assert Refresh(b, p) == b;
    }
    hide Refresh;
  }

  lemma ChangeIsSteady(b: Book, x: OrderId, e: Entry, latched: set<OrderId>, id: OrderId)
    requires x in b.entries && x != id
    ensures Steady(b, Change(b, x, e, latched), id)
  {
    var b' := b.(entries := b.entries[x := e], latched := latched);
    assert Steady(b, b', id);
    if x in b.parentOf {
      RefreshIsSteady(b', b.parentOf[x], id);
      hide Refresh;
      SteadyChains(b, b', Refresh(b', b.parentOf[x]), id);
    }
  }

  lemma MarkIsSteady(b: Book, x: OrderId, state: OrderState, now: uint64, id: OrderId)
    requires x != id
    ensures Steady(b, UpdateState(b, x, state, now), id)
  {
    hide Change, Steady;
    if x in b.entries {
      var latched := if state == TraderError && x in b.children && x !in b.managed then b.latched + {x} else b.latched;
      ChangeIsSteady(b, x, b.entries[x].(state := state, updatedNs := now), latched, id);
    } else {
      SameIsSteady(b, id);
    }
  }

  lemma TradeIsSteady(b: Book, x: OrderId, volume: uint64, price: uint64, value: uint64, fee: uint64, now: uint64,
                      id: OrderId)
    requires x != id
    ensures Steady(b, UpdateTrade(b, x, volume, price, value, fee, now), id)
  {
    hide Change, Steady, Trade;
    if x in b.entries {
      ChangeIsSteady(b, x, Trade(b.entries[x], volume, price, value, fee, now), b.latched, id);
    } else {
      SameIsSteady(b, id);
    }
  }

  lemma AddIsSteady(b: Book, e: Entry, now: uint64, id: OrderId)
    requires e.isSplitChild && e.parent != 0 ==> e.parent != id
    ensures Steady(b, Add(b, e, now), id)
  {
    hide Refresh, OrderBookModel.Stored;
    if CanAdd(b, e.id) {
      var b1 := b.(entries := b.entries[e.id := OrderBookModel.Stored(e, now)],
                   nextId := Max(b.nextId, SaturatedNextId(e.id)));
      if e.isSplitChild && e.parent != 0 {
        var b2 := b1.(children := b1.children[e.parent := ChildrenOf(b1, e.parent) + [e.id]],
                      parentOf := b1.parentOf[e.id := e.parent]);
        assert Steady(b, b2, id);
        RefreshIsSteady(b2, e.parent, id);
        SteadyChains(b, b2, Refresh(b2, e.parent), id);
      }
    }
  }

  // ---------- Operations on the order itself ----------

  /** The integer quotient: what divides a value evenly over a volume, up to a remainder. */
  predicate IsQuotient(q: nat, value: nat, volume: nat) {
    volume * q <= value < volume * (q + 1)
  }

  lemma AverageIsQuotient(value: uint64, traded: uint64)
    requires traded > 0
    ensures IsQuotient(Average(value, traded), value, traded)
  {
    var q := value / traded;
    assert value == traded * q + value % traded;
    assert traded * (q + 1) == traded * q + traded;
  }

  /** Replacing the entry of an order that is nobody's parent shows exactly the new entry. */
  lemma ChangedIsShown(b: Book, id: OrderId, e: Entry, latched: set<OrderId>)
    requires id in b.entries && id !in b.children
    ensures var b' := Change(b, id, e, latched);
            id in b'.entries && b'.entries[id] == e && id !in b'.children && b'.latched == latched
  {
    var b1 := b.(entries := b.entries[id := e], latched := latched);
    if id in b.parentOf {
      RefreshIsSteady(b1, b.parentOf[id], id);
      hide Refresh;
    }
  }

  /** A fill on an order that was whole is counted in full: traded grows and the remainder shrinks by the reported
      volume, down to nothing; value and fee grow by what is reported, up to 64 bits; the average price is value
      per volume, or the reported price where there is no value; the order ends exactly if nothing remains and it
      had not ended. */
  lemma FillIsCounted(b: Book, id: OrderId, volume: uint64, price: uint64, value: uint64, fee: uint64, now: uint64)
    requires id in b.entries && id !in b.children
    requires var e := b.entries[id]; e.traded + e.remain == e.entrust && e.entrust > 0
    ensures var e, b' := b.entries[id], UpdateTrade(b, id, volume, price, value, fee, now);
            && id in b'.entries && id !in b'.children
            && var e' := b'.entries[id];
               && (if volume <= e.remain then e'.traded == e.traded + volume && e'.remain == e.remain - volume
                   else e'.traded == e.entrust && e'.remain == 0)
               && e'.value == Min(e.value + value, U64_MAX) && e'.fee == Min(e.fee + fee, U64_MAX)
               && (e'.traded > 0 && e'.value > 0 ==> IsQuotient(e'.averagePrice, e'.value, e'.traded))
               && (e'.traded > 0 && e'.value == 0 ==> e'.averagePrice == price)
               && e'.state == (if e'.remain == 0 && !IsTerminal(e.state) then Finished else e.state)
               && e'.entrust == e.entrust && e'.updatedNs == now
               && KeepsIdentity(e, e')
  {
    hide Change, Average;
    var e := b.entries[id];
    var e' := Trade(e, volume, price, value, fee, now);
    ChangedIsShown(b, id, e', b.latched);
    if e'.traded > 0 && e'.value > 0 {
      AverageIsQuotient(e'.value, e'.traded);
    }
    hide IsQuotient;
  }

  /** A report of a state shows that state, at that time, and nothing else changes; a parent that the book aggregates
      keeps the trader's error for good. */
  lemma StateIsShown(b: Book, id: OrderId, state: OrderState, now: uint64)
    requires id in b.entries
    ensures var b' := UpdateState(b, id, state, now);
            && id in b'.entries
            && (id !in b.children ==> b'.entries[id] == b.entries[id].(state := state, updatedNs := now))
            && b'.latched == b.latched
                             + (if state == TraderError && id in b.children && id !in b.managed then {id} else {})
  {
    hide Refresh;
    var latched := if state == TraderError && id in b.children && id !in b.managed then b.latched + {id} else b.latched;
    var e := b.entries[id].(state := state, updatedNs := now);
    if id !in b.children {
      ChangedIsShown(b, id, e, latched);
    } else if id in b.parentOf {
      RefreshOnlyProgress(b.(entries := b.entries[id := e], latched := latched), b.parentOf[id]);
    }
  }

  /** A booked order shows what it was added with; its remaining volume is what it was entrusted with and has not
      traded, unless one was given; missing times are filled in; and the id counter is past its id. */
  lemma AddedIsShown(b: Book, e: Entry, now: uint64)
    requires e.id != 0 && e.id !in b.entries && |b.entries| < b.capacity && e.id !in b.children && e.parent != e.id
    ensures var b' := Add(b, e, now);
            && e.id in b'.entries
            && var e' := b'.entries[e.id];
               && e' == e.(submitNs := e'.submitNs, updatedNs := e'.updatedNs, remain := e'.remain)
               && (e.kind == OrderType.New && e.remain == 0 && e.entrust >= e.traded ==>
                   e'.traded + e'.remain == e.entrust)
               && (e.kind != OrderType.New || e.remain > 0 ==> e'.remain == e.remain)
               && e'.submitNs == (if e.submitNs > 0 then e.submitNs else now)
               && e'.updatedNs == (if e.updatedNs > 0 then e.updatedNs else e'.submitNs)
               && b'.nextId >= b.nextId && (e.id < U32_MAX ==> b'.nextId > e.id)
               && (b'.nextId == b.nextId || b'.nextId == Min(e.id + 1, U32_MAX))
  {
    hide Refresh;
    var b1 := b.(entries := b.entries[e.id := Stored(e, now)], nextId := Max(b.nextId, SaturatedNextId(e.id)));
    if e.isSplitChild && e.parent != 0 {
      var b2 := b1.(children := b1.children[e.parent := ChildrenOf(b1, e.parent) + [e.id]],
                    parentOf := b1.parentOf[e.id := e.parent]);
      RefreshOnlyProgress(b2, e.parent);
    }
  }

  /** A managed parent shows the engine's view: its target as entrusted, what was traded, and the rest as remaining. */
  lemma MirrorIsShown(b: Book, id: OrderId, v: ManagedView, state: OrderState, now: uint64)
    requires id in b.entries
    ensures var e, b' := b.entries[id], SyncManaged(b, id, v, state, now);
            && id in b'.entries && id in b'.managed
            && var e' := b'.entries[id];
               && e'.mirror == v.mirror && e'.entrust == v.mirror.target
               && e'.traded == v.traded && e'.value == v.value && e'.fee == v.fee && e'.state == state
               && (v.traded <= v.mirror.target ==> e'.traded + e'.remain == v.mirror.target)
               && (v.traded > v.mirror.target ==> e'.remain == 0)
               && (v.traded > 0 ==> IsQuotient(e'.averagePrice, v.value, v.traded))
               && (v.traded == 0 ==> e'.averagePrice == 0)
               && (e' != e ==> e'.updatedNs == now)
               && KeepsIdentity(e, e')
  {
    hide Average;
    if v.traded > 0 {
      AverageIsQuotient(v.value, v.traded);
    }
    hide IsQuotient;
  }

  // ---------- Parents ----------

  /** The rank of the furthest child so far, and its state. */
  lemma {:induction false} BestIsFurthest(parent: Entry, entries: map<OrderId, Entry>, ids: seq<OrderId>)
    ensures var t := Aggregate(parent, entries, ids);
            && (forall c :: c in ids && NewChild(entries, c) ==> ProgressRank(entries[c].state) <= t.bestRank)
            && (t.bestRank == -1 ==> t.best == OrderState.NotSet)
            && (t.bestRank != -1 ==>
                  exists c :: c in ids && NewChild(entries, c) && entries[c].state == t.best
                              && ProgressRank(t.best) == t.bestRank)
    decreases |ids|
  {
    hide SaturatingAdd, ProgressRank, IsTerminal;
    if ids != [] {
      var n := |ids| - 1;
      BestIsFurthest(parent, entries, ids[..n]);
      assert ids == ids[..n] + [ids[n]];
      assert forall id :: id in ids <==> id in ids[..n] || id == ids[n];
      RankIsNatural(if ids[n] in entries then entries[ids[n]].state else OrderState.NotSet);
      var t, t' := Aggregate(parent, entries, ids[..n]), Aggregate(parent, entries, ids);
      if t'.bestRank != -1 {
        if t'.bestRank == t.bestRank && t'.best == t.best {
          var c :| c in ids[..n] && NewChild(entries, c) && entries[c].state == t.best
                   && ProgressRank(t.best) == t.bestRank;
          assert c in ids;
        } else {
          assert NewChild(entries, ids[n]) && entries[ids[n]].state == t'.best;
        }
      }
    }
  }

  lemma RankIsNatural(state: OrderState)
    ensures ProgressRank(state) >= 0
  {
  }

  /** A refreshed parent shows the trader's error if it was ever reported; else it is finished once all its New children
      have ended; else, if one of them ranks at all, it shows the state of the one that ranks furthest. */
  lemma RefreshedState(b: Book, p: OrderId, best: OrderId)
    requires p in b.entries && p in b.children && p !in b.managed
    requires best in b.children[p] && NewChild(b.entries, best)
    requires forall c :: c in b.children[p] && NewChild(b.entries, c) ==>
               ProgressRank(b.entries[c].state) <= ProgressRank(b.entries[best].state)
    ensures p in Refresh(b, p).entries
    ensures var state := Refresh(b, p).entries[p].state;
            && (p in b.latched ==> state == TraderError)
            && (p !in b.latched && (forall c :: c in b.children[p] && NewChild(b.entries, c) ==>
                                      IsTerminal(b.entries[c].state))
                ==> state == Finished)
            && (p !in b.latched && ProgressRank(b.entries[best].state) > 0 ==> state == b.entries[best].state)
  {
    var parent, ids := b.entries[p], b.children[p];
    AggregateStates(parent, b.entries, ids);
    BestIsFurthest(parent, b.entries, ids);
    var t := Aggregate(parent, b.entries, ids);
    StatesPartition(b.entries[best].state);
    if ProgressRank(b.entries[best].state) > 0 {
      RanksDiffer(t.best, b.entries[best].state);
    }
    hide Aggregate, Average, ProgressRank, IsTerminal, NewChild;
  }

  /** A refreshed parent shows the average over all its children, and the time of the latest of them. */
  lemma RefreshedAverage(b: Book, p: OrderId)
    requires p in b.entries && p in b.children && p !in b.managed
    requires exists c :: c in b.children[p] && NewChild(b.entries, c)
    ensures p in Refresh(b, p).entries
    ensures var e, e' := b.entries[p], Refresh(b, p).entries[p];
            && (e'.traded > 0 ==> IsQuotient(e'.averagePrice, e'.value, e'.traded))
            && (e'.traded == 0 ==> e'.averagePrice == e.averagePrice)
            && e'.updatedNs >= e.updatedNs
            && (forall c :: c in b.children[p] && NewChild(b.entries, c) ==> e'.updatedNs >= b.entries[c].updatedNs)
            && (e'.updatedNs == e.updatedNs
                || exists c :: c in b.children[p] && NewChild(b.entries, c) && e'.updatedNs == b.entries[c].updatedNs)
  {
    var parent, ids := b.entries[p], b.children[p];
    AggregateStates(parent, b.entries, ids);
    LatestOfAll(parent, b.entries, ids);
    var t := Aggregate(parent, b.entries, ids);
    if t.traded > 0 {
      AverageIsQuotient(t.value, t.traded);
    }
    hide Aggregate, Average, IsQuotient, NewChild;
  }

  lemma {:induction false} LatestOfAll(parent: Entry, entries: map<OrderId, Entry>, ids: seq<OrderId>)
    ensures var t := Aggregate(parent, entries, ids);
            && t.latestNs >= parent.updatedNs
            && (forall c :: c in ids && NewChild(entries, c) ==> t.latestNs >= entries[c].updatedNs)
            && (t.latestNs == parent.updatedNs
                || exists c :: c in ids && NewChild(entries, c) && t.latestNs == entries[c].updatedNs)
    decreases |ids|
  {
    hide SaturatingAdd, ProgressRank, IsTerminal;
    if ids != [] {
      var n := |ids| - 1;
      LatestOfAll(parent, entries, ids[..n]);
      assert ids == ids[..n] + [ids[n]];
      assert forall id :: id in ids <==> id in ids[..n] || id == ids[n];
      var t, t' := Aggregate(parent, entries, ids[..n]), Aggregate(parent, entries, ids);
      if t'.latestNs != parent.updatedNs {
        if t'.latestNs == t.latestNs {
          var c :| c in ids[..n] && NewChild(entries, c) && t.latestNs == entries[c].updatedNs;
          assert c in ids;
        } else {
          assert NewChild(entries, ids[n]) && t'.latestNs == entries[ids[n]].updatedNs;
        }
      }
    }
  }

  // ---------- Whole runs ----------

  /** What a run reports as traded on an order. */
  datatype Fills = Fills(volume: nat, value: nat, fee: nat)

  ghost function Reported(ops: seq<(Operation, uint64)>, id: OrderId): Fills
    decreases |ops|
  {
    if ops == [] then Fills(0, 0, 0)
    else
      var rest := Reported(ops[1..], id);
      match ops[0].0
      case RecordTrade(x, volume, _, value, fee) =>
        if x == id then Fills(volume + rest.volume, value + rest.value, fee + rest.fee) else rest
      case _ => rest
  }

  /** The operation does not take the order out of the book, mirror it, or list a child under it. */
  predicate Keeps(op: Operation, id: OrderId) {
    match op
    case AddOrder(e) => !(e.isSplitChild && e.parent == id)
    case SyncParent(x, _, _) => x != id
    case ArchiveOrder(x) => x != id
    case ClearAll => false
    case _ => true
  }

  /** An order of a volume, whole, with these figures, and nobody's parent. */
  ghost predicate Shows(b: Book, id: OrderId, entrust: nat, traded: nat, value: nat, fee: nat) {
    && id in b.entries && id !in b.children
    && var e := b.entries[id];
       && e.entrust == entrust && entrust > 0 && e.traded == traded && e.traded + e.remain == e.entrust
       && e.value == value && e.fee == fee
  }

  lemma OperationShows(b: Book, op: Operation, now: uint64, id: OrderId, entrust: nat, traded: nat, value: nat,
                       fee: nat)
    requires Shows(b, id, entrust, traded, value, fee) && Keeps(op, id)
    ensures var f := Reported([(op, now)], id);
            Shows(Apply(b, op, now), id, entrust, Min(entrust, traded + f.volume), Cap(value + f.value),
                  Cap(fee + f.fee))
  {
    hide Add, UpdateState, UpdateTrade, Mirrored;
    assert [(op, now)][1..] == [];
    match op
    case AddOrder(e) => AddIsSteady(b, e, now, id);
    case SetState(x, state) =>
      if x == id {
        StateIsShown(b, id, state, now);
        MarkingKeepsFamilies(b, id, state, now);
      } else {
        MarkIsSteady(b, x, state, now, id);
      }
    case RecordTrade(x, volume, price, v, f) =>
      if x == id {
        FillIsCounted(b, id, volume, price, v, f, now);
        hide IsQuotient;
      } else {
        TradeIsSteady(b, x, volume, price, v, f, now, id);
      }
    case _ =>
  }

  lemma MarkingKeepsFamilies(b: Book, id: OrderId, state: OrderState, now: uint64)
    ensures UpdateState(b, id, state, now).children == b.children
  {
    hide Refresh;
  }

  /** Main result: over every run of operations that keep it in the book, an order that is nobody's parent shows exactly
      what was reported on it: the traded volume up to the entrusted one, the rest as remaining, and value and fee up to
      64 bits, whatever happens to other orders in between. */
  lemma {:induction false} EveryFillIsCounted(
    b: Book, ops: seq<(Operation, uint64)>, id: OrderId, entrust: nat, traded: nat, value: nat, fee: nat)
    requires Shows(b, id, entrust, traded, value, fee) && forall k :: 0 <= k < |ops| ==> Keeps(ops[k].0, id)
    ensures var f := Reported(ops, id);
            Shows(RunBook(b, ops), id, entrust, Min(entrust, traded + f.volume), Cap(value + f.value), Cap(fee + f.fee))
    decreases |ops|
  {
    hide Shows, Keeps, Apply;
    if ops == [] {
      FiguresAreSmall(b, id, entrust, traded, value, fee);
    } else {
      var (op, now) := ops[0];
      OperationShows(b, op, now, id, entrust, traded, value, fee);
      var f := Reported([(op, now)], id);
      assert [(op, now)][1..] == [];
      EveryFillIsCounted(Apply(b, op, now), ops[1..], id, entrust, Min(entrust, traded + f.volume),
                         Cap(value + f.value), Cap(fee + f.fee));
    }
  }

  lemma FiguresAreSmall(b: Book, id: OrderId, entrust: nat, traded: nat, value: nat, fee: nat)
    requires Shows(b, id, entrust, traded, value, fee)
    ensures traded <= entrust && value <= U64_MAX && fee <= U64_MAX
  {
  }
}
