/** Lock-free counters: the compare-and-swap slot allocator of the order pool (src/shm/orders_shm.hpp) and the order-id
    counter of the book (src/order/order_book.cpp), each as an interleaving of any number of processes. */
module SlotAllocator {
  import opened Integers

  type Process = nat

  /** The pool header with, for each process inside the retry loop, the counter value it is about to try. */
  datatype Pool = Pool(
    capacity: uint32, nextIndex: uint32, rejected: nat, trying: map<Process, uint32>,
    issued: seq<uint32>, failed: seq<Process>)

  datatype PoolStep =
    | Load(process: Process)
    | Attempt(process: Process, spurious: bool)
    | Die(process: Process)

  function NewPool(capacity: uint32): Pool {
    Pool(capacity, 0, 0, map[], [], [])
  }

  function NextPool(p: Pool, step: PoolStep): Pool {
    match step
    case Load(q) => if q in p.trying then p else p.(trying := p.trying[q := p.nextIndex])
    case Attempt(q, spurious) =>
      if q !in p.trying then p
      else if p.trying[q] >= p.capacity
        then p.(rejected := p.rejected + 1, trying := p.trying - {q}, failed := p.failed + [q])
      else if p.trying[q] == p.nextIndex && !spurious then
        p.(nextIndex := p.nextIndex + 1, issued := p.issued + [p.nextIndex], trying := p.trying - {q})
      else p.(trying := p.trying[q := p.nextIndex])
    case Die(q) => p.(trying := p.trying - {q})
  }

  /** The slots issued are exactly the indices below the counter, each once and in order. */
  ghost predicate PoolValid(p: Pool) {
    && p.nextIndex <= p.capacity && p.rejected == |p.failed|
    && |p.issued| == p.nextIndex && (forall i :: 0 <= i < |p.issued| ==> p.issued[i] == i)
    && (forall q :: q in p.trying ==> p.trying[q] <= p.nextIndex)
  }

  ghost function RunPool(p: Pool, steps: seq<PoolStep>): Pool
    decreases |steps|
  {
    if steps == [] then p else RunPool(NextPool(p, steps[0]), steps[1..])
  }

  lemma {:induction false} RunPoolKeepsValid(p: Pool, steps: seq<PoolStep>)
    requires PoolValid(p)
    ensures PoolValid(RunPool(p, steps)) && RunPool(p, steps).capacity == p.capacity
    decreases |steps|
  {
    if steps != [] {
      assert PoolValid(NextPool(p, steps[0]));
      hide PoolValid;
      RunPoolKeepsValid(NextPool(p, steps[0]), steps[1..]);
    }
  }

  /** Main result: under any interleaving, with spurious failures and dying processes, no slot index is issued twice or
      left out, none reaches the capacity, the rejections counted are the calls that failed, and a call fails only when
      every slot has been issued. */
  lemma EverySlotIsIssuedOnce(capacity: uint32, steps: seq<PoolStep>)
    ensures var p := RunPool(NewPool(capacity), steps);
            && |p.issued| == p.nextIndex <= capacity && p.rejected == |p.failed|
            && (forall i :: 0 <= i < |p.issued| ==> p.issued[i] == i)
            && (forall step :: NextPool(p, step).failed != p.failed ==> p.nextIndex == capacity)
  {
    RunPoolKeepsValid(NewPool(capacity), steps);
  }

  // ---------- The id counter ----------

  /** The counter, the processes raising it with their floor and the value they last saw, the ids issued, and the
      largest floor whose raise has completed. */
  datatype Ids = Ids(value: uint32, raising: map<Process, (uint32, uint32)>, issued: seq<uint32>, floor: uint32)

  datatype IdStep =
    | Issue
    | BeginRaise(process: Process, floor: uint32)
    | TryRaise(process: Process, spurious: bool)

  function NextIds(s: Ids, step: IdStep): Ids {
    match step
    case Issue => s.(value := Following(s.value), issued := s.issued + [s.value])
    case BeginRaise(q, floor) => if q in s.raising then s else s.(raising := s.raising[q := (floor, s.value)])
    case TryRaise(q, spurious) =>
      if q !in s.raising then s
      else
        var (floor, seen) := s.raising[q];
        if seen >= floor then s.(raising := s.raising - {q}, floor := Max(s.floor, floor))
        else if seen == s.value && !spurious then
          s.(value := floor, raising := s.raising - {q}, floor := Max(s.floor, floor))
        else s.(raising := s.raising[q := (floor, s.value)])
  }

  ghost predicate IdsValid(s: Ids) {
    && s.floor <= s.value
    && (forall i, j :: 0 <= i < j < |s.issued| ==> s.issued[i] < s.issued[j])
    && (forall i :: 0 <= i < |s.issued| ==> s.issued[i] < s.value)
    && (forall q :: q in s.raising ==> s.raising[q].1 <= s.value)
  }

  /** A step keeps ids unique and above every completed floor exactly when it does not issue the last 32-bit id. */
  lemma IdStepKeepsValidExactly(s: Ids, step: IdStep)
    requires IdsValid(s)
    ensures IdsValid(NextIds(s, step)) <==> !(step.Issue? && s.value == U32_MAX)
  {
    if step.Issue? && s.value == U32_MAX {
      var s' := NextIds(s, step);
      assert s'.issued[|s.issued|] == U32_MAX;
    }
  }

  /** The floor in force never sinks, and the next id issued is not below it. */
  lemma IssuedAboveFloor(s: Ids, step: IdStep)
    requires IdsValid(s)
    ensures NextIds(s, step).floor >= s.floor
    ensures step.Issue? ==> NextIds(s, step).issued[|s.issued|] >= s.floor
    ensures step.Issue? ==> forall i :: 0 <= i < |s.issued| ==> NextIds(s, step).issued[|s.issued|] > s.issued[i]
  {
  }

  function NewIds(value: uint32): Ids {
    Ids(value, map[], [], 0)
  }

  ghost function RunIds(s: Ids, steps: seq<IdStep>): Ids
    decreases |steps|
  {
    if steps == [] then s else RunIds(NextIds(s, steps[0]), steps[1..])
  }

  /** What was issued stays issued. */
  lemma {:induction false} IssuedStays(s: Ids, steps: seq<IdStep>)
    ensures s.issued <= RunIds(s, steps).issued
    decreases |steps|
  {
    if steps != [] {
      assert s.issued <= NextIds(s, steps[0]).issued;
      hide NextIds;
      IssuedStays(NextIds(s, steps[0]), steps[1..]);
    }
  }

  /** Main result: over any interleaving of issues and raises, ids stay unique and ascending, and above every floor
      whose raise has completed, exactly as long as the last 32-bit id is not issued. */
  lemma {:induction false} RunKeepsIdsValidExactly(s: Ids, steps: seq<IdStep>)
    requires IdsValid(s)
    ensures IdsValid(RunIds(s, steps)) <==> U32_MAX !in RunIds(s, steps).issued
    decreases |steps|
  {
    if steps != [] {
      IdStepKeepsValidExactly(s, steps[0]);
      var s' := NextIds(s, steps[0]);
      if steps[0].Issue? && s.value == U32_MAX {
        IssuedStays(s', steps[1..]);
        assert s'.issued[|s.issued|] == U32_MAX;
        LastIdBreaks(RunIds(s', steps[1..]));
        hide IdsValid;
      } else {
        hide IdsValid, NextIds;
        RunKeepsIdsValidExactly(s', steps[1..]);
      }
    }
  }

  lemma LastIdBreaks(s: Ids)
    requires U32_MAX in s.issued
    ensures !IdsValid(s)
  {
  }

  /** Main result: from a fresh counter, two calls never get the same id, and none issued after a raise has completed is
      below its floor, as long as the last 32-bit id is not issued. */
  lemma EveryIdIsNew(value: uint32, before: seq<IdStep>, after: seq<IdStep>)
    requires U32_MAX !in RunIds(RunIds(NewIds(value), before), after).issued
    ensures var s, s' := RunIds(NewIds(value), before), RunIds(RunIds(NewIds(value), before), after);
            && (forall i, j :: 0 <= i < j < |s'.issued| ==> s'.issued[i] < s'.issued[j])
            && |s.issued| <= |s'.issued|
            && (forall i :: |s.issued| <= i < |s'.issued| ==> s'.issued[i] >= s.floor)
  {
    var s := RunIds(NewIds(value), before);
    IssuedStays(s, after);
    hide RunIds;
    RunKeepsIdsValidExactly(NewIds(value), before);
    RunKeepsIdsValidExactly(s, after);
    LaterAboveFloor(s, after);
  }

  /** After the last id the counter starts again at zero, so a later id can be one that was issued before. */
  lemma LastIdIsFollowedByZero()
    ensures RunIds(NewIds(U32_MAX), [Issue, Issue]).issued == [U32_MAX, 0]
    ensures !IdsValid(RunIds(NewIds(U32_MAX), [Issue, Issue]))
  {
    var s1 := NextIds(NewIds(U32_MAX), Issue);
    assert [Issue, Issue][1..] == [Issue] && [Issue][1..] == [];
    assert RunIds(s1, [Issue]) == RunIds(NextIds(s1, Issue), []);
    LastIdBreaks(RunIds(NewIds(U32_MAX), [Issue, Issue]));
  }

  lemma {:induction false} LaterAboveFloor(s: Ids, steps: seq<IdStep>)
    requires IdsValid(s) && U32_MAX !in RunIds(s, steps).issued
    ensures |s.issued| <= |RunIds(s, steps).issued|
    ensures forall i :: |s.issued| <= i < |RunIds(s, steps).issued| ==> RunIds(s, steps).issued[i] >= s.floor
    decreases |steps|
  {
    if steps != [] {
      var s' := NextIds(s, steps[0]);
      IdStepKeepsValidExactly(s, steps[0]);
      IssuedAboveFloor(s, steps[0]);
      IssuedStays(s', steps[1..]);
      if steps[0].Issue? {
        assert s'.issued[|s.issued|] in RunIds(s', steps[1..]).issued;
      }
      assert |s'.issued| <= |s.issued| + 1;
      hide IdsValid, NextIds;
      LaterAboveFloor(s', steps[1..]);
    }
  }

  // ---------- In place ----------

  class PoolHeader {
    const capacity: uint32
    var nextIndex: uint32
    var rejected: nat
    ghost var issued: seq<uint32>
    /** The calls that failed, in order. */
    ghost var failed: seq<Process>

    ghost predicate Valid()
      reads this
    {
      rejected == |failed| && PoolValid(Pool(capacity, nextIndex, rejected, map[], issued, failed))
    }

    constructor (capacity: uint32)
      ensures Valid() && this.capacity == capacity && issued == [] && failed == []
    {
      this.capacity, nextIndex, rejected, issued, failed := capacity, 0, 0, [], [];
    }

    /** The compare-and-swap; it may fail spuriously, and then reports the current value. */
    method CompareExchangeWeak(expected: uint32, desired: uint32, spurious: bool) returns (ok: bool, seen: uint32)
      requires Valid() && expected < capacity && desired == expected + 1
      modifies this`nextIndex, this`issued
      ensures Valid() && ok == (expected == old(nextIndex) && !spurious) && seen == old(nextIndex)
      ensures if ok then nextIndex == desired && issued == old(issued) + [expected]
              else nextIndex == old(nextIndex) && issued == old(issued)
    {
      seen := nextIndex;
      ok := nextIndex == expected && !spurious;
      if ok {
        issued := issued + [expected];
        nextIndex := desired;
      }
    }

    /** One call, alone in the loop, with any pattern of spurious failures that ends. */
    method TryAllocate(spurious: seq<bool>, ghost caller: Process) returns (index: uint32, ok: bool)
      requires Valid()
      modifies this
      ensures Valid()
      ensures ok == (old(nextIndex) < capacity)
      ensures ok ==> index == old(nextIndex) && issued == old(issued) + [index] && failed == old(failed)
      ensures !ok ==> issued == old(issued) && failed == old(failed) + [caller]
    {
      var current := nextIndex;
      var round := 0;
      while true
        invariant Valid() && current == nextIndex == old(nextIndex) && issued == old(issued) && failed == old(failed)
        invariant round <= |spurious|
        decreases |spurious| - round
      {
        if current >= capacity {
          rejected := rejected + 1;
          failed := failed + [caller];
          return 0, false;
        }
        var fails := round < |spurious| && spurious[round];
        var swapped, seen := CompareExchangeWeak(current, current + 1, fails);
        if swapped {
          return current, true;
        }
        current := seen;
        round := round + 1;
      }
    }
  }
}
