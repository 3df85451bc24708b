/** The single-producer single-consumer ring as an interleaving of atomic steps (src/shm/spsc_queue.hpp). Items
    are copied word by word, and either side can be overtaken by the other between any two steps. Memory is
    sequentially consistent. */
module SpscQueue {
  // ---------- Ring positions ----------

  /** The cell of the i-th item: masking with the capacity minus one, the capacity being a power of two. */
  function Cell(i: nat, capacity: nat): nat
    requires capacity > 0
  {
    i % capacity
  }

  lemma CellBounds(i: nat, capacity: nat)
    requires capacity > 0
    ensures Cell(i, capacity) < capacity
    ensures i < capacity ==> Cell(i, capacity) == i
  {
  }

  lemma NextCell(i: nat, capacity: nat)
    requires capacity > 0
    ensures Cell(i + 1, capacity) == if Cell(i, capacity) + 1 == capacity then 0 else Cell(i, capacity) + 1
    ensures Cell(Cell(i, capacity) + 1, capacity) == Cell(i + 1, capacity)
  {
    var q, r := i / capacity, i % capacity;
    assert i + 1 == capacity * q + r + 1;
    if r + 1 == capacity {
      assert i + 1 == capacity * (q + 1) + 0;
      DivModUnique(i + 1, capacity, q + 1, 0);
    } else {
      DivModUnique(i + 1, capacity, q, r + 1);
    }
  }

  lemma DivModUnique(a: nat, b: nat, q: nat, r: nat)
    requires b > 0 && r < b && a == b * q + r
    ensures a / b == q && a % b == r
  {
    var d := a / b - q;
    assert b * d == r - a % b;
  }

  /** Walking from one cell to another within a lap takes a number of steps that the two cells determine. */
  lemma {:induction false} CellDistance(i: nat, n: nat, capacity: nat)
    requires n < capacity
    ensures Cell(i + n, capacity) == if Cell(i, capacity) + n < capacity then Cell(i, capacity) + n
            else Cell(i, capacity) + n - capacity
    decreases n
  {
    hide Cell;
    CellBounds(i, capacity);
    if n > 0 {
      CellDistance(i, n - 1, capacity);
      NextCell(i + n - 1, capacity);
    }
  }

  /** The element count the ring reports from its two indices. */
  function SizeFormula(head: nat, tail: nat, capacity: nat): nat
    requires tail < capacity
  {
    Cell(head + capacity - tail, capacity)
  }

  lemma SizeFormulaCounts(first: nat, n: nat, capacity: nat)
    requires n < capacity
    ensures Cell(first, capacity) < capacity
    ensures SizeFormula(Cell(first + n, capacity), Cell(first, capacity), capacity) == n
  {
    CellBounds(first, capacity);
    CellDistance(first, n, capacity);
    CellBounds(n, capacity);
    NextLap(n, capacity);
    hide Cell;
  }

  lemma NextLap(n: nat, capacity: nat)
    requires n < capacity
    ensures Cell(n + capacity, capacity) == n
  {
    DivModUnique(n + capacity, capacity, 1, n);
  }

  // ---------- The step system ----------

  datatype Producer<W> =
    | PushIdle
    | PushLoaded(item: seq<W>, head: nat)
    | PushCopying(item: seq<W>, head: nat, copied: nat)

  datatype Consumer<W> =
    | PopIdle
    | PopLoaded(peek: bool, tail: nat)
    | PopCopying(peek: bool, tail: nat, words: seq<W>)

  /** The shared memory, the two program counters with their local variables, and the history of completed
      operations. */
  datatype Queue<W> = Queue(
    capacity: nat, width: nat, buffer: seq<seq<W>>, head: nat, tail: nat,
    producer: Producer<W>, consumer: Consumer<W>,
    pushed: seq<seq<W>>, popped: seq<seq<W>>)

  datatype Step<W> =
    | PushBegin(item: seq<W>)
    | PushLoadTail
    | PushCopyWord
    | PushPublish
    | PopBegin(peek: bool)
    | PopLoadHead
    | PopCopyWord
    | PopFinish

  predicate Shaped<W>(q: Queue<W>) {
    && 0 < q.capacity == |q.buffer|
    && (forall i :: 0 <= i < |q.buffer| ==> |q.buffer[i]| == q.width)
    && q.head < q.capacity && q.tail < q.capacity
    && (q.producer.PushLoaded? ==> |q.producer.item| == q.width && q.producer.head < q.capacity)
    && (q.producer.PushCopying? ==>
          |q.producer.item| == q.width && q.producer.copied <= q.width && q.producer.head < q.capacity)
    && (q.consumer.PopLoaded? ==> q.consumer.tail < q.capacity)
    && (q.consumer.PopCopying? ==> |q.consumer.words| <= q.width && q.consumer.tail < q.capacity)
  }

  function Empty<W>(capacity: nat, width: nat, garbage: seq<seq<W>>): Queue<W> {
    Queue(capacity, width, garbage, 0, 0, PushIdle, PopIdle, [], [])
  }

  /** One atomic step; a step that its side is not about to take changes nothing. */
  function Next<W>(q: Queue<W>, step: Step<W>): (q': Queue<W>)
    requires Shaped(q)
    ensures Shaped(q') && q'.capacity == q.capacity && q'.width == q.width
  {
    match step
    case PushBegin(item) =>
      if q.producer.PushIdle? && |item| == q.width then q.(producer := PushLoaded(item, q.head)) else q
    case PushLoadTail =>
      if !q.producer.PushLoaded? then q
      else if Cell(q.producer.head + 1, q.capacity) == q.tail then q.(producer := PushIdle)
      else q.(producer := PushCopying(q.producer.item, q.producer.head, 0))
    case PushCopyWord =>
      if !q.producer.PushCopying? || q.producer.copied == q.width then q
      else
        var p := q.producer;
        q.(buffer := q.buffer[p.head := q.buffer[p.head][p.copied := p.item[p.copied]]],
           producer := p.(copied := p.copied + 1))
    case PushPublish =>
      if !q.producer.PushCopying? || q.producer.copied < q.width then q
      else
        CellBounds(q.producer.head + 1, q.capacity);
        q.(head := Cell(q.producer.head + 1, q.capacity), producer := PushIdle, pushed := q.pushed + [q.producer.item])
    case PopBegin(peek) =>
      if q.consumer.PopIdle? then q.(consumer := PopLoaded(peek, q.tail)) else q
    case PopLoadHead =>
      if !q.consumer.PopLoaded? then q
      else if q.consumer.tail == q.head then q.(consumer := PopIdle)
      else q.(consumer := PopCopying(q.consumer.peek, q.consumer.tail, []))
    case PopCopyWord =>
      if !q.consumer.PopCopying? || |q.consumer.words| == q.width then q
      else
        var c := q.consumer;
        q.(consumer := c.(words := c.words + [q.buffer[c.tail][|c.words|]]))
    case PopFinish =>
      if !q.consumer.PopCopying? || |q.consumer.words| < q.width then q
      else if q.consumer.peek then q.(consumer := PopIdle)
      else
        CellBounds(q.consumer.tail + 1, q.capacity);
        q.(tail := Cell(q.consumer.tail + 1, q.capacity), consumer := PopIdle, popped := q.popped + [q.consumer.words])
  }

  // ---------- The invariant ----------

  ghost predicate CellsHoldInFlight<W>(q: Queue<W>)
    requires Shaped(q)
  {
    forall i :: |q.popped| <= i < |q.pushed| ==>
      Cell(i, q.capacity) < q.capacity && q.buffer[Cell(i, q.capacity)] == q.pushed[i]
  }

  ghost predicate ProducerOk<W>(q: Queue<W>)
    requires Shaped(q)
  {
    match q.producer
    case PushIdle => true
    case PushLoaded(_, head) => head == q.head
    case PushCopying(item, head, copied) =>
      head == q.head && |q.pushed| + 1 < |q.popped| + q.capacity && q.buffer[head][..copied] == item[..copied]
  }

  ghost predicate ConsumerOk<W>(q: Queue<W>)
    requires Shaped(q)
  {
    match q.consumer
    case PopIdle => true
    case PopLoaded(_, tail) => tail == q.tail
    case PopCopying(_, tail, words) => tail == q.tail && |q.popped| < |q.pushed| && words <= q.pushed[|q.popped|]
  }

  ghost predicate Valid<W>(q: Queue<W>) {
    && Shaped(q)
    && |q.popped| <= |q.pushed| < |q.popped| + q.capacity
    && q.popped == q.pushed[..|q.popped|]
    && (forall i :: 0 <= i < |q.pushed| ==> |q.pushed[i]| == q.width)
    && q.head == Cell(|q.pushed|, q.capacity) && q.tail == Cell(|q.popped|, q.capacity)
    && CellsHoldInFlight(q) && ProducerOk(q) && ConsumerOk(q)
  }

  /** Two items less than a lap apart occupy different cells. */
  lemma CellsDiffer(i: nat, j: nat, capacity: nat)
    requires i < j < i + capacity
    ensures Cell(i, capacity) != Cell(j, capacity)
  {
    CellDistance(i, j - i, capacity);
    CellBounds(i, capacity);
    hide Cell;
  }

  lemma EmptyIsValid<W>(capacity: nat, width: nat, garbage: seq<seq<W>>)
    requires 0 < capacity == |garbage| && forall i :: 0 <= i < capacity ==> |garbage[i]| == width
    ensures Valid(Empty(capacity, width, garbage))
  {
    CellBounds(0, capacity);
  }

  lemma LoadTailKeepsValid<W>(q: Queue<W>)
    requires Valid(q)
    ensures Valid(Next(q, PushLoadTail))
  {
    hide Cell;
    var n, m, capacity := |q.pushed|, |q.popped|, q.capacity;
    NextCell(n, capacity);
    if n + 1 == m + capacity {
      CellDistance(m, capacity - 1, capacity);
      NextCell(m + capacity - 1, capacity);
      CellBounds(m, capacity);
    }
  }

  /** The producer's cell is not one of those in flight. */
  lemma HeadCellIsFree<W>(q: Queue<W>)
    requires Valid(q)
    ensures forall i :: |q.popped| <= i < |q.pushed| ==> Cell(i, q.capacity) != q.head
  {
    forall i | |q.popped| <= i < |q.pushed| ensures Cell(i, q.capacity) != Cell(|q.pushed|, q.capacity) {
      CellsDiffer(i, |q.pushed|, q.capacity);
    }
  }

  lemma CopyInKeepsValid<W>(q: Queue<W>)
    requires Valid(q)
    ensures Valid(Next(q, PushCopyWord))
  {
    HeadCellIsFree(q);
    hide Cell;
    if q.producer.PushCopying? && q.producer.copied < q.width {
      var p := q.producer;
      var cell := q.buffer[p.head][p.copied := p.item[p.copied]];
      assert cell[..p.copied + 1] == q.buffer[p.head][..p.copied] + [p.item[p.copied]] == p.item[..p.copied + 1];
    }
  }

  lemma PublishKeepsValid<W>(q: Queue<W>)
    requires Valid(q)
    ensures Valid(Next(q, PushPublish))
  {
    hide Cell;
    NextCell(|q.pushed|, q.capacity);
    if q.producer.PushCopying? && q.producer.copied == q.width {
      assert q.producer.item[..q.width] == q.producer.item;
      assert q.buffer[q.head][..q.width] == q.buffer[q.head];
      assert (q.pushed + [q.producer.item])[..|q.popped|] == q.pushed[..|q.popped|];
    }
  }

  lemma ConsumerStepKeepsValid<W>(q: Queue<W>, step: Step<W>)
    requires Valid(q) && (step.PopBegin? || step.PopLoadHead? || step.PopCopyWord? || step.PopFinish?)
    ensures Valid(Next(q, step))
  {
    hide Cell;
    var n, m, capacity := |q.pushed|, |q.popped|, q.capacity;
    NextCell(m, capacity);
    if m < n {
      assert q.buffer[Cell(m, capacity)] == q.pushed[m];
    }
    if step.PopFinish? && q.consumer.PopCopying? && |q.consumer.words| == q.width {
      assert q.consumer.words == q.pushed[m];
      assert q.pushed[..m + 1] == q.pushed[..m] + [q.pushed[m]];
    }
  }

  lemma StepKeepsValid<W>(q: Queue<W>, step: Step<W>)
    requires Valid(q)
    ensures Valid(Next(q, step))
  {
    match step
    case PushBegin(_) =>
    case PushLoadTail => LoadTailKeepsValid(q);
    case PushCopyWord => CopyInKeepsValid(q);
    case PushPublish => PublishKeepsValid(q);
    case PopBegin(_) | PopLoadHead | PopCopyWord | PopFinish => ConsumerStepKeepsValid(q, step);
  }

  ghost function Run<W>(q: Queue<W>, steps: seq<Step<W>>): (q': Queue<W>)
    requires Shaped(q)
    ensures Shaped(q') && q'.capacity == q.capacity
    decreases |steps|
  {
    if steps == [] then q else Run(Next(q, steps[0]), steps[1..])
  }

  lemma {:induction false} RunKeepsValid<W>(q: Queue<W>, steps: seq<Step<W>>)
    requires Valid(q)
    ensures Valid(Run(q, steps))
    decreases |steps|
  {
    hide Next, Valid;
    if steps != [] {
      StepKeepsValid(q, steps[0]);
      ValidIsShaped(q);
      RunKeepsValid(Next(q, steps[0]), steps[1..]);
    } else {
      ValidIsShaped(q);
    }
  }

  lemma ValidIsShaped<W>(q: Queue<W>)
    requires Valid(q)
    ensures Shaped(q)
  {
  }

  // ---------- What it means ----------

  /** The items a reader of the shared memory finds between tail and head. */
  ghost function InFlight<W>(q: Queue<W>): seq<seq<W>>
    requires Shaped(q)
  {
    seq(SizeFormula(q.head, q.tail, q.capacity),
        i requires 0 <= i < SizeFormula(q.head, q.tail, q.capacity) => CellAt(q, q.tail + i))
  }

  ghost function CellAt<W>(q: Queue<W>, i: nat): seq<W>
    requires Shaped(q)
  {
    CellBounds(i, q.capacity);
    q.buffer[Cell(i, q.capacity)]
  }

  lemma CellOfCell(first: nat, n: nat, capacity: nat)
    requires n < capacity
    ensures Cell(first, capacity) < capacity
    ensures Cell(Cell(first, capacity) + n, capacity) == Cell(first + n, capacity)
  {
    CellBounds(first, capacity);
    CellDistance(first, n, capacity);
    CellDistance(Cell(first, capacity), n, capacity);
    CellBounds(Cell(first, capacity), capacity);
    hide Cell;
  }

  /** In a valid state, the popped items followed by the items in memory are the pushed items. */
  lemma ValidIsFifo<W>(q: Queue<W>)
    requires Valid(q)
    ensures q.pushed == q.popped + InFlight(q)
    ensures SizeFormula(q.head, q.tail, q.capacity) == |q.pushed| - |q.popped| <= q.capacity - 1
  {
    hide Cell;
    var m, n := |q.popped|, |q.pushed| - |q.popped|;
    SizeFormulaCounts(m, n, q.capacity);
    assert q.pushed == q.pushed[..m] + q.pushed[m..];
    forall i | 0 <= i < n ensures InFlight(q)[i] == q.pushed[m..][i] {
      CellOfCell(m, i, q.capacity);
      assert q.buffer[Cell(m + i, q.capacity)] == q.pushed[m + i];
    }
    assert InFlight(q) == q.pushed[m..];
  }

  /** Main result: under every interleaving of one producer and one consumer, what has been popped followed by what lies
      in memory is what has been pushed, and the size formula gives the true count, at most the capacity minus one. */
  lemma EveryInterleavingIsFifo<W>(capacity: nat, width: nat, garbage: seq<seq<W>>, steps: seq<Step<W>>)
    requires 0 < capacity == |garbage| && forall i :: 0 <= i < capacity ==> |garbage[i]| == width
    ensures var q := Run(Empty(capacity, width, garbage), steps);
            && q.pushed == q.popped + InFlight(q)
            && SizeFormula(q.head, q.tail, capacity) == |q.pushed| - |q.popped| <= capacity - 1
  {
    EmptyIsValid(capacity, width, garbage);
    RunKeepsValid(Empty(capacity, width, garbage), steps);
    ValidIsFifo(Run(Empty(capacity, width, garbage), steps));
    hide Run, Valid, InFlight, SizeFormula;
  }

  /** No torn reads: what a pop or a peek is about to return is the oldest item not yet popped, word for word. */
  lemma FinishedReadIsTheFront<W>(q: Queue<W>)
    requires Valid(q) && q.consumer.PopCopying? && |q.consumer.words| == q.width
    ensures |q.popped| < |q.pushed| && q.consumer.words == q.pushed[|q.popped|]
  {
    hide CellsHoldInFlight, ProducerOk;
    assert q.pushed[|q.popped|][..q.width] == q.pushed[|q.popped|];
  }

  /** A push is refused exactly when the ring holds capacity minus one items at that moment, a pop exactly when it
      is empty. */
  lemma RefusalsAreExact<W>(q: Queue<W>)
    requires Valid(q)
    ensures q.producer.PushLoaded? ==>
              (Next(q, PushLoadTail).producer.PushIdle? <==> |q.pushed| - |q.popped| == q.capacity - 1)
    ensures q.consumer.PopLoaded? ==> (Next(q, PopLoadHead).consumer.PopIdle? <==> |q.pushed| == |q.popped|)
  {
    hide Cell, CellsHoldInFlight;
    var m, n, capacity := |q.popped|, |q.pushed| - |q.popped|, q.capacity;
    NextCell(m + n, capacity);
    CellDistance(m, n, capacity);
    CellBounds(m, capacity);
    if n + 1 < capacity {
      CellDistance(m, n + 1, capacity);
    }
  }

  /** A size read in two loads, head first, is the count of items pushed by the first load and not popped by the second,
      exactly when the consumer has not overtaken the head that was read. */
  lemma SplitSizeIsExactIffNotOvertaken<W>(q: Queue<W>, steps: seq<Step<W>>)
    requires Valid(q)
    ensures var q' := Run(q, steps);
            SizeFormula(q.head, q'.tail, q.capacity) == |q.pushed| - |q'.popped| <==> |q'.popped| <= |q.pushed|
  {
    hide Cell, Next;
    var q' := Run(q, steps);
    RunKeepsValid(q, steps);
    PoppedOnlyGrows(q, steps);
    if |q'.popped| <= |q.pushed| {
      SizeFormulaCounts(|q'.popped|, |q.pushed| - |q'.popped|, q.capacity);
    }
  }

  lemma {:induction false} PoppedOnlyGrows<W>(q: Queue<W>, steps: seq<Step<W>>)
    requires Shaped(q)
    ensures |q.popped| <= |Run(q, steps).popped|
    decreases |steps|
  {
    if steps != [] {
      PoppedOnlyGrows(Next(q, steps[0]), steps[1..]);
      hide Run;
    }
  }

  // ---------- In place ----------

  /** The ring in shared memory; each method is one atomic step of one of the two sides. */
  class Ring<W> {
    const capacity: nat
    const width: nat
    const buffer: array<seq<W>>
    var head: nat
    var tail: nat
    var producer: Producer<W>
    var consumer: Consumer<W>
    ghost var pushed: seq<seq<W>>
    ghost var popped: seq<seq<W>>

    ghost function Model(): Queue<W>
      reads this, buffer
    {
      Queue(capacity, width, buffer[..], head, tail, producer, consumer, pushed, popped)
    }

    constructor (memory: array<seq<W>>, width: nat)
      requires memory.Length > 0 && forall i :: 0 <= i < memory.Length ==> |memory[i]| == width
      ensures Model() == Empty(memory.Length, width, memory[..]) && buffer == memory
      ensures Valid(Model())
    {
      capacity, this.width, buffer := memory.Length, width, memory;
      head, tail, producer, consumer, pushed, popped := 0, 0, PushIdle, PopIdle, [], [];
      new;
      EmptyIsValid(capacity, width, buffer[..]);
    }

    method BeginPush(item: seq<W>)
      requires Valid(Model()) && producer.PushIdle? && |item| == width
      modifies this`producer
      ensures Model() == Next(old(Model()), PushBegin(item)) && Valid(Model())
    {
      StepKeepsValid(Model(), PushBegin(item));
      producer := PushLoaded(item, head);
    }

    method LoadTail() returns (full: bool)
      requires Valid(Model()) && producer.PushLoaded?
      modifies this`producer
      ensures Model() == Next(old(Model()), PushLoadTail) && Valid(Model())
      ensures full == (|pushed| - |popped| == capacity - 1)
    {
      StepKeepsValid(Model(), PushLoadTail);
      RefusalsAreExact(Model());
      hide Valid, Cell;
      full := Cell(producer.head + 1, capacity) == tail;
      producer := if full then PushIdle else PushCopying(producer.item, producer.head, 0);
    }

    method CopyIn()
      requires Valid(Model()) && producer.PushCopying? && producer.copied < width
      modifies this`producer, buffer
      ensures Model() == Next(old(Model()), PushCopyWord) && Valid(Model())
    {
      StepKeepsValid(Model(), PushCopyWord);
      var h, k := producer.head, producer.copied;
      buffer[h] := buffer[h][k := producer.item[k]];
      producer := producer.(copied := k + 1);
      hide Valid;
    }

    method PublishHead()
      requires Valid(Model()) && producer.PushCopying? && producer.copied == width
      modifies this`producer, this`head, this`pushed
      ensures Model() == Next(old(Model()), PushPublish) && Valid(Model())
    {
      StepKeepsValid(Model(), PushPublish);
      hide Valid;
      pushed := pushed + [producer.item];
      head := Cell(producer.head + 1, capacity);
      producer := PushIdle;
    }

    method BeginPop(peek: bool)
      requires Valid(Model()) && consumer.PopIdle?
      modifies this`consumer
      ensures Model() == Next(old(Model()), PopBegin(peek)) && Valid(Model())
    {
      StepKeepsValid(Model(), PopBegin(peek));
      consumer := PopLoaded(peek, tail);
    }

    method LoadHead() returns (empty: bool)
      requires Valid(Model()) && consumer.PopLoaded?
      modifies this`consumer
      ensures Model() == Next(old(Model()), PopLoadHead) && Valid(Model())
      ensures empty == (|pushed| == |popped|)
    {
      StepKeepsValid(Model(), PopLoadHead);
      RefusalsAreExact(Model());
      hide Valid, Cell;
      empty := consumer.tail == head;
      consumer := if empty then PopIdle else PopCopying(consumer.peek, consumer.tail, []);
    }

    method CopyOut()
      requires Valid(Model()) && consumer.PopCopying? && |consumer.words| < width
      modifies this`consumer
      ensures Model() == Next(old(Model()), PopCopyWord) && Valid(Model())
    {
      StepKeepsValid(Model(), PopCopyWord);
      consumer := consumer.(words := consumer.words + [buffer[consumer.tail][|consumer.words|]]);
      hide Valid;
    }

    method PublishTail() returns (item: seq<W>)
      requires Valid(Model()) && consumer.PopCopying? && |consumer.words| == width
      modifies this`consumer, this`tail, this`popped
      ensures Model() == Next(old(Model()), PopFinish) && Valid(Model())
      ensures |old(popped)| < |pushed| && item == pushed[|old(popped)|]
      ensures popped == if old(consumer).peek then old(popped) else old(popped) + [item]
    {
      StepKeepsValid(Model(), PopFinish);
      FinishedReadIsTheFront(Model());
      hide Valid, Cell;
      item := consumer.words;
      if !consumer.peek {
        tail := Cell(consumer.tail + 1, capacity);
        popped := popped + [item];
      }
      consumer := PopIdle;
    }
  }
}
