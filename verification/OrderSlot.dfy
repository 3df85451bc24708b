/** An order slot under its sequence-lock protocol (src/shm/orders_shm.hpp): one writer at a time, which may die
    between any two stores and be replaced, against a reader that copies word by word and retries. Memory is
    sequentially consistent. */
module OrderSlot {
  import opened Integers

  const READ_ATTEMPTS: nat := 32

  predicate Odd(n: nat) { n % 2 == 1 }

  /** What a reader returns, and what a writer publishes: the sequence number and all words of the slot under it. */
  datatype Snapshot<W> = Snapshot(seqNo: uint64, words: seq<W>)

  datatype Writer =
    | WriterAbsent
    | WriterLoaded(seqNo: uint64)
    | WriterWriting(seqNo: uint64)

  datatype Reader<W> =
    | ReaderIdle
    | ReaderTrying(attempt: nat)
    | ReaderCopying(attempt: nat, seqNo: uint64, words: seq<W>)

  datatype Slot<W> = Slot(
    seqNo: uint64, words: seq<W>, writer: Writer, reader: Reader<W>,
    published: seq<Snapshot<W>>, returned: seq<Snapshot<W>>)

  datatype Step<W> =
    | WriterLoads
    | WriterStoresOdd
    | WriterStoresWord(index: nat, word: W)
    | WriterPublishes
    | WriterDies
    | ReaderCalls
    | ReaderLoads
    | ReaderCopiesWord
    | ReaderChecks

  /** A slot as the pool is created: sequence number zero, which readers take for a publication. */
  function Fresh<W>(words: seq<W>): Slot<W> {
    Slot(0, words, WriterAbsent, ReaderIdle, [Snapshot(0, words)], [])
  }

  function Retry<W>(attempt: nat): Reader<W> {
    if attempt + 1 < READ_ATTEMPTS then ReaderTrying(attempt + 1) else ReaderIdle
  }

  /** One atomic step; a step that its side is not about to take changes nothing. */
  function Next<W>(s: Slot<W>, step: Step<W>): Slot<W> {
    match step
    case WriterLoads =>
      if s.writer.WriterAbsent? then
        s.(writer := WriterLoaded(if Odd(s.seqNo) then WrapAdd(s.seqNo, 1) else s.seqNo))
      else s
    case WriterStoresOdd =>
      if s.writer.WriterLoaded? then
        s.(seqNo := WrapAdd(s.writer.seqNo, 1), writer := WriterWriting(s.writer.seqNo))
      else s
    case WriterStoresWord(index, word) =>
      if s.writer.WriterWriting? && index < |s.words| then s.(words := s.words[index := word]) else s
    case WriterPublishes =>
      if s.writer.WriterWriting? then
        var n := WrapAdd(s.writer.seqNo, 2);
        s.(seqNo := n, writer := WriterAbsent, published := s.published + [Snapshot(n, s.words)])
      else s
    case WriterDies => s.(writer := WriterAbsent)
    case ReaderCalls => if s.reader.ReaderIdle? then s.(reader := ReaderTrying(0)) else s
    case ReaderLoads =>
      if !s.reader.ReaderTrying? then s
      else if Odd(s.seqNo) then s.(reader := Retry(s.reader.attempt))
      else s.(reader := ReaderCopying(s.reader.attempt, s.seqNo, []))
    case ReaderCopiesWord =>
      if s.reader.ReaderCopying? && |s.reader.words| < |s.words| then
        s.(reader := s.reader.(words := s.reader.words + [s.words[|s.reader.words|]]))
      else s
    case ReaderChecks =>
      if !s.reader.ReaderCopying? || |s.reader.words| != |s.words| then s
      else if s.reader.seqNo == s.seqNo then
        s.(reader := ReaderIdle, returned := s.returned + [Snapshot(s.reader.seqNo, s.reader.words)])
      else s.(reader := Retry(s.reader.attempt))
  }

  // ---------- The invariant ----------

  /** Publications carry ever larger even sequence numbers. */
  ghost predicate EachPublishedOnce<W>(published: seq<Snapshot<W>>) {
    && (forall i :: 0 <= i < |published| ==> !Odd(published[i].seqNo))
    && (forall i, j :: 0 <= i < j < |published| ==> published[i].seqNo < published[j].seqNo)
  }

  /** Reads return publications, in the order of publication. */
  ghost predicate ReadsArePublications<W>(s: Slot<W>) {
    && (forall i :: 0 <= i < |s.returned| ==> s.returned[i] in s.published)
    && (forall i, j :: 0 <= i < j < |s.returned| ==> s.returned[i].seqNo <= s.returned[j].seqNo)
  }

  ghost predicate WriterOk<W>(s: Slot<W>) {
    match s.writer
    case WriterAbsent => true
    case WriterLoaded(n) => n == s.seqNo + (if Odd(s.seqNo) then 1 else 0)
    case WriterWriting(n) => !Odd(n) && s.seqNo == n + 1
  }

  ghost predicate ReaderOk<W>(s: Slot<W>) {
    s.reader.ReaderCopying? ==>
      && s.reader.seqNo <= s.seqNo && !Odd(s.reader.seqNo)
      && |s.reader.words| <= |s.words|
      && (s.reader.seqNo == s.seqNo ==> s.reader.words == s.words[..|s.reader.words|])
  }

  ghost predicate Valid<W>(s: Slot<W>) {
    && s.published != []
    && EachPublishedOnce(s.published) && ReadsArePublications(s)
    && s.published[|s.published| - 1].seqNo <= s.seqNo
    && (!Odd(s.seqNo) ==> s.published[|s.published| - 1] == Snapshot(s.seqNo, s.words))
    && (forall i :: 0 <= i < |s.returned| ==> s.returned[i].seqNo <= s.seqNo)
    && WriterOk(s) && ReaderOk(s)
  }

  lemma FreshIsValid<W>(words: seq<W>)
    ensures Valid(Fresh(words))
  {
  }

  /** A published slot is one a later publication leaves below it. */
  lemma PublishKeepsOrder<W>(published: seq<Snapshot<W>>, x: Snapshot<W>)
    requires published != [] && EachPublishedOnce(published)
    requires !Odd(x.seqNo) && published[|published| - 1].seqNo < x.seqNo
    ensures EachPublishedOnce(published + [x])
  {
    var n := |published| - 1;
    assert forall i :: 0 <= i < n ==> published[i].seqNo < published[n].seqNo;
  }

  lemma WriterStepKeepsValid<W>(s: Slot<W>, step: Step<W>)
    requires Valid(s) && s.seqNo + 3 <= U64_MAX
    requires step.WriterLoads? || step.WriterStoresOdd? || step.WriterStoresWord? || step.WriterPublishes?
             || step.WriterDies?
    ensures Valid(Next(s, step))
  {
    if step.WriterPublishes? && s.writer.WriterWriting? {
      PublishKeepsOrder(s.published, Snapshot(s.writer.seqNo + 2, s.words));
      hide EachPublishedOnce;
      assert forall x :: x in s.published ==> x in Next(s, step).published;
    }
  }

  lemma ReaderStepKeepsValid<W>(s: Slot<W>, step: Step<W>)
    requires Valid(s)
    requires step.ReaderCalls? || step.ReaderLoads? || step.ReaderCopiesWord? || step.ReaderChecks?
    ensures Valid(Next(s, step))
    ensures Next(s, step).returned == s.returned
            || Next(s, step).returned == s.returned + [s.published[|s.published| - 1]]
  {
    hide EachPublishedOnce;
    if step.ReaderChecks? && s.reader.ReaderCopying? && |s.reader.words| == |s.words| && s.reader.seqNo == s.seqNo {
      assert s.words[..|s.words|] == s.words;
      assert Snapshot(s.reader.seqNo, s.reader.words) == s.published[|s.published| - 1];
    }
  }

  lemma StepKeepsValid<W>(s: Slot<W>, step: Step<W>)
    requires Valid(s) && s.seqNo + 3 <= U64_MAX
    ensures Valid(Next(s, step))
    ensures Next(s, step).seqNo <= s.seqNo + 2
  {
    match step
    case WriterLoads | WriterStoresOdd | WriterStoresWord(_,
                                                          _) | WriterPublishes | WriterDies => WriterStepKeepsValid(s,
                                                            step);
    case ReaderCalls | ReaderLoads | ReaderCopiesWord | ReaderChecks => ReaderStepKeepsValid(s, step);
  }

  ghost function Run<W>(s: Slot<W>, steps: seq<Step<W>>): Slot<W>
    decreases |steps|
  {
    if steps == [] then s else Run(Next(s, steps[0]), steps[1..])
  }

  lemma {:induction false} RunKeepsValid<W>(s: Slot<W>, steps: seq<Step<W>>)
    requires Valid(s) && s.seqNo + 2 * |steps| + 3 <= U64_MAX
    ensures Valid(Run(s, steps))
    decreases |steps|
  {
    hide Valid, Next;
    if steps != [] {
      StepKeepsValid(s, steps[0]);
      RunKeepsValid(Next(s, steps[0]), steps[1..]);
    }
  }

  /** Main result: whatever the interleaving of a reader with a succession of writers that may die mid-write, each even
      sequence number is published at most once, every snapshot read is the slot's content at one publication, and
      successive reads never go back to an earlier one. The run is short enough for the sequence number not to wrap. */
  lemma EveryReadIsAPublication<W>(words: seq<W>, steps: seq<Step<W>>)
    requires |steps| < 0x4000_0000_0000_0000
    ensures var s := Run(Fresh(words), steps);
            EachPublishedOnce(s.published) && ReadsArePublications(s)
  {
    FreshIsValid(words);
    RunKeepsValid(Fresh(words), steps);
  }

  /** Publications are told apart by their sequence numbers, so reads follow the order of publication. */
  lemma ReadsFollowPublicationOrder<W>(s: Slot<W>, i: nat, j: nat, p: nat, q: nat)
    requires EachPublishedOnce(s.published) && ReadsArePublications(s)
    requires i < j < |s.returned| && p < |s.published| && q < |s.published|
    requires s.published[p].seqNo == s.returned[i].seqNo && s.published[q].seqNo == s.returned[j].seqNo
    ensures p <= q && s.published[p] == s.returned[i] && s.published[q] == s.returned[j]
  {
    var p' :| 0 <= p' < |s.published| && s.published[p'] == s.returned[i];
    var q' :| 0 <= q' < |s.published| && s.published[q'] == s.returned[j];
  }

  /** The repair of an odd sequence number: a successor of a writer that died mid-write publishes a number of
      its own. */
  lemma SuccessorSkipsTheDeadNumber<W>(s: Slot<W>)
    requires Odd(s.seqNo) && s.seqNo + 3 <= U64_MAX && s.writer.WriterAbsent?
    ensures var s' := Next(Next(Next(s, WriterLoads), WriterStoresOdd), WriterPublishes);
            s'.seqNo == s.seqNo + 3 && s'.published == s.published + [Snapshot(s.seqNo + 3, s.words)]
  {
  }

  // ---------- In place ----------

  class SharedSlot<W> {
    var seqNo: uint64
    const words: array<W>
    var writer: Writer
    var reader: Reader<W>
    ghost var published: seq<Snapshot<W>>
    ghost var returned: seq<Snapshot<W>>

    ghost function Model(): Slot<W>
      reads this, words
    {
      Slot(seqNo, words[..], writer, reader, published, returned)
    }

    constructor (words: array<W>)
      ensures this.words == words && Model() == Fresh(words[..]) && Valid(Model())
    {
      this.words := words;
      seqNo, writer, reader := 0, WriterAbsent, ReaderIdle;
      published, returned := [Snapshot(0, words[..])], [];
    }

    method LoadForWrite()
      requires Valid(Model()) && writer.WriterAbsent? && seqNo + 3 <= U64_MAX
      modifies this`writer
      ensures Model() == Next(old(Model()), WriterLoads) && Valid(Model())
    {
      StepKeepsValid(Model(), WriterLoads);
      var n := seqNo;
      if Odd(n) {
        n := WrapAdd(n, 1);
      }
      writer := WriterLoaded(n);
      hide Valid;
    }

    method StoreOdd()
      requires Valid(Model()) && writer.WriterLoaded? && seqNo + 3 <= U64_MAX
      modifies this`writer, this`seqNo
      ensures Model() == Next(old(Model()), WriterStoresOdd) && Valid(Model())
    {
      StepKeepsValid(Model(), WriterStoresOdd);
      hide Valid;
      seqNo := WrapAdd(writer.seqNo, 1);
      writer := WriterWriting(writer.seqNo);
    }

    method StoreWord(index: nat, word: W)
      requires Valid(Model()) && writer.WriterWriting? && index < words.Length && seqNo + 3 <= U64_MAX
      modifies words
      ensures Model() == Next(old(Model()), WriterStoresWord(index, word)) && Valid(Model())
    {
      StepKeepsValid(Model(), WriterStoresWord(index, word));
      hide Valid;
      words[index] := word;
    }

    method StorePublish()
      requires Valid(Model()) && writer.WriterWriting? && seqNo + 3 <= U64_MAX
      modifies this`writer, this`seqNo, this`published
      ensures Model() == Next(old(Model()), WriterPublishes) && Valid(Model())
    {
      StepKeepsValid(Model(), WriterPublishes);
      hide Valid;
      seqNo := WrapAdd(writer.seqNo, 2);
      published := published + [Snapshot(seqNo, words[..])];
      writer := WriterAbsent;
    }

    method LoadForRead()
      requires Valid(Model()) && reader.ReaderTrying?
      modifies this`reader
      ensures Model() == Next(old(Model()), ReaderLoads) && Valid(Model())
    {
      ReaderStepKeepsValid(Model(), ReaderLoads);
      hide Valid;
      reader := if Odd(seqNo) then Retry(reader.attempt) else ReaderCopying(reader.attempt, seqNo, []);
    }

    method CopyWord()
      requires Valid(Model()) && reader.ReaderCopying? && |reader.words| < words.Length
      modifies this`reader
      ensures Model() == Next(old(Model()), ReaderCopiesWord) && Valid(Model())
    {
      ReaderStepKeepsValid(Model(), ReaderCopiesWord);
      hide Valid;
      reader := reader.(words := reader.words + [words[|reader.words|]]);
    }

    method CheckAndReturn() returns (snapshot: seq<Snapshot<W>>)
      requires Valid(Model()) && reader.ReaderCopying? && |reader.words| == words.Length
      modifies this`reader, this`returned
      ensures Model() == Next(old(Model()), ReaderChecks) && Valid(Model())
      ensures returned == old(returned) + snapshot
      ensures forall x :: x in snapshot ==> x in published
    {
      ReaderStepKeepsValid(Model(), ReaderChecks);
      if reader.seqNo == seqNo {
        assert words[..words.Length] == words[..];
        assert published[|published| - 1] == Snapshot(reader.seqNo, reader.words);
        hide Valid;
        snapshot := [Snapshot(reader.seqNo, reader.words)];
        returned := returned + snapshot;
        reader := ReaderIdle;
      } else {
        hide Valid;
        snapshot := [];
        reader := Retry(reader.attempt);
      }
    }
  }
}
