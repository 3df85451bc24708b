/** The slice plan of a TWAP parent order (src/execution/execution_engine.cpp). */
module TwapPlan {
  import opened Integers
  import opened Sums

  datatype SplitConfig = SplitConfig(maxChildVolume: uint64, minChildVolume: uint64, maxChildCount: uint32,
                                     intervalMs: uint32)

  /** The volume of one clip: the maximum child volume, or else the minimum one, and never zero. */
  function ResolveClipVolume(config: SplitConfig): uint64 {
    if config.maxChildVolume != 0 then config.maxChildVolume else Max(config.minChildVolume, 1)
  }

  /** A clip is the configured maximum where there is one, else the minimum where there is one, else a single unit. */
  lemma ClipIsConfigured(config: SplitConfig)
    ensures config.maxChildVolume > 0 ==> ResolveClipVolume(config) == config.maxChildVolume
    ensures config.maxChildVolume == 0 && config.minChildVolume > 0 ==>
            ResolveClipVolume(config) == config.minChildVolume
    ensures config.maxChildVolume == 0 && config.minChildVolume == 0 ==> ResolveClipVolume(config) == 1
  {
  }

  // ---------- Multiplication and division behind names, so that proofs can keep them folded ----------

  function Mul(a: nat, b: nat): nat { a * b }

  function Div(a: nat, b: nat): nat
    requires b > 0
  {
    a / b
  }

  function Mod(a: nat, b: nat): nat
    requires b > 0
  {
    a % b
  }

  lemma DivMod(a: nat, b: nat)
    requires b > 0
    ensures a == Mul(b, Div(a, b)) + Mod(a, b) && Mod(a, b) < b
  {
  }

  lemma MulFacts(a: nat, n: nat)
    ensures Mul(a, n) == Mul(n, a)
    ensures Mul(a, 0) == 0 && Mul(a, 1) == a
    ensures Mul(a, n + 1) == Mul(a, n) + a
  {
  }

  lemma MulMonotone(c: nat, a: nat, b: nat)
    requires a <= b
    ensures Mul(c, a) <= Mul(c, b)
  {
  }

  // ---------- How many slices ----------

  /** The number of clips a volume is made of, counted without overflow. */
  function CeilDiv(volume: nat, clip: nat): nat
    requires clip > 0
  {
    Div(volume + clip - 1, clip)
  }

  /** The child count the plan computes: the division is exact 64-bit arithmetic, so the rounding term can wrap. */
  function PlannedCount(volume: uint64, clip: uint64, maxCount: uint32): nat
    requires clip > 0
  {
    Min(Max(Div(WrapAdd(volume, clip - 1), clip), 1), maxCount)
  }

  ghost predicate Even(slices: seq<uint64>) {
    forall i, j :: 0 <= i < |slices| && 0 <= j < |slices| ==> slices[i] as int - slices[j] <= 1
  }

  ghost predicate AllPositive(slices: seq<uint64>) {
    forall i :: 0 <= i < |slices| ==> slices[i] > 0
  }

  lemma CeilDivBounds(volume: nat, clip: nat)
    requires clip > 0
    ensures volume <= Mul(clip, CeilDiv(volume, clip)) < volume + clip
    ensures volume > 0 ==> 1 <= CeilDiv(volume, clip) <= volume
    ensures CeilDiv(volume, clip) <= 1 <==> volume <= clip
  {
    hide Mul, Div, Mod;
    var q := CeilDiv(volume, clip);
    DivMod(volume + clip - 1, clip);
    MulFacts(clip, 1);
    MulFacts(clip, q);
    MulFacts(q, 1);
    if q > volume {
      MulMonotone(clip, volume + 1, q);
      MulFacts(clip, volume);
      MulMonotone(volume, 1, clip);
      MulFacts(volume, 1);
    }
    if q >= 2 {
      MulMonotone(clip, 2, q);
    }
  }

  /** Once the rounding term wraps, the quotient is zero and the plan falls back to a single slice. */
  lemma WrappedCountIsOne(volume: uint64, clip: uint64, maxCount: uint32)
    requires clip > 0 && maxCount > 0
    requires volume + clip - 1 > U64_MAX
    ensures PlannedCount(volume, clip, maxCount) == 1
  {
    hide Mul, Div, Mod;
    var wrapped := WrapAdd(volume, clip - 1);
    DivMod(wrapped, clip);
    if Div(wrapped, clip) >= 1 {
      MulMonotone(clip, 1, Div(wrapped, clip));
      MulFacts(clip, 1);
    }
  }

  /** The plan has the documented number of slices, min(ceil(volume / clip), maxCount), except when the rounding
      term wraps around 64 bits and more than one slice was called for. */
  lemma PlannedCountIsCeiling(volume: uint64, clip: uint64, maxCount: uint32)
    requires volume > 0 && clip > 0 && maxCount > 0
    ensures PlannedCount(volume, clip, maxCount) == Min(CeilDiv(volume, clip), maxCount)
            <==> volume + clip - 1 <= U64_MAX || volume <= clip || maxCount == 1
    ensures 1 <= PlannedCount(volume, clip, maxCount) <= volume
  {
    hide Mul, Div, Mod;
    CeilDivBounds(volume, clip);
    if volume + clip - 1 > U64_MAX {
      WrappedCountIsOne(volume, clip, maxCount);
    }
  }

  /** The wrap is within reach: a volume of 2^64 - 1, in clips of 2 and with up to 100 children, is planned as
      one slice. */
  lemma HugeVolumeIsOneSlice(slices: seq<uint64>)
    requires |slices| == PlannedCount(U64_MAX, 2, 100) && SeqSum(slices) == U64_MAX
    ensures slices == [U64_MAX] && CeilDiv(U64_MAX, 2) > 100
  {
    WrappedCountIsOne(U64_MAX, 2, 100);
    SeqSumSmall(slices);
  }

  // ---------- How long they are ----------

  /** The length of slice `i` of `count`: the quotient, and one more for the first slices while the remainder lasts. */
  function SliceLength(volume: nat, count: nat, i: nat): nat
    requires count > 0
  {
    Div(volume, count) + (if i < Mod(volume, count) then 1 else 0)
  }

  lemma SliceBounds(volume: nat, count: nat)
    requires 0 < count <= volume
    ensures forall i: nat :: 0 < SliceLength(volume, count, i) <= volume
  {
    hide Mul, Div, Mod;
    DivMod(volume, count);
    var base := Div(volume, count);
    MulFacts(count, base);
    if base > 0 {
      MulMonotone(base, 1, count);
      MulFacts(base, 1);
    }
  }

  /** When nothing was cut off, every slice stays within a clip. */
  lemma SlicesWithinClip(volume: nat, clip: nat, count: nat)
    requires clip > 0 && 0 < count && CeilDiv(volume, clip) <= count
    ensures forall i: nat :: SliceLength(volume, count, i) <= clip
  {
    hide Mul, Div, Mod;
    CeilDivBounds(volume, clip);
    DivMod(volume, count);
    MulMonotone(clip, CeilDiv(volume, clip), count);
    MulFacts(clip, count);
    MulFacts(count, clip);
    var base := Div(volume, count);
    if base > clip {
      MulMonotone(count, clip + 1, base);
    }
  }

  /** When the count was cut off below the number of clips, the first slice is larger than a clip. */
  lemma CutOffExceedsClip(volume: nat, clip: nat, count: nat)
    requires clip > 0 && 0 < count < CeilDiv(volume, clip)
    ensures SliceLength(volume, count, 0) > clip
  {
    hide Mul, Div, Mod;
    CeilDivBounds(volume, clip);
    DivMod(volume, count);
    MulMonotone(clip, count + 1, CeilDiv(volume, clip));
    MulFacts(clip, count);
    MulFacts(count, clip);
    var base := Div(volume, count);
    MulFacts(count, base);
    if SliceLength(volume, count, 0) <= clip {
      MulMonotone(count, SliceLength(volume, count, 0), clip);
    }
  }

  /** Splits a parent volume into slices. */
  method BuildSlicePlan(volume: uint64, config: SplitConfig) returns (ok: bool, slices: seq<uint64>)
    ensures ok <==> volume != 0 && config.maxChildCount != 0
    ensures !ok ==> slices == []
    ensures ok ==> |slices| == PlannedCount(volume, ResolveClipVolume(config), config.maxChildCount)
    ensures ok ==> SeqSum(slices) == volume && AllPositive(slices) && Even(slices)
    ensures ok ==> ((forall i :: 0 <= i < |slices| ==> slices[i] <= ResolveClipVolume(config))
                    <==> CeilDiv(volume, ResolveClipVolume(config)) <= |slices|)
  {
    hide Mul, Div, Mod;
    slices := [];
    if volume == 0 || config.maxChildCount == 0 {
      return false, slices;
    }
    var clip := ResolveClipVolume(config);
    var count := PlannedCount(volume, clip, config.maxChildCount);
    PlannedCountIsCeiling(volume, clip, config.maxChildCount);
    slices := FillSlices(volume, count);
    if CeilDiv(volume, clip) <= count {
      SlicesWithinClip(volume, clip, count);
    } else {
      CutOffExceedsClip(volume, clip, count);
    }
    ok := true;
  }

  /** The filling loop: `count` slices of the quotient, the first ones one unit longer to use up the remainder. */
  method FillSlices(volume: uint64, count: nat) returns (slices: seq<uint64>)
    requires 0 < count <= volume
    ensures |slices| == count && SeqSum(slices) == volume && AllPositive(slices) && Even(slices)
    ensures forall i :: 0 <= i < count ==> slices[i] == SliceLength(volume, count, i)
  {
    hide Mul, Div, Mod, SeqSum;
    slices := [];
    var base := Div(volume, count);
    var remainder := Mod(volume, count);
    ghost var extra := remainder;
    DivMod(volume, count);
    MulFacts(count, base);
    MulFacts(base, 0);
    SliceBounds(volume, count);
    SeqSumEmpty();
    for i := 0 to count
      invariant |slices| == i
      invariant remainder == if i < extra then extra - i else 0
      invariant forall j :: 0 <= j < i ==> slices[j] == SliceLength(volume, count, j)
      invariant SeqSum(slices) + remainder == Mul(base, i) + extra
    {
      assert SliceLength(volume, count, i) == base + (if i < extra then 1 else 0);
      var slice := base;
      if remainder > 0 {
        slice := slice + 1;
        remainder := remainder - 1;
      }
      MulFacts(base, i);
      if slice > 0 {
        SeqSumAppend(slices, slice);
        slices := slices + [slice];
      }
    }
  }
}
