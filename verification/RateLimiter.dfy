/** The order rate limit of the risk checker: a counter per one-second window that the first check after its end reopens
    (src/risk/risk_checker.cpp). */
module RateLimiter {
  import opened Integers

  const SECOND: nat := 1_000_000_000

  /** The start of the current window, zero before the first, and the checks counted in it. */
  datatype Limiter = Limiter(start: uint64, count: uint32)

  datatype Verdict = Verdict(limiter: Limiter, passes: bool)

  predicate Reopens(l: Limiter, now: uint64) {
    l.start == 0 || now < l.start || now - l.start >= SECOND
  }

  /** A check of a new order while the rule is enabled and the limit is not zero. */
  function Check(l: Limiter, max: uint32, now: uint64): Verdict {
    var l0 := if Reopens(l, now) then Limiter(now, 0) else l;
    var count := Following(l0.count);
    Verdict(l0.(count := count), count <= max)
  }

  const FRESH: Limiter := Limiter(0, 0)

  ghost function After(max: uint32, times: seq<uint64>): Limiter {
    if times == [] then FRESH else Check(After(max, times[..|times| - 1]), max, times[|times| - 1]).limiter
  }

  /** Whether check number k passes. */
  ghost predicate Passes(max: uint32, times: seq<uint64>, k: nat)
    requires k < |times|
  {
    Check(After(max, times[..k]), max, times[k]).passes
  }

  // ---------- Windows, without a counter ----------

  /** The check that opened the window of check k: windows last a second, and the next check after the end
      opens another. */
  ghost function Opener(times: seq<uint64>, k: nat): (o: nat)
    requires k < |times|
    ensures o <= k
  {
    if k == 0 then 0
    else
      var o := Opener(times, k - 1);
      if times[k] as int - times[o] >= SECOND then k else o
  }

  /** The clock starts above zero and does not go back. */
  ghost predicate Timed(times: seq<uint64>) {
    && (forall i :: 0 <= i < |times| ==> times[i] > 0)
    && (forall i, j :: 0 <= i <= j < |times| ==> times[i] <= times[j])
  }

  lemma {:induction false} OpenerIsRecent(times: seq<uint64>, k: nat)
    requires Timed(times) && k < |times|
    ensures 0 <= times[k] as int - times[Opener(times, k)] < SECOND
    ensures 0 < times[Opener(times, k)] && (k > 0 ==> times[k - 1] <= times[k])
    ensures k > 0 && Opener(times, k) < k ==> Opener(times, k) == Opener(times, k - 1)
    decreases k
  {
    if k > 0 {
      OpenerIsRecent(times, k - 1);
    }
  }

  /** What the 32-bit counter shows after n checks of one window. */
  function Shown(n: nat): uint32 {
    n % (U32_MAX + 1)
  }

  lemma ShownCounts(n: nat)
    ensures Following(Shown(n)) == Shown(n + 1)
    ensures n <= U32_MAX ==> Shown(n) == n
    ensures n == U32_MAX + 1 ==> Shown(n) == 0
  {
  }

  /** The counter counts the checks of its window, modulo 2^32, and the limit is compared with what it shows. */
  lemma {:induction false} CounterCountsWindow(max: uint32, times: seq<uint64>, k: nat)
    requires Timed(times) && k < |times|
    ensures After(max, times[..k + 1]) == Limiter(times[Opener(times, k)], Shown(k - Opener(times, k) + 1))
    ensures Passes(max, times, k) <==> Shown(k - Opener(times, k) + 1) <= max
    decreases k
  {
    hide Timed, Shown;
    ShownCounts(0);
    ShownCounts(k - Opener(times, k));
    assert times[..k + 1][..k] == times[..k];
    OpenerIsRecent(times, k);
    if k > 0 {
      CounterCountsWindow(max, times, k - 1);
      OpenerIsRecent(times, k - 1);
      hide Passes;
      var l := After(max, times[..k]);
      assert Reopens(l, times[k]) <==> Opener(times, k) == k;
      assert Passes(max, times, k) == Check(l, max, times[k]).passes by {
        PassesIsCheck(max, times, k);
      }
    } else {
      assert times[..0] == [];
    }
  }

  lemma PassesIsCheck(max: uint32, times: seq<uint64>, k: nat)
    requires k < |times|
    ensures Passes(max, times, k) == Check(After(max, times[..k]), max, times[k]).passes
  {
    hide After, Check;
  }

  // ---------- One window ----------

  /** How many of the first n checks fall into the window that check o opened. */
  ghost function InWindow(times: seq<uint64>, o: nat, n: nat): nat
    requires n <= |times|
  {
    if n == 0 then 0 else InWindow(times, o, n - 1) + (if Opener(times, n - 1) == o then 1 else 0)
  }

  /** How many of the first n checks pass in the window that check o opened. */
  ghost function PassedInWindow(max: uint32, times: seq<uint64>, o: nat, n: nat): nat
    requires n <= |times|
  {
    if n == 0 then 0
    else
      PassedInWindow(max, times, o, n - 1)
      + (if Opener(times, n - 1) == o && Passes(max, times, n - 1) then 1 else 0)
  }

  /** How many of the first n checks of a window pass. */
  ghost function PassedOf(max: uint32, n: nat): nat {
    if n == 0 then 0 else PassedOf(max, n - 1) + (if Shown(n) <= max then 1 else 0)
  }

  /** The checks of a window follow one another. */
  lemma {:induction false} WindowIsUnbroken(times: seq<uint64>, o: nat, n: nat)
    requires Timed(times) && n <= |times|
    ensures n <= o ==> InWindow(times, o, n) == 0
    ensures 0 < n && Opener(times, n - 1) == o ==> InWindow(times, o, n) == n - o
    decreases n
  {
    if n > 0 {
      WindowIsUnbroken(times, o, n - 1);
      OpenerIsRecent(times, n - 1);
    }
  }

  lemma {:induction false} PassedByCount(max: uint32, times: seq<uint64>, o: nat, n: nat)
    requires Timed(times) && n <= |times|
    ensures PassedInWindow(max, times, o, n) == PassedOf(max, InWindow(times, o, n))
    decreases n
  {
    hide Passes, Timed, Shown, Opener;
    if n > 0 {
      PassedByCount(max, times, o, n - 1);
      if Opener(times, n - 1) == o {
        LastOfWindow(max, times, o, n);
      }
    }
  }

  lemma LastOfWindow(max: uint32, times: seq<uint64>, o: nat, n: nat)
    requires Timed(times) && 0 < n <= |times| && Opener(times, n - 1) == o
    ensures Passes(max, times, n - 1) <==> Shown(InWindow(times, o, n)) <= max
  {
    hide Passes, Timed, Shown, Opener, InWindow;
    CounterCountsWindow(max, times, n - 1);
    WindowIsUnbroken(times, o, n);
  }

  lemma {:induction false} LimitHoldsUntilWrap(max: uint32, n: nat)
    ensures n <= U32_MAX ==> PassedOf(max, n) == Min(n, max)
    ensures n > U32_MAX ==> PassedOf(max, n) > max
    decreases n
  {
    hide Shown;
    if n > 0 {
      ShownCounts(n);
      LimitHoldsUntilWrap(max, n - 1);
    }
  }

  /** Main result: no more than the limit pass in a window the rule opens, exactly as long as the window gets fewer than
      2^32 checks; then the counter shows zero again. */
  lemma WindowBoundExactly(max: uint32, times: seq<uint64>, o: nat)
    requires Timed(times)
    ensures PassedInWindow(max, times, o, |times|) <= max <==> InWindow(times, o, |times|) <= U32_MAX
  {
    PassedByCount(max, times, o, |times|);
    LimitHoldsUntilWrap(max, InWindow(times, o, |times|));
  }

  // ---------- The bound ----------

  /** How many of the first n checks pass and fall into the second that begins at t. */
  ghost function PassedWithin(max: uint32, times: seq<uint64>, t: nat, n: nat): nat
    requires n <= |times|
  {
    if n == 0 then 0
    else
      PassedWithin(max, times, t, n - 1)
      + (if t <= times[n - 1] < t + SECOND && Passes(max, times, n - 1) then 1 else 0)
  }

  /** No window gets so many checks that its counter wraps. */
  ghost predicate Short(times: seq<uint64>) {
    forall k :: 0 <= k < |times| ==> k - Opener(times, k) < U32_MAX
  }

  lemma {:induction false} InWindowGrows(times: seq<uint64>, o: nat, m: nat, n: nat)
    requires m <= n <= |times|
    ensures InWindow(times, o, m) <= InWindow(times, o, n)
    decreases n
  {
    if m < n {
      InWindowGrows(times, o, m, n - 1);
    }
  }

  lemma FewChecksAreShort(times: seq<uint64>)
    requires Timed(times) && forall o :: InWindow(times, o, |times|) <= U32_MAX
    ensures Short(times)
  {
    hide Timed, InWindow, Opener;
    forall k | 0 <= k < |times| ensures k - Opener(times, k) < U32_MAX {
      WindowIsUnbroken(times, Opener(times, k), k + 1);
      InWindowGrows(times, Opener(times, k), k + 1, |times|);
    }
  }

  /** The bound after n checks, by where the last one and the opener of its window lie. */
  ghost predicate BoundAfter(max: uint32, times: seq<uint64>, t: nat, n: nat)
    requires 0 < max && n <= |times|
  {
    var c := PassedWithin(max, times, t, n);
    if n == 0 || times[n - 1] < t then c == 0
    else if times[n - 1] >= t + SECOND then c <= 2 * max - 1
    else
      var o := Opener(times, n - 1);
      if times[o] < t then c <= Min(n - 1 - o, max - 1)
      else c <= max - 1 + Min(n - o, max)
  }

  lemma BoundStep(max: uint32, times: seq<uint64>, t: nat, n: nat)
    requires Timed(times) && Short(times) && 0 < max && n < |times| && BoundAfter(max, times, t, n)
    ensures BoundAfter(max, times, t, n + 1)
  {
    hide Passes, Timed, Shown;
    ShownCounts(n - Opener(times, n) + 1);
    CounterCountsWindow(max, times, n);
    OpenerIsRecent(times, n);
    if n > 0 {
      OpenerIsRecent(times, n - 1);
    }
  }

  lemma {:induction false} BoundHolds(max: uint32, times: seq<uint64>, t: nat, n: nat)
    requires Timed(times) && Short(times) && 0 < max && n <= |times|
    ensures BoundAfter(max, times, t, n)
    decreases n
  {
    hide BoundAfter, Timed, Short;
    if n == 0 {
      NoneAfterNothing(max, times, t);
    } else {
      BoundHolds(max, times, t, n - 1);
      BoundStep(max, times, t, n - 1);
    }
  }

  lemma NoneAfterNothing(max: uint32, times: seq<uint64>, t: nat)
    requires 0 < max
    ensures BoundAfter(max, times, t, 0)
  {
  }

  /** Main result: however the checks are timed, fewer than twice the limit pass in any second, unless some window gets
      2^32 checks or more. */
  lemma FewerThanTwiceTheLimit(max: uint32, times: seq<uint64>, t: nat)
    requires Timed(times) && 0 < max && forall o :: InWindow(times, o, |times|) <= U32_MAX
    ensures PassedWithin(max, times, t, |times|) <= 2 * max - 1
  {
    FewChecksAreShort(times);
    BoundHolds(max, times, t, |times|);
    if |times| > 0 {
      OpenerIsRecent(times, |times| - 1);
    }
    hide Passes, Timed, PassedWithin, Opener;
  }

  // ---------- The bound is reached ----------

  /** One check opens a window, the limit fills up just before its end, and the next window fills up just after. */
  ghost function Burst(max: uint32): (times: seq<uint64>)
    ensures |times| == 2 * max
    ensures forall k :: 0 <= k < |times| ==> times[k] == (if k == 0 then 1 else if k < max then SECOND else SECOND + 1)
  {
    seq(2 * max, k => if k == 0 then 1 else if k < max then SECOND else SECOND + 1)
  }

  lemma {:induction false} BurstOpeners(max: uint32, k: nat)
    requires 0 < max && k < 2 * max
    ensures Opener(Burst(max), k) == if k < max then 0 else max
    decreases k
  {
    if k > 0 {
      BurstOpeners(max, k - 1);
    }
  }

  lemma BurstPasses(max: uint32, k: nat)
    requires 0 < max && k < 2 * max
    ensures Passes(max, Burst(max), k)
  {
    hide Passes, Shown, Timed;
    BurstIsTimed(max);
    BurstOpeners(max, k);
    ShownCounts(k - Opener(Burst(max), k) + 1);
    CounterCountsWindow(max, Burst(max), k);
  }

  lemma {:induction false} BurstCounts(max: uint32, n: nat)
    requires 0 < max && n <= 2 * max
    ensures PassedWithin(max, Burst(max), SECOND, n) == if n == 0 then 0 else n - 1
    decreases n
  {
    hide Passes;
    if n > 0 {
      BurstCounts(max, n - 1);
      BurstPasses(max, n - 1);
    }
  }

  lemma BurstIsTimed(max: uint32)
    requires 0 < max
    ensures Timed(Burst(max))
  {
  }

  lemma BurstIsShort(max: uint32, o: nat)
    requires 0 < max
    ensures InWindow(Burst(max), o, |Burst(max)|) <= U32_MAX
  {
    hide InWindow, Opener;
    BurstWindows(max, o, 2 * max);
  }

  lemma {:induction false} BurstWindows(max: uint32, o: nat, n: nat)
    requires 0 < max && n <= 2 * max
    ensures InWindow(Burst(max), o, n) == if o == 0 then Min(n, max) else if o == max && n > max then n - max else 0
    decreases n
  {
    if n > 0 {
      BurstWindows(max, o, n - 1);
      BurstOpeners(max, n - 1);
      hide Opener;
    }
  }

  /** For every limit there are checks, with no window of 2^32, of which one less than twice the limit pass in
      one second. */
  lemma BoundIsReached(max: uint32)
    requires 0 < max
    ensures Timed(Burst(max)) && forall o :: InWindow(Burst(max), o, |Burst(max)|) <= U32_MAX
    ensures PassedWithin(max, Burst(max), SECOND, |Burst(max)|) == 2 * max - 1
  {
    hide InWindow, PassedWithin, Timed;
    BurstIsTimed(max);
    BurstCounts(max, 2 * max);
    forall o: nat ensures InWindow(Burst(max), o, |Burst(max)|) <= U32_MAX {
      BurstIsShort(max, o);
    }
  }

  /** The wrap happens: of 2^32 checks in one window, one more than the limit pass. */
  lemma WrapLetsMoreThrough(max: uint32, times: seq<uint64>)
    requires |times| == U32_MAX + 1 && forall k :: 0 <= k < |times| ==> times[k] == SECOND
    ensures PassedInWindow(max, times, 0, |times|) == max + 1
  {
    AllInOneWindow(times, |times|);
    PassedByCount(max, times, 0, |times|);
    LimitHoldsUntilWrap(max, U32_MAX);
  }

  lemma {:induction false} AllInOneWindow(times: seq<uint64>, n: nat)
    requires n <= |times| && forall k :: 0 <= k < |times| ==> times[k] == SECOND
    ensures InWindow(times, 0, n) == n && (n > 0 ==> Opener(times, n - 1) == 0)
    decreases n
  {
    if n > 0 {
      AllInOneWindow(times, n - 1);
    }
  }

  // ---------- The rule ----------

  class RateLimitRule {
    var maxOrdersPerSecond: uint32
    var enabled: bool
    var currentSecondStart: uint64
    var currentSecondCount: uint32

    ghost function Model(): Limiter
      reads this
    {
      Limiter(currentSecondStart, currentSecondCount)
    }

    constructor (maxOrdersPerSecond: uint32)
      ensures Model() == FRESH && enabled && this.maxOrdersPerSecond == maxOrdersPerSecond
    {
      this.maxOrdersPerSecond, enabled, currentSecondStart, currentSecondCount := maxOrdersPerSecond, true, 0, 0;
    }

    /** Checks an order; orders that are not new, a disabled rule and a limit of zero pass without being counted. */
    method CheckOrder(isNew: bool, now: uint64) returns (passes: bool)
      modifies this`currentSecondStart, this`currentSecondCount
      ensures if enabled && isNew && maxOrdersPerSecond != 0
              then Verdict(Model(), passes) == Check(old(Model()), maxOrdersPerSecond, now)
              else passes && Model() == old(Model())
    {
      if !enabled || !isNew || maxOrdersPerSecond == 0 {
        return true;
      }
      if currentSecondStart == 0 || now < currentSecondStart || now - currentSecondStart >= SECOND {
        currentSecondStart := now;
        currentSecondCount := 0;
      }
      currentSecondCount := Following(currentSecondCount);
      passes := currentSecondCount <= maxOrdersPerSecond;
    }
  }
}
