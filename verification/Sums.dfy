/** Sums over finite maps and sequences, and the saturating accumulation loop that the service runs over them. */
module Sums {
  import opened Integers

  ghost function Sum<K>(m: map<K, nat>): nat
    decreases m.Keys
  {
    if m == map[] then 0
    else
      var k :| k in m;
      m[k] + Sum(m - {k})
  }

  /** The sum does not depend on the order in which the entries are taken. */
  lemma {:induction false} SumRemove<K>(m: map<K, nat>, k: K)
    requires k in m
    ensures Sum(m) == m[k] + Sum(m - {k})
    decreases m.Keys
  {
    var j :| j in m && Sum(m) == m[j] + Sum(m - {j});
    if j != k {
      SumRemove(m - {j}, k);
      SumRemove(m - {k}, j);
      assert m - {j} - {k} == m - {k} - {j};
    }
  }

  lemma SumUpdate<K>(m: map<K, nat>, k: K, v: nat)
    ensures Sum(m[k := v]) + (if k in m then m[k] else 0) == Sum(m) + v
  {
    SumRemove(m[k := v], k);
    assert m[k := v] - {k} == m - {k};
    if k in m {
      SumRemove(m, k);
    } else {
      assert m - {k} == m;
    }
  }

  lemma SumSingle<K>(m: map<K, nat>, k: K)
    requires m.Keys == {k}
    ensures Sum(m) == m[k]
  {
    SumRemove(m, k);
    assert (m - {k}).Keys == {};
  }

  lemma SumMember<K>(m: map<K, nat>, k: K)
    requires k in m
    ensures m[k] <= Sum(m)
  {
    SumRemove(m, k);
  }

  lemma {:induction false} SumPointwise<K>(a: map<K, nat>, b: map<K, nat>, c: map<K, nat>)
    requires a.Keys == b.Keys == c.Keys
    requires forall k :: k in a ==> c[k] == a[k] + b[k]
    ensures Sum(c) == Sum(a) + Sum(b)
    decreases a.Keys
  {
    if a == map[] {
      assert b == map[] && c == map[];
    } else {
      var k :| k in a;
      SumRemove(a, k);
      SumRemove(b, k);
      SumRemove(c, k);
      SumPointwise(a - {k}, b - {k}, c - {k});
    }
  }

  lemma {:induction false} SumMonotone<K>(a: map<K, nat>, b: map<K, nat>)
    requires a.Keys == b.Keys
    requires forall k :: k in a ==> a[k] <= b[k]
    ensures Sum(a) <= Sum(b)
    decreases a.Keys
  {
    if a != map[] {
      var k :| k in a;
      SumRemove(a, k);
      SumRemove(b, k);
      SumMonotone(a - {k}, b - {k});
    }
  }

  lemma {:induction false} SumZero<K>(m: map<K, nat>)
    ensures Sum(m) == 0 <==> forall k :: k in m ==> m[k] == 0
    decreases m.Keys
  {
    if m != map[] {
      var k :| k in m;
      SumRemove(m, k);
      SumZero(m - {k});
      if forall j :: j in m ==> m[j] == 0 {
        assert forall j :: j in m - {k} ==> (m - {k})[j] == 0;
      } else {
        var j :| j in m && m[j] != 0;
        SumMember(m, j);
      }
    }
  }

  /** The accumulation loop of the service: whichever entry comes next, saturating addition ends at the capped sum. */
  method SaturatingTotal<K>(m: map<K, uint64>) returns (total: uint64)
    ensures total == Cap(Sum(m))
  {
    total := 0;
    var todo := m;
    ghost var done: map<K, nat> := map[];
    while todo != map[]
      invariant todo.Keys !! done.Keys && todo.Keys + done.Keys == m.Keys
      invariant forall k :: k in todo ==> todo[k] == m[k]
      invariant forall k :: k in done ==> done[k] == m[k]
      invariant total == Cap(Sum(done))
      decreases todo.Keys
    {
      var k :| k in todo;
      SumUpdate(done, k, m[k]);
      total := SaturatingAdd(total, todo[k]);
      done := done[k := m[k]];
      todo := todo - {k};
    }
    assert done == m;
  }

  ghost function SeqSum(s: seq<nat>): nat {
    if s == [] then 0 else SeqSum(s[..|s| - 1]) + s[|s| - 1]
  }

  lemma SeqSumEmpty()
    ensures SeqSum([]) == 0
  {
  }

  lemma SeqSumAppend(s: seq<nat>, x: nat)
    ensures SeqSum(s + [x]) == SeqSum(s) + x
  {
    assert (s + [x])[..|s|] == s;
  }

  lemma SeqSumSmall(s: seq<nat>)
    ensures |s| == 1 ==> SeqSum(s) == s[0]
    ensures |s| == 2 ==> SeqSum(s) == s[0] + s[1]
  {
    if |s| == 1 {
      assert s[..0] == [];
    } else if |s| == 2 {
      assert s[..1][..0] == [] && s[..1][0] == s[0];
      assert SeqSum(s[..1]) == SeqSum(s[..1][..0]) + s[0];
    }
  }

  lemma {:induction false} SeqSumConcat(a: seq<nat>, b: seq<nat>)
    ensures SeqSum(a + b) == SeqSum(a) + SeqSum(b)
    decreases |b|
  {
    if b == [] {
      assert a + b == a;
    } else {
      var n := |b| - 1;
      assert (a + b)[..|a + b| - 1] == a + b[..n];
      SeqSumConcat(a, b[..n]);
    }
  }

  /** What the first `n` entries add up to, and what is left from entry `n` on, make the whole. */
  lemma SeqSumSplit(s: seq<nat>, n: nat)
    requires n <= |s|
    ensures SeqSum(s) == SeqSum(s[..n]) + SeqSum(s[n..])
    ensures n < |s| ==> SeqSum(s[..n + 1]) == SeqSum(s[..n]) + s[n] <= SeqSum(s)
  {
    assert s == s[..n] + s[n..];
    SeqSumConcat(s[..n], s[n..]);
    if n < |s| {
      assert s[..n + 1] == s[..n] + [s[n]];
      SeqSumAppend(s[..n], s[n]);
      assert s == s[..n + 1] + s[n + 1..];
      SeqSumConcat(s[..n + 1], s[n + 1..]);
    }
  }
}
