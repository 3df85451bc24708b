/** Runs from the start of a session in which what one would expect of it fails (src/execution/execution_engine.cpp). */
module ExecutionExceptions {
  import opened Integers
  import opened OrderTypes
  import opened Sums
  import opened TwapPlan
  import opened ExecutionModel
  import opened ExecutionConservation
  import opened ExecutionPacing

  /** A tick of a booked, uncancelled parent without market data, whose passive child is routed under an id. */
  function Plain(id: OrderId): Surroundings {
    Surroundings(true, {}, None, ActiveDecision(false, 0), None, Some(id))
  }

  function Fill(id: OrderId, volume: uint64): TradeResponse {
    TradeResponse(id, MarketAccepted, volume, 0, 0, 0)
  }

  const SESSION: Session := Start(10, 1, true, false)

  /** A session that started as SESSION did and now has these children; what it remembers and shows does not matter. */
  ghost predicate Has(s: Session, c: map<OrderId, Ledger>) {
    SameOrder(SESSION, s) && !s.failed && s.children == c
  }

  const SENT: Ledger := NewLedger(5, 1)
  const FILLED: Ledger := SENT.(traded := 5, state := MarketAccepted)
  const REOPENED: Ledger := SENT.(traded := 4, state := MarketAccepted)

  lemma RefreshedIsSame(s: Session, c: map<OrderId, Ledger>, id: OrderId)
    requires Has(s, c)
    ensures Has(Refresh(s, Plain(id)), c) && !Refresh(s, Plain(id)).cancelRequested
  {
    assert MarkCancels(c, {}) == c;
  }

  lemma NothingSentYet(s: Session)
    requires Has(s, map[])
    ensures WorkingVolume(s) == 0 && Schedulable(s) == 10
  {
    assert Open(map[]) == map[] && Traded(map[]) == map[];
  }

  lemma FirstIsSent(s: Session)
    requires Has(s, map[1 := SENT])
    ensures WorkingVolume(s) == 5
  {
    SumSingle(Open(s.children), 1);
    hide Sum;
  }

  lemma FirstIsFilled(s: Session)
    requires Has(s, map[1 := FILLED])
    ensures WorkingVolume(s) == 0 && Schedulable(s) == 5
  {
    SumSingle(Open(s.children), 1);
    SumSingle(Traded(s.children), 1);
    hide Sum;
  }

  lemma Filled(s: Session, c: map<OrderId, Ledger>)
    requires Has(s, c) && 1 in c
    ensures c[1] == SENT ==> Has(OnTradeResponse(s, Fill(1, 5)), c[1 := FILLED])
    ensures c[1] == FILLED ==> Has(OnTradeResponse(s, Fill(1, U64_MAX)), c[1 := REOPENED])
    ensures !Finalizes(s, Fill(1, 5)) && !Finalizes(s, Fill(1, U64_MAX))
  {
    hide WorkingVolume;
  }

  // ---------- Two children of a FixedSize or Iceberg session at work ----------

  /** An idle session without market data sends its budget. */
  lemma PlainTickSends(s: Session, c: map<OrderId, Ledger>, id: OrderId)
    requires Has(s, c) && WorkingVolume(s) == 0 && Schedulable(s) >= 5 && id !in c
    ensures Has(SequentialTick(s, 5, Plain(id)).session, c[id := SENT])
  {
    RefreshedIsSame(s, c, id);
    SameVolumes(s, Refresh(s, Plain(id)));
    hide WorkingVolume, Schedulable, ViewOf, Refresh, FinalizeIfIdle;
  }

  lemma SameVolumes(s: Session, s': Session)
    requires s'.children == s.children && SameOrder(s, s')
    ensures WorkingVolume(s') == WorkingVolume(s) && Schedulable(s') == Schedulable(s)
  {
  }

  lemma FirstTrades(s: Session)
    requires Has(s, map[1 := SENT])
    ensures Has(OnTradeResponse(s, Fill(1, 5)), map[1 := FILLED])
  {
    Filled(s, map[1 := SENT]);
    assert map[1 := SENT][1 := FILLED] == map[1 := FILLED];
    hide OnTradeResponse, Has;
  }

  lemma FirstClipIsSent()
    ensures Has(SequentialTick(SESSION, 5, Plain(1)).session, map[1 := SENT])
  {
    NothingSentYet(SESSION);
    PlainTickSends(SESSION, map[], 1);
    hide SequentialTick, WorkingVolume, Schedulable;
  }

  lemma SecondClipIsSent(s: Session)
    requires Has(s, map[1 := FILLED])
    ensures Has(SequentialTick(s, 5, Plain(2)).session, map[1 := FILLED, 2 := SENT])
  {
    FirstIsFilled(s);
    PlainTickSends(s, map[1 := FILLED], 2);
    hide SequentialTick, WorkingVolume, Schedulable, SENT, FILLED, Has;
    assert map[1 := FILLED][2 := SENT] == map[1 := FILLED, 2 := SENT];
  }

  lemma BothWork(s: Session)
    requires Has(s, map[1 := FILLED, 2 := SENT])
    ensures !OneWorking(OnTradeResponse(s, Fill(1, U64_MAX)))
  {
    Filled(s, map[1 := FILLED, 2 := SENT]);
    var s' := OnTradeResponse(s, Fill(1, U64_MAX));
    hide OnTradeResponse;
    assert Open(s'.children)[1] == 1 && Open(s'.children)[2] == 5;
  }

  /** A target of 10 in clips of 5: the first child trades in full, the second is sent, and then a report of 2^64 - 1 on
      the first child lets both work. */
  lemma TwoChildrenCanWork()
    ensures var run := [Tick(0, Plain(1)), Response(Fill(1, 5)), Tick(0, Plain(2)), Response(Fill(1, U64_MAX))];
            !OneWorking(RunSequential(SESSION, 5, run))
  {
    hide Has, SequentialTick, OnTradeResponse, OneWorking, Plain, Fill, SENT, FILLED, SESSION;
    FirstClipIsSent();
    var s1 := SequentialTick(SESSION, 5, Plain(1)).session;
    FirstTrades(s1);
    SecondClipIsSent(OnTradeResponse(s1, Fill(1, 5)));
    BothWork(SequentialTick(OnTradeResponse(s1, Fill(1, 5)), 5, Plain(2)).session);
    FourSteps(SESSION, Tick(0, Plain(1)), Response(Fill(1, 5)), Tick(0, Plain(2)), Response(Fill(1, U64_MAX)));
  }

  lemma FourSteps(s: Session, a: Event, b: Event, c: Event, d: Event)
    ensures RunSequential(s, 5, [a, b, c, d])
            == SequentialStep(SequentialStep(SequentialStep(SequentialStep(s, 5, a), 5, b), 5, c), 5, d)
  {
    hide SequentialStep;
    assert [a, b, c, d][1..] == [b, c, d] && [b, c, d][1..] == [c, d] && [c, d][1..] == [d] && [d][1..] == [];
    var s1 := SequentialStep(s, 5, a);
    var s2 := SequentialStep(s1, 5, b);
    assert RunSequential(s2, 5, [c, d]) == RunSequential(SequentialStep(s2, 5, c), 5, [d]);
    assert RunSequential(s1, 5, [b, c, d]) == RunSequential(s2, 5, [c, d]);
  }

  // ---------- A TWAP child at work under a slice that has not been started ----------

  ghost predicate TwapHas(t: Twap, c: map<OrderId, Ledger>, index: nat, consumed: bool) {
    && Has(t.base, c) && t.slices == [5, 5] && t.startNs == 0 && t.intervalNs == 1
    && t.index == index && t.consumed == consumed && t.deadlineNs == index
  }

  const TWAP: Twap := StartTwap(SESSION, [5, 5], 0, 1)

  lemma FirstSliceIsSent()
    ensures TwapHas(TwapTick(TWAP, 0, Plain(1)).twap, map[1 := SENT], 0, true)
  {
    RefreshedIsSame(SESSION, map[], 1);
    var t := TWAP.(base := Refresh(SESSION, Plain(1)));
    NothingSentYet(t.base);
    var r := TwapRelease(t, 0, 1, Plain(1));
    assert TwapHas(r.twap, map[1 := SENT], 0, true) by {
      hide Schedulable, WorkingVolume, ViewOf;
    }
    FirstIsSent(r.twap.base);
    hide Schedulable, WorkingVolume, ViewOf, TwapRelease;
  }

  /** A tick before the second deadline steps on to the second slice and sends nothing. */
  lemma SecondSliceWaits(t0: Twap)
    requires TwapHas(t0, map[1 := FILLED], 0, true)
    ensures TwapHas(TwapTick(t0, 0, Plain(2)).twap, map[1 := FILLED], 1, false)
  {
    RefreshedIsSame(t0.base, map[1 := FILLED], 2);
    var t1 := t0.(base := Refresh(t0.base, Plain(2)));
    FirstIsFilled(t1.base);
    var t := AdvanceSlice(t1);
    assert TwapHas(t, map[1 := FILLED], 1, false) by {
      hide WorkingVolume;
    }
    FirstIsFilled(t.base);
    hide Schedulable, WorkingVolume, ViewOf, AdvanceSlice;
    var r := TwapRelease(t, 0, 1, Plain(2));
    assert r == TwapTickResult(t, None);
    assert AdvanceSlice(t) == t by {
      NotConsumedStays(t);
    }
  }

  lemma NotConsumedStays(t: Twap)
    requires !t.consumed
    ensures AdvanceSlice(t) == t
  {
  }

  lemma FirstSliceTrades(t: Twap)
    requires TwapHas(t, map[1 := SENT], 0, true)
    ensures TwapHas(TwapOnTradeResponse(t, Fill(1, 5)), map[1 := FILLED], 0, true)
  {
    FirstTrades(t.base);
    Filled(t.base, map[1 := SENT]);
    hide OnTradeResponse, AdvanceSlice, Finalizes, Has;
  }

  lemma FirstWorksAgain(t: Twap)
    requires TwapHas(t, map[1 := FILLED], 1, false)
    ensures !IdleWhileUnconsumed(TwapOnTradeResponse(t, Fill(1, U64_MAX)))
  {
    Filled(t.base, map[1 := FILLED]);
    var s := OnTradeResponse(t.base, Fill(1, U64_MAX));
    assert Open(s.children)[1] == 1;
    IdleIsAllClosed(s);
    hide OnTradeResponse, AdvanceSlice, Finalizes, WorkingVolume;
  }

  /** Two slices of 5: the first child trades in full, the session steps on, and then, before the second slice is
      started, a report of 2^64 - 1 on the first child lets it work again. */
  lemma SlicesCanOverlap()
    ensures var run := [Tick(0, Plain(1)), Response(Fill(1, 5)), Tick(0, Plain(2)), Response(Fill(1, U64_MAX))];
            !IdleWhileUnconsumed(RunTwap(TWAP, run))
  {
    hide TwapHas, TwapTick, TwapOnTradeResponse, IdleWhileUnconsumed, Plain, Fill, SENT, FILLED, TWAP;
    FirstSliceIsSent();
    var t1 := TwapTick(TWAP, 0, Plain(1)).twap;
    FirstSliceTrades(t1);
    SecondSliceWaits(TwapOnTradeResponse(t1, Fill(1, 5)));
    FirstWorksAgain(TwapTick(TwapOnTradeResponse(t1, Fill(1, 5)), 0, Plain(2)).twap);
    FourTwapSteps(TWAP, Tick(0, Plain(1)), Response(Fill(1, 5)), Tick(0, Plain(2)), Response(Fill(1, U64_MAX)));
  }

  lemma FourTwapSteps(t: Twap, a: Event, b: Event, c: Event, d: Event)
    ensures RunTwap(t, [a, b, c, d]) == TwapStep(TwapStep(TwapStep(TwapStep(t, a), b), c), d)
  {
    hide TwapStep;
    assert [a, b, c, d][1..] == [b, c, d] && [b, c, d][1..] == [c, d] && [c, d][1..] == [d] && [d][1..] == [];
    var t1 := TwapStep(t, a);
    var t2 := TwapStep(t1, b);
    assert RunTwap(t2, [c, d]) == RunTwap(TwapStep(t2, c), [d]);
    assert RunTwap(t1, [b, c, d]) == RunTwap(t2, [c, d]);
  }

  // ---------- A failed session that sends ----------

  /** In its first tick a session has its active child refused, fails, and sends a passive child all the same. */
  lemma FailedSessionCanSend()
    ensures var market := MarketView(1, true, Some(1));
            var r := SequentialTick(Start(10, 1, true, true), 5,
                                    Surroundings(true, {}, Some(market), ActiveDecision(true, 5), None, Some(7)));
            r.session.failed && r.sent == Some(Submission(7, 5, 1, false))
  {
    var around := Surroundings(true, {}, Some(MarketView(1, true, Some(1))), ActiveDecision(true, 5), None, Some(7));
    var s := Refresh(Start(10, 1, true, true), around);
    assert s == Start(10, 1, true, true) by {
      assert MarkCancels(map[], {}) == map[];
    }
    assert WorkingVolume(s) == 0 && Schedulable(s) == 10 by {
      assert Open(map[]) == map[] && Traded(map[]) == map[];
    }
    hide WorkingVolume, Schedulable, ViewOf, Refresh;
  }
}
