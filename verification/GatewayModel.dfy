/** The gateway between the downstream queue and a broker adapter: it submits orders, retries refused ones
    from a queue that it rotates in place, and counts what becomes of each (gateway/src/gateway_loop.cpp,
    gateway/src/order_mapper.cpp). */
module GatewayModel {
  import opened Integers
  import opened OrderTypes
  import opened SecurityIdentity

  /** The order fields that decide whether a broker request can be made of it. */
  datatype Order = Order(id: OrderId, kind: OrderType, side: TradeSide, market: Market, volume: uint64, price: uint64,
                         code: string)

  /** What the downstream queue hands over: a slot that cannot be read, or an order. */
  datatype Incoming = Unreadable | Readable(order: Order)

  /** A request waiting for its next attempt; `arrival` numbers the received orders, for the statements only. */
  datatype Item = Item(arrival: nat, order: Order, attempts: uint32, nextRetryAt: uint64)

  datatype SendResult = SendResult(accepted: bool, retryable: bool)

  datatype Config = Config(maxRetryAttempts: uint32, retryIntervalNs: uint64)

  /** The answer of the adapter to its k-th call, and the clock after it. */
  datatype Adapter = Adapter(answer: nat -> SendResult, clock: nat -> uint64)

  /** The retry queue, the arrivals that were submitted and that failed, the adapter calls by arrival, and the errors
      sent back by order id. */
  datatype Gateway = Gateway(
    received: nat, retry: seq<Item>, submitted: seq<nat>, failed: seq<nat>,
    calls: seq<nat>, errors: seq<OrderId>, scheduled: nat, exhausted: nat)

  const EMPTY: Gateway := Gateway(0, [], [], [], [], [], 0, 0)

  predicate Mappable(o: Order) {
    && o.id != 0 && (o.kind == OrderType.New || o.kind == OrderType.Cancel)
    && (o.kind == OrderType.New ==>
          && (o.side == Buy || o.side == Sell) && Mic(o.market) != "" && o.volume != 0 && o.price != 0
          && o.code != "" && o.code[0] != NUL)
  }

  function EmitError(g: Gateway, id: OrderId): Gateway {
    if id == 0 then g else g.(errors := g.errors + [id])
  }

  function Submit(g: Gateway, c: Config, a: Adapter, arrival: nat, order: Order, attempts: uint32): Gateway {
    var result, now := a.answer(|g.calls|), a.clock(|g.calls|);
    var g1 := g.(calls := g.calls + [arrival]);
    if result.accepted then g1.(submitted := g1.submitted + [arrival])
    else if result.retryable && attempts < c.maxRetryAttempts then
      g1.(retry := g1.retry + [Item(arrival, order, attempts + 1, WrapAdd(now, c.retryIntervalNs))],
          scheduled := g1.scheduled + 1)
    else
      EmitError(g1.(failed := g1.failed + [arrival], exhausted := g1.exhausted + (if attempts > 0 then 1 else 0)),
                order.id)
  }

  function Visit(g: Gateway, c: Config, a: Adapter, item: Item, now: uint64): Gateway {
    if item.nextRetryAt > now then g.(retry := g.retry + [item])
    else Submit(g, c, a, item.arrival, item.order, item.attempts)
  }

  function VisitAll(g: Gateway, c: Config, a: Adapter, items: seq<Item>, now: uint64): Gateway {
    if items == [] then g
    else
      var n := |items| - 1;
      Visit(VisitAll(g, c, a, items[..n], now), c, a, items[n], now)
  }

  /** One pass: every item that was waiting is taken out and visited once, in order. */
  function RetryPass(g: Gateway, c: Config, a: Adapter, now: uint64): Gateway {
    VisitAll(g.(retry := []), c, a, g.retry, now)
  }

  function Receive(g: Gateway, c: Config, a: Adapter, incoming: Incoming): Gateway {
    var arrival := g.received;
    var g1 := g.(received := g.received + 1);
    match incoming
    case Unreadable => g1.(failed := g1.failed + [arrival])
    case Readable(order) =>
      if Mappable(order) then Submit(g1, c, a, arrival, order, 0)
      else EmitError(g1.(failed := g1.failed + [arrival]), order.id)
  }

  function ReceiveAll(g: Gateway, c: Config, a: Adapter, batch: seq<Incoming>): Gateway {
    if batch == [] then g
    else Receive(ReceiveAll(g, c, a, batch[..|batch| - 1]), c, a, batch[|batch| - 1])
  }

  // ---------- One retry pass, element by element ----------

  function DueCount(items: seq<Item>, now: uint64): nat {
    if items == [] then 0
    else DueCount(items[..|items| - 1], now) + (if items[|items| - 1].nextRetryAt > now then 0 else 1)
  }

  /** What becomes of one item: kept as it is, dropped, or rescheduled with one attempt more. */
  function Remaining(c: Config, a: Adapter, item: Item, call: nat, now: uint64): seq<Item> {
    if item.nextRetryAt > now then [item]
    else if !a.answer(call).accepted && a.answer(call).retryable && item.attempts < c.maxRetryAttempts then
      [item.(attempts := item.attempts + 1, nextRetryAt := WrapAdd(a.clock(call), c.retryIntervalNs))]
    else []
  }

  /** The queue a pass leaves: the old one, in order, each element kept, dropped or rescheduled. */
  function RemainingAll(c: Config, a: Adapter, items: seq<Item>, call: nat, now: uint64): seq<Item> {
    if items == [] then []
    else
      var n := |items| - 1;
      RemainingAll(c, a, items[..n], call, now) + Remaining(c, a, items[n], call + DueCount(items[..n], now), now)
  }

  function DueArrivals(items: seq<Item>, now: uint64): seq<nat> {
    if items == [] then []
    else
      var n := |items| - 1;
      DueArrivals(items[..n], now) + (if items[n].nextRetryAt > now then [] else [items[n].arrival])
  }

  lemma {:induction false} VisitsInOrder(g: Gateway, c: Config, a: Adapter, items: seq<Item>, now: uint64)
    ensures var g' := VisitAll(g, c, a, items, now);
            && g'.retry == g.retry + RemainingAll(c, a, items, |g.calls|, now)
            && g'.calls == g.calls + DueArrivals(items, now)
            && |DueArrivals(items, now)| == DueCount(items, now)
    decreases |items|
  {
    hide Visit, Remaining;
    if items != [] {
      var n := |items| - 1;
      VisitsInOrder(g, c, a, items[..n], now);
      VisitOne(VisitAll(g, c, a, items[..n], now), c, a, items[n], now);
    }
  }

  lemma VisitOne(g: Gateway, c: Config, a: Adapter, item: Item, now: uint64)
    ensures var g' := Visit(g, c, a, item, now);
            && g'.retry == g.retry + Remaining(c, a, item, |g.calls|, now)
            && g'.calls == g.calls + (if item.nextRetryAt > now then [] else [item.arrival])
  {
    hide WrapAdd;
  }

  /** Main result on one pass: it maps the old queue, element by element and in order, to keep, reschedule or drop,
      and calls the adapter once for each due item of the old queue and for nothing else: what it schedules it does
      not visit. */
  lemma RetryPassMapsTheQueue(g: Gateway, c: Config, a: Adapter, now: uint64)
    ensures var g' := RetryPass(g, c, a, now);
            && g'.retry == RemainingAll(c, a, g.retry, |g.calls|, now)
            && g'.calls == g.calls + DueArrivals(g.retry, now)
            && g'.received == g.received
  {
    VisitsInOrder(g.(retry := []), c, a, g.retry, now);
    VisitsReceiveNothing(g.(retry := []), c, a, g.retry, now);
  }

  lemma {:induction false} VisitsReceiveNothing(g: Gateway, c: Config, a: Adapter, items: seq<Item>, now: uint64)
    ensures VisitAll(g, c, a, items, now).received == g.received
    decreases |items|
  {
    if items != [] {
      VisitsReceiveNothing(g, c, a, items[..|items| - 1], now);
    }
  }

  // ---------- The fate of every request ----------

  function Arrivals(items: seq<Item>): (r: seq<nat>)
    ensures |r| == |items| && forall i :: 0 <= i < |items| ==> r[i] == items[i].arrival
  {
    seq(|items|, i requires 0 <= i < |items| => items[i].arrival)
  }

  function Upto(n: nat): (r: seq<nat>)
    ensures |r| == n && forall i :: 0 <= i < n ==> r[i] == i
  {
    seq(n, i => i)
  }

  /** The arrivals in all three places a received request can be in, with repetition. */
  function Places(g: Gateway): multiset<nat> {
    multiset(g.submitted) + multiset(g.failed) + multiset(Arrivals(g.retry))
  }

  /** A waiting item was handed to the adapter as often as it says. */
  predicate ItemOk(g: Gateway, c: Config, item: Item) {
    1 <= item.attempts <= c.maxRetryAttempts && multiset(g.calls)[item.arrival] == item.attempts as nat
  }

  predicate ItemsOk(g: Gateway, c: Config, items: seq<Item>) {
    forall item :: item in items ==> ItemOk(g, c, item)
  }

  predicate CallsOk(g: Gateway, c: Config) {
    forall x :: x in multiset(g.calls) ==> x < g.received && multiset(g.calls)[x] <= c.maxRetryAttempts as nat + 1
  }

  /** The state in the middle of a pass, `rest` being still out of the queue. */
  predicate MidPass(g: Gateway, c: Config, rest: seq<Item>) {
    && Places(g) + multiset(Arrivals(rest)) == multiset(Upto(g.received))
    && ItemsOk(g, c, g.retry) && ItemsOk(g, c, rest) && CallsOk(g, c)
  }

  predicate Accounted(g: Gateway, c: Config) {
    MidPass(g, c, [])
  }

  lemma AppendArrival(items: seq<Item>, item: Item)
    ensures Arrivals(items + [item]) == Arrivals(items) + [item.arrival]
  {
  }

  lemma SubmitPlaces(g: Gateway, c: Config, a: Adapter, arrival: nat, order: Order, attempts: uint32)
    ensures var g' := Submit(g, c, a, arrival, order, attempts);
            && Places(g') == Places(g) + multiset{arrival}
            && g'.received == g.received && g'.calls == g.calls + [arrival]
            && (g'.retry == g.retry
                || (attempts < c.maxRetryAttempts && |g'.retry| == |g.retry| + 1 && g'.retry[..|g.retry|] == g.retry
                    && g'.retry[|g.retry|].arrival == arrival && g'.retry[|g.retry|].attempts == attempts + 1))
  {
    hide Arrivals, WrapAdd;
    var g' := Submit(g, c, a, arrival, order, attempts);
    if g'.retry != g.retry {
      var item := g'.retry[|g.retry|];
      AppendArrival(g.retry, item);
      assert multiset(Arrivals(g.retry) + [arrival]) == multiset(Arrivals(g.retry)) + multiset{arrival};
    } else {
      assert multiset(g.submitted + [arrival]) == multiset(g.submitted) + multiset{arrival};
      assert multiset(g.failed + [arrival]) == multiset(g.failed) + multiset{arrival};
    }
  }

  lemma OneMoreCall(calls: seq<nat>, arrival: nat)
    ensures multiset(calls + [arrival])[arrival] == multiset(calls)[arrival] + 1
    ensures forall x :: x != arrival ==> multiset(calls + [arrival])[x] == multiset(calls)[x]
  {
  }

  /** Submitting an order that is in no queue, and was called `attempts` times, keeps the tallies of all items right. */
  lemma SubmitItems(g: Gateway, c: Config, a: Adapter, arrival: nat, order: Order, attempts: uint32, rest: seq<Item>)
    requires ItemsOk(g, c, g.retry) && ItemsOk(g, c, rest) && CallsOk(g, c)
    requires arrival < g.received && attempts <= c.maxRetryAttempts && multiset(g.calls)[arrival] == attempts as nat
    requires Elsewhere(arrival, g.retry) && Elsewhere(arrival, rest)
    ensures var g' := Submit(g, c, a, arrival, order, attempts);
            ItemsOk(g', c, g'.retry) && ItemsOk(g', c, rest) && CallsOk(g', c)
  {
    SubmitPlaces(g, c, a, arrival, order, attempts);
    OneMoreCall(g.calls, arrival);
    var g' := Submit(g, c, a, arrival, order, attempts);
    hide Submit, Places, ItemsOk, CallsOk, Elsewhere;
    CallsGrow(g, g', c, arrival);
    ItemsStay(g, g', c, g.retry, arrival);
    ItemsStay(g, g', c, rest, arrival);
    if g'.retry != g.retry {
      var item := g'.retry[|g.retry|];
      assert g'.retry == g.retry + [item];
      OneMoreItem(g', c, g.retry, item);
    }
  }

  predicate Elsewhere(arrival: nat, items: seq<Item>) {
    forall item :: item in items ==> item.arrival != arrival
  }

  lemma OneMoreItem(g: Gateway, c: Config, items: seq<Item>, item: Item)
    requires ItemsOk(g, c, items) && ItemOk(g, c, item)
    ensures ItemsOk(g, c, items + [item])
  {
  }

  lemma CallsGrow(g: Gateway, g': Gateway, c: Config, arrival: nat)
    requires CallsOk(g, c) && g'.calls == g.calls + [arrival] && g'.received == g.received
    requires arrival < g.received && multiset(g.calls)[arrival] <= c.maxRetryAttempts as nat
    ensures CallsOk(g', c)
  {
    OneMoreCall(g.calls, arrival);
    forall x | x in multiset(g'.calls)
      ensures x < g'.received
              && multiset(g'.calls)[x] <= c.maxRetryAttempts as nat + 1
    {
      if x != arrival {
        assert x in multiset(g.calls);
      }
    }
  }

  lemma ItemsStay(g: Gateway, g': Gateway, c: Config, items: seq<Item>, arrival: nat)
    requires ItemsOk(g, c, items) && g'.calls == g.calls + [arrival] && Elsewhere(arrival, items)
    ensures ItemsOk(g', c, items)
  {
    OneMoreCall(g.calls, arrival);
  }

  /** In the middle of a pass, an item that is out of the queue has an arrival of its own. */
  lemma OutOfTheQueue(g: Gateway, c: Config, item: Item, rest: seq<Item>)
    requires Places(g) + multiset(Arrivals([item] + rest)) == multiset(Upto(g.received))
    ensures Places(g) + multiset{item.arrival} + multiset(Arrivals(rest)) == multiset(Upto(g.received))
    ensures Elsewhere(item.arrival, g.retry) && Elsewhere(item.arrival, rest) && item.arrival < g.received
  {
    var x := item.arrival;
    assert Arrivals([item] + rest) == [x] + Arrivals(rest);
    assert multiset([x] + Arrivals(rest)) == multiset{x} + multiset(Arrivals(rest));
    UptoOnce(g.received, x);
    assert multiset(Upto(g.received))[x] >= 1;
    NotAmong(x, g.retry);
    NotAmong(x, rest);
    hide Arrivals, Upto, Elsewhere;
  }

  lemma NotAmong(x: nat, items: seq<Item>)
    ensures multiset(Arrivals(items))[x] == 0 ==> Elsewhere(x, items)
  {
    if multiset(Arrivals(items))[x] == 0 {
      forall item | item in items ensures item.arrival != x {
        var i :| 0 <= i < |items| && items[i] == item;
        assert Arrivals(items)[i] in multiset(Arrivals(items));
      }
    }
  }

  lemma {:induction false} UptoOnce(n: nat, x: nat)
    ensures multiset(Upto(n))[x] == if x < n then 1 else 0
  {
    if n > 0 {
      UptoOnce(n - 1, x);
      OneMoreUpto(n - 1);
    } else {
      assert Upto(0) == [];
    }
  }

  lemma OneMoreUpto(n: nat)
    ensures multiset(Upto(n + 1)) == multiset(Upto(n)) + multiset{n}
  {
    assert Upto(n + 1) == Upto(n) + [n];
  }

  lemma VisitKeepsMidPass(g: Gateway, c: Config, a: Adapter, item: Item, rest: seq<Item>, now: uint64)
    requires MidPass(g, c, [item] + rest)
    ensures MidPass(Visit(g, c, a, item, now), c, rest)
  {
    hide CallsOk, Arrivals, Upto, Elsewhere, Places, Submit;
    OutOfTheQueue(g, c, item, rest);
    assert item in [item] + rest && ItemOk(g, c, item);
    assert ItemsOk(g, c, rest);
    if item.nextRetryAt > now {
      KeptPlaces(g, item);
      OneMoreItem(g, c, g.retry, item);
      KeptCalls(g, c, item);
    } else {
      hide ItemsOk;
      SubmitPlaces(g, c, a, item.arrival, item.order, item.attempts);
      SubmitItems(g, c, a, item.arrival, item.order, item.attempts, rest);
    }
  }

  lemma KeptPlaces(g: Gateway, item: Item)
    ensures Places(g.(retry := g.retry + [item])) == Places(g) + multiset{item.arrival}
  {
    AppendArrival(g.retry, item);
    assert multiset(Arrivals(g.retry) + [item.arrival]) == multiset(Arrivals(g.retry)) + multiset{item.arrival};
  }

  lemma KeptCalls(g: Gateway, c: Config, item: Item)
    requires CallsOk(g, c)
    ensures CallsOk(g.(retry := g.retry + [item]), c)
  {
  }

  lemma {:induction false} VisitAllKeepsMidPass(g: Gateway, c: Config, a: Adapter, items: seq<Item>, rest: seq<Item>,
                                                now: uint64)
    requires MidPass(g, c, items + rest)
    ensures MidPass(VisitAll(g, c, a, items, now), c, rest)
    decreases |items|
  {
    hide MidPass, Visit;
    if items == [] {
      assert items + rest == rest;
    } else {
      var n := |items| - 1;
      assert items + rest == items[..n] + ([items[n]] + rest);
      VisitAllKeepsMidPass(g, c, a, items[..n], [items[n]] + rest, now);
      VisitKeepsMidPass(VisitAll(g, c, a, items[..n], now), c, a, items[n], rest, now);
    }
  }

  lemma RetryPassKeepsAccounted(g: Gateway, c: Config, a: Adapter, now: uint64)
    requires Accounted(g, c)
    ensures Accounted(RetryPass(g, c, a, now), c)
  {
    EmptyQueue(g, c);
    hide MidPass;
    assert g.retry + [] == g.retry;
    VisitAllKeepsMidPass(g.(retry := []), c, a, g.retry, [], now);
  }

  lemma EmptyQueue(g: Gateway, c: Config)
    requires Accounted(g, c)
    ensures MidPass(g.(retry := []), c, g.retry)
  {
    assert Arrivals([]) == [];
  }

  lemma ReceiveKeepsAccounted(g: Gateway, c: Config, a: Adapter, incoming: Incoming)
    requires Accounted(g, c)
    ensures Accounted(Receive(g, c, a, incoming), c)
  {
    hide Arrivals, Upto, ItemsOk, CallsOk, Submit, Places;
    var arrival := g.received;
    var g1 := g.(received := g.received + 1);
    assert multiset(Arrivals([])) == multiset{};
    OneMoreUpto(g.received);
    ArrivalIsNew(g, c);
    Counted(g, g1, c);
    if incoming.Readable? && Mappable(incoming.order) {
      SubmitPlaces(g1, c, a, arrival, incoming.order, 0);
      SubmitItems(g1, c, a, arrival, incoming.order, 0, []);
    } else {
      Counted(g, Receive(g, c, a, incoming), c);
      FailedPlaces(g, Receive(g, c, a, incoming), arrival);
    }
  }

  lemma FailedPlaces(g: Gateway, g': Gateway, arrival: nat)
    requires g'.failed == g.failed + [arrival] && g'.submitted == g.submitted && g'.retry == g.retry
    ensures Places(g') == Places(g) + multiset{arrival}
  {
    assert multiset(g.failed + [arrival]) == multiset(g.failed) + multiset{arrival};
  }

  lemma Counted(g: Gateway, g': Gateway, c: Config)
    requires Accounted(g, c)
    requires g'.retry == g.retry && g'.calls == g.calls && g'.received == g.received + 1
    ensures ItemsOk(g', c, g'.retry) && ItemsOk(g', c, []) && CallsOk(g', c)
    ensures g'.submitted == g.submitted && g'.failed == g.failed ==> Places(g') == Places(g)
  {
  }

  lemma ArrivalIsNew(g: Gateway, c: Config)
    requires Accounted(g, c)
    ensures multiset(g.calls)[g.received] == 0
    ensures Elsewhere(g.received, g.retry) && Elsewhere(g.received, [])
  {
    UptoOnce(g.received, g.received);
    NotAmong(g.received, g.retry);
    if g.received in multiset(g.calls) {
      assert false;
    }
    hide Arrivals, Upto, Elsewhere;
  }

  /** A submission gives up exactly when the adapter refuses for good or the last attempt is spent, and exactly then an
      identified order has its error sent back; otherwise it is submitted, or waits with one attempt more. */
  lemma GivingUpIsReported(g: Gateway, c: Config, a: Adapter, arrival: nat, order: Order, attempts: uint32)
    requires order.id != 0
    ensures var g', answer := Submit(g, c, a, arrival, order, attempts), a.answer(|g.calls|);
            && (g'.failed != g.failed <==> !answer.accepted && (!answer.retryable || attempts >= c.maxRetryAttempts))
            && g'.errors == (if g'.failed != g.failed then g.errors + [order.id] else g.errors)
            && (g'.failed == g.failed ==> (answer.accepted <==> g'.submitted == g.submitted + [arrival]))
  {
    hide WrapAdd;
    assert |g.failed + [arrival]| == |g.failed| + 1;
    assert |g.submitted + [arrival]| == |g.submitted| + 1;
  }

  // ---------- Whole runs ----------

  datatype Event = RetryDue(now: uint64) | Received(incoming: Incoming)

  function Handle(g: Gateway, c: Config, a: Adapter, e: Event): Gateway {
    match e
    case RetryDue(now) => RetryPass(g, c, a, now)
    case Received(incoming) => Receive(g, c, a, incoming)
  }

  ghost function RunGateway(c: Config, a: Adapter, events: seq<Event>): Gateway {
    if events == [] then EMPTY else Handle(RunGateway(c, a, events[..|events| - 1]), c, a, events[|events| - 1])
  }

  lemma {:induction false} EveryRunIsAccounted(c: Config, a: Adapter, events: seq<Event>)
    ensures Accounted(RunGateway(c, a, events), c)
    decreases |events|
  {
    if events == [] {
      assert Arrivals([]) == [] && Upto(0) == [];
    } else {
      hide Accounted, RetryPass, Receive;
      var g := RunGateway(c, a, events[..|events| - 1]);
      EveryRunIsAccounted(c, a, events[..|events| - 1]);
      match events[|events| - 1]
      case RetryDue(now) => RetryPassKeepsAccounted(g, c, a, now);
      case Received(incoming) => ReceiveKeepsAccounted(g, c, a, incoming);
    }
  }

  /** Main result: over every run of receptions and retry passes, whatever the adapter answers and the clock shows,
      every received request is in exactly one place, submitted, failed or waiting, so the counters add up; and none was
      handed to the adapter more often than the retry limit and once more. */
  lemma EveryRequestHasOneFate(c: Config, a: Adapter, events: seq<Event>)
    ensures var g := RunGateway(c, a, events);
            && Places(g) == multiset(Upto(g.received))
            && g.received == |g.submitted| + |g.failed| + |g.retry|
            && forall x: nat :: multiset(g.calls)[x] <= c.maxRetryAttempts as nat + 1
  {
    EveryRunIsAccounted(c, a, events);
    var g := RunGateway(c, a, events);
    assert Arrivals([]) == [];
    hide RunGateway;
    assert |Places(g)| == |g.submitted| + |g.failed| + |Arrivals(g.retry)|;
    assert |multiset(Upto(g.received))| == g.received;
    forall x: nat ensures multiset(g.calls)[x] <= c.maxRetryAttempts as nat + 1 {
      if x !in multiset(g.calls) {
        assert multiset(g.calls)[x] == 0;
      }
    }
  }

  // ---------- Which orders reach the adapter ----------

  /** A cancel needs an id; a new order needs an id, a volume, a price, a side, a known market and a code. */
  ghost predicate Complete(o: Order) {
    && o.id > 0
    && (o.kind == OrderType.Cancel
        || (o.kind == OrderType.New && o.volume > 0 && o.price > 0 && o.side in {Buy, Sell}
            && o.market in {SZ, SH, BJ, HK} && |o.code| > 0 && o.code[0] != NUL))
  }

  /** A readable order is handed to the adapter exactly if it is complete: then it is submitted, waits for a second
      attempt after the retry interval, or fails with an error sent back, as the adapter answers. An incomplete one
      fails at once, and its error is sent back if it has an id. */
  lemma HandedOverExactly(g: Gateway, c: Config, a: Adapter, o: Order)
    ensures var g', answer := Receive(g, c, a, Readable(o)), a.answer(|g.calls|);
            && g'.received == g.received + 1
            && g'.calls == (if Complete(o) then g.calls + [g.received] else g.calls)
            && (if Complete(o) && answer.accepted then
                  && g'.submitted == g.submitted + [g.received]
                  && g'.retry == g.retry && g'.failed == g.failed && g'.errors == g.errors
                else if Complete(o) && answer.retryable && c.maxRetryAttempts > 0 then
                  && g'.retry == g.retry + [Item(g.received, o, 1, WrapAdd(a.clock(|g.calls|), c.retryIntervalNs))]
                  && g'.submitted == g.submitted && g'.failed == g.failed && g'.errors == g.errors
                else
                  && g'.failed == g.failed + [g.received]
                  && g'.errors == (if o.id > 0 then g.errors + [o.id] else g.errors)
                  && g'.submitted == g.submitted && g'.retry == g.retry)
  {
    hide WrapAdd;
    MarketsWithCode(o.market);
  }

  lemma MarketsWithCode(market: Market)
    ensures Mic(market) != "" <==> market in {SZ, SH, BJ, HK}
  {
  }

  /** What a run received, in order. */
  ghost function Incomings(events: seq<Event>): seq<Incoming> {
    if events == [] then []
    else
      var n := |events| - 1;
      Incomings(events[..n]) + (if events[n].Received? then [events[n].incoming] else [])
  }

  /** The adapter was called for exactly the complete orders, and all others failed. */
  ghost predicate SeenExactly(g: Gateway, all: seq<Incoming>) {
    && g.received == |all|
    && (forall x: nat :: x in g.calls <==> x < |all| && all[x].Readable? && Complete(all[x].order))
    && (forall x :: 0 <= x < |all| && !(all[x].Readable? && Complete(all[x].order)) ==> x in g.failed)
  }

  lemma {:induction false} DueArrivalsAreWaiting(items: seq<Item>, now: uint64)
    ensures forall x :: x in DueArrivals(items, now) ==> exists item :: item in items && item.arrival == x
    decreases |items|
  {
    if items != [] {
      var n := |items| - 1;
      DueArrivalsAreWaiting(items[..n], now);
      forall x | x in DueArrivals(items, now) ensures exists item :: item in items && item.arrival == x {
        if x in DueArrivals(items[..n], now) {
          var item :| item in items[..n] && item.arrival == x;
          assert item in items;
        } else {
          assert items[n] in items && items[n].arrival == x;
        }
      }
    }
  }

  lemma {:induction false} VisitsKeepFailed(g: Gateway, c: Config, a: Adapter, items: seq<Item>, now: uint64)
    ensures g.failed <= VisitAll(g, c, a, items, now).failed
    decreases |items|
  {
    hide WrapAdd;
    if items != [] {
      VisitsKeepFailed(g, c, a, items[..|items| - 1], now);
    }
  }

  lemma PassKeepsSeen(g: Gateway, c: Config, a: Adapter, now: uint64, all: seq<Incoming>)
    requires Accounted(g, c) && SeenExactly(g, all)
    ensures SeenExactly(RetryPass(g, c, a, now), all)
  {
    var g0 := g.(retry := []);
    VisitsInOrder(g0, c, a, g.retry, now);
    VisitsKeepFailed(g0, c, a, g.retry, now);
    VisitsReceiveNothing(g0, c, a, g.retry, now);
    DueArrivalsAreWaiting(g.retry, now);
    forall x | x in DueArrivals(g.retry, now) ensures x in g.calls {
      var item :| item in g.retry && item.arrival == x;
      assert ItemOk(g, c, item);
    }
    hide Complete, VisitAll, DueArrivals, RemainingAll, Places;
  }

  lemma ReceiveKeepsSeen(g: Gateway, c: Config, a: Adapter, incoming: Incoming, all: seq<Incoming>)
    requires SeenExactly(g, all)
    ensures SeenExactly(Receive(g, c, a, incoming), all + [incoming])
  {
    if incoming.Readable? {
      HandedOverExactly(g, c, a, incoming.order);
      hide Receive, Complete;
    } else {
      hide Complete;
    }
  }

  /** Main result: over every run of receptions and retry passes the adapter is called for exactly the complete orders
      that were received readable, cancels included; every other one fails. */
  lemma {:induction false} AdapterSeesTheComplete(c: Config, a: Adapter, events: seq<Event>)
    ensures SeenExactly(RunGateway(c, a, events), Incomings(events))
    decreases |events|
  {
    hide SeenExactly, RetryPass, Receive, Accounted;
    if events == [] {
      NothingSeen();
    } else {
      var n := |events| - 1;
      AdapterSeesTheComplete(c, a, events[..n]);
      EveryRunIsAccounted(c, a, events[..n]);
      var g := RunGateway(c, a, events[..n]);
      match events[n]
      case RetryDue(now) =>
        PassKeepsSeen(g, c, a, now, Incomings(events[..n]));
        assert Incomings(events) == Incomings(events[..n]);
      case Received(incoming) => ReceiveKeepsSeen(g, c, a, incoming, Incomings(events[..n]));
    }
  }

  lemma NothingSeen()
    ensures SeenExactly(EMPTY, [])
  {
  }
}
