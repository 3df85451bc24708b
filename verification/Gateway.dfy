/** The gateway loop in place: a retry queue rotated by a counted loop, and counters incremented as it goes
    (gateway/src/gateway_loop.cpp). It refines the functions of module GatewayModel. */
module Gateways {
  import opened Integers
  import opened OrderTypes
  import opened SecurityIdentity
  import opened GatewayModel

  class GatewayLoop {
    const config: Config
    const adapter: Adapter
    var retryQueue: seq<Item>
    var ordersReceived: nat
    var ordersSubmitted: nat
    var ordersFailed: nat
    var retriesScheduled: nat
    var retriesExhausted: nat
    var retryQueueSize: nat
    var adapterCalls: nat
    var errorsSent: seq<OrderId>
    /** What became of every order so far. */
    ghost var view: Gateway

    /** The counters count what the view lists. */
    ghost predicate Counting()
      reads this
    {
      && retryQueue == view.retry && ordersReceived == view.received
      && ordersSubmitted == |view.submitted| && ordersFailed == |view.failed|
      && retriesScheduled == view.scheduled && retriesExhausted == view.exhausted
      && adapterCalls == |view.calls| && errorsSent == view.errors
    }

    ghost predicate Valid()
      reads this
    {
      Counting() && Accounted(view, config) && retryQueueSize == |retryQueue|
    }

    constructor (config: Config, adapter: Adapter)
      ensures Valid() && view == EMPTY && this.config == config && this.adapter == adapter
    {
      this.config, this.adapter := config, adapter;
      retryQueue, ordersReceived, ordersSubmitted, ordersFailed := [], 0, 0, 0;
      retriesScheduled, retriesExhausted, retryQueueSize, adapterCalls, errorsSent := 0, 0, 0, 0, [];
      view := EMPTY;
      new;
      EveryRunIsAccounted(config, adapter, []);
    }

    /** At every loop boundary the counters add up. */
    lemma CountersAddUp()
      requires Valid()
      ensures ordersReceived == ordersSubmitted + ordersFailed + retryQueueSize
    {
      assert Arrivals([]) == [];
      assert |Places(view)| == |view.submitted| + |view.failed| + |Arrivals(view.retry)|;
      assert |multiset(Upto(view.received))| == view.received;
    }

    method EmitTraderError(id: OrderId)
      requires Counting()
      modifies this`errorsSent, this`view
      ensures Counting() && view == EmitError(old(view), id)
    {
      if id == 0 {
        return;
      }
      errorsSent := errorsSent + [id];
      view := view.(errors := errorsSent);
    }

    method SubmitRequest(arrival: nat, order: Order, attempts: uint32)
      requires Counting()
      modifies this
      ensures Counting() && view == Submit(old(view), config, adapter, arrival, order, attempts)
      ensures old(retryQueueSize == |retryQueue|) ==> retryQueueSize == |retryQueue|
    {
      var result, now := adapter.answer(adapterCalls), adapter.clock(adapterCalls);
      adapterCalls := adapterCalls + 1;
      view := view.(calls := view.calls + [arrival]);
      if result.accepted {
        ordersSubmitted := ordersSubmitted + 1;
        view := view.(submitted := view.submitted + [arrival]);
        return;
      }
      if result.retryable && attempts < config.maxRetryAttempts {
        retryQueue := retryQueue + [Item(arrival, order, attempts + 1, WrapAdd(now, config.retryIntervalNs))];
        retriesScheduled := retriesScheduled + 1;
        retryQueueSize := |retryQueue|;
        view := view.(retry := retryQueue, scheduled := retriesScheduled);
        return;
      }
      ordersFailed := ordersFailed + 1;
      if attempts > 0 {
        retriesExhausted := retriesExhausted + 1;
      }
      view := view.(failed := view.failed + [arrival], exhausted := retriesExhausted);
      EmitTraderError(order.id);
    }

    method ProcessRetryQueue(now: uint64) returns (didWork: bool)
      requires Valid()
      modifies this
      ensures Valid() && view == RetryPass(old(view), config, adapter, now)
      ensures didWork == (DueCount(old(retryQueue), now) > 0)
    {
      hide Accounted, Visit;
      RetryPassKeepsAccounted(view, config, adapter, now);
      if retryQueue == [] {
        return false;
      }
      didWork := Rotate(now);
      retryQueueSize := |retryQueue|;
    }

    /** The counted loop: each waiting item is popped from the front once, and what stays goes to the back. */
    method Rotate(now: uint64) returns (didWork: bool)
      requires Counting()
      modifies this
      ensures Counting() && view == RetryPass(old(view), config, adapter, now)
      ensures didWork == (DueCount(old(retryQueue), now) > 0)
    {
      hide Visit;
      didWork := false;
      ghost var items, start := view.retry, view.(retry := []);
      for i := 0 to |retryQueue|
        invariant i <= |items| && Counting()
        invariant view == Waiting(VisitAll(start, config, adapter, items[..i], now), items[i..])
        invariant didWork == (DueCount(items[..i], now) > 0)
      {
        ghost var g := VisitAll(start, config, adapter, items[..i], now);
        assert items[..i + 1][..i] == items[..i];
        assert items[i..] == [items[i]] + items[i + 1..];
        var due := VisitFront(now, g, items[i], items[i + 1..]);
        didWork := didWork || due;
      }
      assert items[..|items|] == items;
    }

    /** Pops the front item and visits it; ghost parameters tell what is behind it: what was visited, and what is
        to come. */
    method VisitFront(now: uint64, ghost g: Gateway, ghost front: Item, ghost rest: seq<Item>) returns (due: bool)
      requires Counting() && view == Waiting(g, [front] + rest)
      modifies this
      ensures Counting() && view == Waiting(Visit(g, config, adapter, front, now), rest)
      ensures due == (front.nextRetryAt <= now)
    {
      hide Submit;
      var item := retryQueue[0];
      retryQueue := retryQueue[1..];
      view := view.(retry := retryQueue);
      assert item == front && view == Waiting(g, rest);
      due := item.nextRetryAt <= now;
      if due {
        SubmitBehind(g, config, adapter, item, rest);
        SubmitRequest(item.arrival, item.order, item.attempts);
      } else {
        retryQueue := retryQueue + [item];
        view := view.(retry := retryQueue);
        assert rest + g.retry + [item] == rest + (g.retry + [item]);
      }
    }

    /** Pops and handles at most `limit` orders; `queue` is what the downstream queue holds. */
    method ProcessOrders(queue: seq<Incoming>, limit: nat) returns (didWork: bool, processed: nat)
      requires Valid()
      modifies this
      ensures Valid() && processed == Min(limit, |queue|)
      ensures view == ReceiveAll(old(view), config, adapter, queue[..processed])
      ensures didWork == (processed > 0)
    {
      hide Accounted, Receive;
      didWork, processed := false, 0;
      while processed < limit && processed < |queue|
        invariant processed <= Min(limit, |queue|) && didWork == (processed > 0)
        invariant Valid() && view == ReceiveAll(old(view), config, adapter, queue[..processed])
      {
        assert queue[..processed + 1][..processed] == queue[..processed];
        didWork := true;
        ReceiveKeepsAccounted(view, config, adapter, queue[processed]);
        HandleIncoming(queue[processed]);
        processed := processed + 1;
      }
    }

    method HandleIncoming(incoming: Incoming)
      requires Counting() && retryQueueSize == |retryQueue|
      modifies this
      ensures Counting() && retryQueueSize == |retryQueue| && view == Receive(old(view), config, adapter, incoming)
    {
      hide Submit, Mappable;
      var arrival := ordersReceived;
      ordersReceived := ordersReceived + 1;
      view := view.(received := ordersReceived);
      if incoming.Unreadable? {
        ordersFailed := ordersFailed + 1;
        view := view.(failed := view.failed + [arrival]);
      } else if !Mappable(incoming.order) {
        ordersFailed := ordersFailed + 1;
        view := view.(failed := view.failed + [arrival]);
        EmitTraderError(incoming.order.id);
      } else {
        SubmitRequest(arrival, incoming.order, 0);
      }
    }
  }

  /** A gateway with more items waiting in front of its queue. */
  ghost function Waiting(g: Gateway, front: seq<Item>): Gateway {
    g.(retry := front + g.retry)
  }

  lemma SubmitBehind(g: Gateway, c: Config, a: Adapter, item: Item, front: seq<Item>)
    ensures Submit(Waiting(g, front), c, a, item.arrival, item.order, item.attempts)
            == Waiting(Submit(g, c, a, item.arrival, item.order, item.attempts), front)
  {
    hide WrapAdd;
  }
}
