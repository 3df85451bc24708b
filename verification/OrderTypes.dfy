/** The order vocabulary shared by every component (src/order/order_request.hpp). */
module OrderTypes {
  import opened Integers

  type OrderId = uint32

  datatype Option<+T> = None | Some(value: T)

  datatype OrderType = NotSet | New | Cancel | Unknown

  datatype TradeSide = NotSet | Buy | Sell

  datatype OrderState =
    | NotSet
    | UserSubmitted
    | RiskControllerPending
    | RiskControllerRejected
    | RiskControllerAccepted
    | TraderPending
    | TraderRejected
    | TraderSubmitted
    | TraderError
    | BrokerRejected
    | BrokerAccepted
    | MarketRejected
    | MarketAccepted
    | Finished
    | Unknown

  /** The terminal states, as listed by the order book, the event loop and the order pool alike. */
  predicate IsTerminal(state: OrderState) {
    match state
    case RiskControllerRejected | TraderRejected | TraderError | BrokerRejected => true
    case MarketRejected | Finished | Unknown => true
    case _ => false
  }

  /** The terminal states in which a child order counts as failed. */
  predicate IsFailure(state: OrderState) {
    match state
    case TraderRejected | TraderError | BrokerRejected | MarketRejected | Unknown => true
    case _ => false
  }

  function ProgressRank(state: OrderState): int {
    match state
    case MarketAccepted => 7
    case BrokerAccepted => 6
    case TraderSubmitted => 5
    case TraderPending => 4
    case RiskControllerAccepted => 3
    case RiskControllerPending => 2
    case UserSubmitted => 1
    case _ => 0
  }

  /** Every state but NotSet is either terminal or ranks, and a failure is a terminal state other than a rejection by
      the risk rules and the regular end. */
  lemma StatesPartition(state: OrderState)
    ensures state != OrderState.NotSet ==> (IsTerminal(state) <==> ProgressRank(state) <= 0)
    ensures !IsTerminal(OrderState.NotSet) && ProgressRank(OrderState.NotSet) == 0
    ensures IsFailure(state) <==> IsTerminal(state) && state != RiskControllerRejected && state != Finished
  {
  }

  /** The ranks follow the life of an order, and no two states that rank have the same. */
  lemma RanksDiffer(a: OrderState, b: OrderState)
    ensures 0 < ProgressRank(UserSubmitted) < ProgressRank(RiskControllerPending) < ProgressRank(RiskControllerAccepted)
            < ProgressRank(TraderPending) < ProgressRank(TraderSubmitted) < ProgressRank(BrokerAccepted)
            < ProgressRank(MarketAccepted)
    ensures ProgressRank(a) == ProgressRank(b) > 0 ==> a == b
  {
  }
}
