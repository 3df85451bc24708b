/** The fund row of the position table: cash, reservations, market value and total assets
    (src/portfolio/position_manager.cpp). */
module FundRow {
  import opened Integers

  datatype Fund = Fund(total: uint64, available: uint64, frozen: uint64, marketValue: uint64)

  datatype Outcome = Outcome(fund: Fund, ok: bool)

  datatype Operation =
    | Freeze(amount: uint64)
    | Unfreeze(amount: uint64)
    | Deduct(amount: uint64, fee: uint64)
    | Add(amount: uint64)
    | BuyTrade(amount: uint64, fee: uint64)
    | SellTrade(amount: uint64, fee: uint64)

  function Minus(a: uint64, b: uint64): uint64 {
    if a < b then 0 else a - b
  }

  /** The result of an operation; a failing one leaves the row as it was. */
  function Apply(f: Fund, op: Operation): Outcome {
    match op
    case Freeze(amount) =>
      if f.available < amount || f.frozen + amount > U64_MAX then Outcome(f, false)
      else Outcome(f.(available := f.available - amount, frozen := f.frozen + amount), true)
    case Unfreeze(amount) =>
      if f.frozen < amount || f.available + amount > U64_MAX then Outcome(f, false)
      else Outcome(f.(frozen := f.frozen - amount, available := f.available + amount), true)
    case Deduct(amount, fee) =>
      if amount + fee > U64_MAX || f.frozen < amount + fee || f.marketValue + amount > U64_MAX then Outcome(f, false)
      else Outcome(f.(frozen := f.frozen - (amount + fee), total := Minus(f.total, fee),
                      marketValue := f.marketValue + amount), true)
    case Add(amount) =>
      if f.available + amount > U64_MAX || f.total + amount > U64_MAX then Outcome(f, false)
      else Outcome(f.(available := f.available + amount, total := f.total + amount), true)
    case BuyTrade(amount, fee) =>
      if amount + fee > U64_MAX || f.available < amount + fee || f.marketValue + amount > U64_MAX then Outcome(f, false)
      else Outcome(f.(available := f.available - (amount + fee), total := Minus(f.total, fee),
                      marketValue := f.marketValue + amount), true)
    case SellTrade(amount, fee) =>
      if amount >= fee && f.available + (amount - fee) > U64_MAX then Outcome(f, false)
      else if amount < fee && f.available < fee - amount then Outcome(f, false)
      else
        var available := if amount >= fee then f.available + (amount - fee) else f.available - (fee - amount);
        Outcome(f.(available := available, total := Minus(f.total, fee), marketValue := Minus(f.marketValue, amount)),
                true)
  }

  lemma FailureChangesNothing(f: Fund, op: Operation)
    ensures !Apply(f, op).ok ==> Apply(f, op).fund == f
  {
  }

  /** What the row's three components are worth. */
  function Worth(f: Fund): nat {
    f.available + f.frozen + f.marketValue
  }

  ghost predicate Consistent(f: Fund) {
    f.total == Worth(f)
  }

  /** A sale is booked at its full value: the market value covers it, or the fee consumes everything the row has. */
  predicate SaleCovered(f: Fund, op: Operation) {
    op.SellTrade? ==> op.amount <= f.marketValue || f.available + f.frozen + op.amount == op.fee
  }

  /** From a consistent row, an operation keeps the row consistent exactly when it fails or is not an uncovered sale. */
  lemma ConsistentExactlyIfCovered(f: Fund, op: Operation)
    requires Consistent(f)
    ensures Consistent(Apply(f, op).fund) <==> !Apply(f, op).ok || SaleCovered(f, op)
  {
  }

  /** A sale of ten from a row without market value: total assets stay at 100, and the row is worth 110. */
  lemma UncoveredSaleUnderstates()
    ensures var f := Fund(100, 100, 0, 0);
            var f' := RunFund(f, [SellTrade(10, 0)]);
            Consistent(f) && f' == Fund(100, 110, 0, 0) && !Consistent(f')
  {
    var f := Fund(100, 100, 0, 0);
    assert RunFund(f, [SellTrade(10, 0)]) == RunFund(Apply(f, SellTrade(10, 0)).fund, []);
  }

  /** While the row is consistent, total assets never clamp to zero, except in an uncovered sale. */
  lemma TotalNeverClamps(f: Fund, op: Operation)
    requires Consistent(f) && Apply(f, op).ok
    requires op.Deduct? || op.BuyTrade? || (op.SellTrade? && op.amount <= f.marketValue)
    ensures Apply(f, op).fund.total == f.total - op.fee && Worth(Apply(f, op).fund) == Worth(f) - op.fee
  {
  }

  /** Total assets are not overstated. */
  predicate Bounded(f: Fund) {
    f.total <= Worth(f)
  }

  lemma StaysBounded(f: Fund, op: Operation)
    requires Bounded(f)
    ensures Bounded(Apply(f, op).fund)
  {
  }

  ghost function RunFund(f: Fund, ops: seq<Operation>): Fund
    decreases |ops|
  {
    if ops == [] then f else RunFund(Apply(f, ops[0]).fund, ops[1..])
  }

  /** Main result: over any sequence of operations from a consistent row, total assets never exceed what the row
      is worth. */
  lemma {:induction false} TotalNeverExceedsWorth(f: Fund, ops: seq<Operation>)
    requires Bounded(f)
    ensures Bounded(RunFund(f, ops))
    decreases |ops|
  {
    if ops != [] {
      hide Apply, Bounded;
      StaysBounded(f, ops[0]);
      TotalNeverExceedsWorth(Apply(f, ops[0]).fund, ops[1..]);
    }
  }

  ghost predicate RunCovered(f: Fund, ops: seq<Operation>)
    decreases |ops|
  {
    ops == [] || (SaleCovered(f, ops[0]) && RunCovered(Apply(f, ops[0]).fund, ops[1..]))
  }

  lemma {:induction false} CoveredRunStaysConsistent(f: Fund, ops: seq<Operation>)
    requires Consistent(f) && RunCovered(f, ops)
    ensures Consistent(RunFund(f, ops))
    decreases |ops|
  {
    hide Apply, Consistent, SaleCovered;
    if ops != [] {
      ConsistentExactlyIfCovered(f, ops[0]);
      CoveredRunStaysConsistent(Apply(f, ops[0]).fund, ops[1..]);
    }
  }

  /** A deposit goes to available cash and to total assets, and touches neither frozen cash nor market value; it is
      refused exactly if one of the two would overflow. */
  lemma DepositGoesToCash(f: Fund, amount: uint64)
    ensures var o := Apply(f, Add(amount));
            && (o.ok <==> f.available + amount <= U64_MAX && f.total + amount <= U64_MAX)
            && (o.ok ==> o.fund.available == f.available + amount && o.fund.total == f.total + amount
                         && o.fund.frozen == f.frozen && o.fund.marketValue == f.marketValue)
  {
  }

  /** A reservation moves an amount from available to frozen cash and nothing else, if it is there. */
  lemma ReservationMoves(f: Fund, amount: uint64)
    ensures var o := Apply(f, Freeze(amount));
            && (o.ok <==> amount <= f.available && f.frozen + amount <= U64_MAX)
            && (o.ok ==> o.fund.available + amount == f.available && o.fund.frozen == f.frozen + amount
                         && o.fund.total == f.total && o.fund.marketValue == f.marketValue)
  {
  }

  /** A purchase turns cash into market value and loses its fee: frozen cash where it was reserved, available cash where
      it was not, and never the other one. */
  lemma PurchaseMoves(f: Fund, amount: uint64, fee: uint64)
    ensures var o := Apply(f, Deduct(amount, fee));
            && (o.ok <==> amount + fee <= f.frozen && f.marketValue + amount <= U64_MAX)
            && (o.ok ==> o.fund.frozen + amount + fee == f.frozen && o.fund.available == f.available
                         && o.fund.marketValue == f.marketValue + amount
                         && (fee <= f.total ==> o.fund.total + fee == f.total))
    ensures var o := Apply(f, BuyTrade(amount, fee));
            && (o.ok <==> amount + fee <= f.available && f.marketValue + amount <= U64_MAX)
            && (o.ok ==> o.fund.available + amount + fee == f.available && o.fund.frozen == f.frozen
                         && o.fund.marketValue == f.marketValue + amount
                         && (fee <= f.total ==> o.fund.total + fee == f.total))
  {
  }

  /** A sale turns market value into available cash, less the fee, and touches no frozen cash. */
  lemma SaleMoves(f: Fund, amount: uint64, fee: uint64)
    ensures var o := Apply(f, SellTrade(amount, fee));
            && (o.ok <==> fee <= f.available + amount <= U64_MAX + fee)
            && (o.ok ==> o.fund.available + fee == f.available + amount && o.fund.frozen == f.frozen
                         && (amount <= f.marketValue ==> o.fund.marketValue + amount == f.marketValue)
                         && (fee <= f.total ==> o.fund.total + fee == f.total))
  {
  }

  /** Releasing what was just reserved restores the row. */
  lemma UnfreezeUndoesFreeze(f: Fund, amount: uint64)
    requires Apply(f, Freeze(amount)).ok
    ensures Apply(Apply(f, Freeze(amount)).fund, Unfreeze(amount)) == Outcome(f, true)
  {
  }

  /** The row in shared memory, updated under its lock. */
  class PositionManager {
    var total: uint64
    var available: uint64
    var frozen: uint64
    var marketValue: uint64

    ghost function Model(): Fund
      reads this
    {
      Fund(total, available, frozen, marketValue)
    }

    constructor (fund: Fund)
      ensures Model() == fund
    {
      total, available, frozen, marketValue := fund.total, fund.available, fund.frozen, fund.marketValue;
    }

    method FreezeFund(amount: uint64) returns (ok: bool)
      modifies this
      ensures Outcome(Model(), ok) == Apply(old(Model()), Freeze(amount))
    {
      if available < amount {
        return false;
      }
      var newFrozen := WrapAdd(frozen, amount);
      if newFrozen < frozen {
        return false;
      }
      available := available - amount;
      frozen := newFrozen;
      ok := true;
    }

    method UnfreezeFund(amount: uint64) returns (ok: bool)
      modifies this
      ensures Outcome(Model(), ok) == Apply(old(Model()), Unfreeze(amount))
    {
      if frozen < amount {
        return false;
      }
      var newAvailable := WrapAdd(available, amount);
      if newAvailable < available {
        return false;
      }
      frozen := frozen - amount;
      available := newAvailable;
      ok := true;
    }

    method DeductFund(amount: uint64, fee: uint64) returns (ok: bool)
      modifies this
      ensures Outcome(Model(), ok) == Apply(old(Model()), Deduct(amount, fee))
    {
      var sum := WrapAdd(amount, fee);
      if sum < amount {
        return false;
      }
      if frozen < sum {
        return false;
      }
      var newMarketValue := WrapAdd(marketValue, amount);
      if newMarketValue < marketValue {
        return false;
      }
      frozen := frozen - sum;
      total := if total < fee then 0 else total - fee;
      marketValue := newMarketValue;
      ok := true;
    }

    method AddFund(amount: uint64) returns (ok: bool)
      modifies this
      ensures Outcome(Model(), ok) == Apply(old(Model()), Add(amount))
    {
      var newAvailable := WrapAdd(available, amount);
      if newAvailable < available {
        return false;
      }
      var newTotal := WrapAdd(total, amount);
      if newTotal < total {
        return false;
      }
      available := newAvailable;
      total := newTotal;
      ok := true;
    }

    method ApplyBuyTradeFund(amount: uint64, fee: uint64) returns (ok: bool)
      modifies this
      ensures Outcome(Model(), ok) == Apply(old(Model()), BuyTrade(amount, fee))
    {
      var sum := WrapAdd(amount, fee);
      if sum < amount {
        return false;
      }
      if available < sum {
        return false;
      }
      var newMarketValue := WrapAdd(marketValue, amount);
      if newMarketValue < marketValue {
        return false;
      }
      available := available - sum;
      total := if total < fee then 0 else total - fee;
      marketValue := newMarketValue;
      ok := true;
    }

    method ApplySellTradeFund(amount: uint64, fee: uint64) returns (ok: bool)
      modifies this
      ensures Outcome(Model(), ok) == Apply(old(Model()), SellTrade(amount, fee))
    {
      var newAvailable := available;
      if amount >= fee {
        newAvailable := WrapAdd(available, amount - fee);
        if newAvailable < available {
          return false;
        }
      } else {
        if available < fee - amount {
          return false;
        }
        newAvailable := available - (fee - amount);
      }
      marketValue := if marketValue < amount then 0 else marketValue - amount;
      total := if total < fee then 0 else total - fee;
      available := newAvailable;
      ok := true;
    }
  }
}
