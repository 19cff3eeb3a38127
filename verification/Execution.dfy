/** The running totals of a block under construction and the limits a transaction must fit in. */
module Execution {
  import opened Prelude
  import opened Evm

  /** Value of `ExecutionInfo`. `lastIndex` is the number of transactions already put in a flashblock. */
  datatype Info = Info(txs: seq<Tx>, senders: seq<Address>, receipts: seq<Receipt>,
                       gas: nat, da: nat, fees: nat, lastIndex: nat, scalar: Option<nat>,
                       blobFields: Option<(Option<nat>, Option<nat>)>)

  const EMPTY_INFO := Info([], [], [], 0, 0, 0, 0, None, None)

  function BuildReceipt(env: Env, tx: Tx, result: ExecResult, cumulativeGas: nat, depositNonce: Option<nat>): Receipt {
    if tx.kind == Deposit then
      Receipt(result.success, cumulativeGas, result.logs, depositNonce, if env.canyon then Some(1) else None)
    else
      Receipt(result.success, cumulativeGas, result.logs, None, None)
  }

  /** Appends one executed transaction. */
  function Recorded(info: Info, env: Env, tx: Tx, result: ExecResult, depositNonce: Option<nat>, da: nat, fee: nat)
    : Info
  {
    var gas := info.gas + result.gasUsed;
    info.(txs := info.txs + [tx], senders := info.senders + [tx.signer],
          receipts := info.receipts + [BuildReceipt(env, tx, result, gas, depositNonce)],
          gas := gas, da := info.da + da, fees := info.fees + fee)
  }

  /** The mutable totals that every executor pushes onto. */
  class ExecutionInfo {
    var executedTransactions: seq<Tx>
    var executedSenders: seq<Address>
    var receipts: seq<Receipt>
    var cumulativeGasUsed: nat
    var cumulativeDaBytesUsed: nat
    var totalFees: nat
    var lastFlashblockIndex: nat
    var daFootprintScalar: Option<nat>
    var optionalBlobFields: Option<(Option<nat>, Option<nat>)>

    function Val(): Info
      reads this
    {
      Info(executedTransactions, executedSenders, receipts, cumulativeGasUsed, cumulativeDaBytesUsed,
           totalFees, lastFlashblockIndex, daFootprintScalar, optionalBlobFields)
    }

    constructor ()
      ensures Val() == EMPTY_INFO
    {
      executedTransactions, executedSenders, receipts := [], [], [];
      cumulativeGasUsed, cumulativeDaBytesUsed, totalFees := 0, 0, 0;
      lastFlashblockIndex, daFootprintScalar, optionalBlobFields := 0, None, None;
    }

    method Record(env: Env, tx: Tx, result: ExecResult, depositNonce: Option<nat>, da: nat, fee: nat)
      modifies this
      ensures Val() == Recorded(old(Val()), env, tx, result, depositNonce, da, fee)
    {
      cumulativeGasUsed := cumulativeGasUsed + result.gasUsed;
      cumulativeDaBytesUsed := cumulativeDaBytesUsed + da;
      receipts := receipts + [BuildReceipt(env, tx, result, cumulativeGasUsed, depositNonce)];
      totalFees := totalFees + fee;
      executedSenders := executedSenders + [tx.signer];
      executedTransactions := executedTransactions + [tx];
    }
  }

  /* Limits */

  /** Limits in force while transactions are executed: block gas, DA per transaction, DA per block, DA footprint. */
  datatype Limits = Limits(gas: nat, txDa: Option<nat>, blockDa: Option<nat>, footprint: Option<nat>)

  datatype LimitError =
    | TransactionDaLimitExceeded
    | BlockDaLimitExceeded(used: nat, size: nat, limit: nat)
    | TransactionGasLimitExceeded(used: nat, txLimit: nat, limit: nat)

  /** `is_tx_over_limits`: `None` means the transaction is let through. */
  function OverLimits(info: Info, lim: Limits, txDa: nat, txGas: nat): Option<LimitError> {
    var totalDa := SatAdd(info.da, txDa);
    if lim.txDa.Some? && txDa > lim.txDa.value then
      Some(TransactionDaLimitExceeded)
    else if lim.blockDa.Some? && totalDa > lim.blockDa.value then
      Some(BlockDaLimitExceeded(info.da, txDa, lim.blockDa.value))
    else if info.scalar.Some? && SatMul(totalDa, info.scalar.value) > lim.footprint.GetOr(lim.gas) then
      Some(BlockDaLimitExceeded(totalDa, txDa, SatMul(totalDa, info.scalar.value)))
    else if WrapAdd(info.gas, txGas) > lim.gas then
      Some(TransactionGasLimitExceeded(info.gas, txGas, lim.gas))
    else
      None
  }

  /** The DA limits in exact arithmetic: per transaction, per block and as a footprint. */
  predicate DaFits(info: Info, lim: Limits, txDa: nat) {
    && (lim.txDa.Some? ==> txDa <= lim.txDa.value)
    && (lim.blockDa.Some? ==> info.da + txDa <= lim.blockDa.value)
    && (info.scalar.Some? ==> (info.da + txDa) * info.scalar.value <= lim.footprint.GetOr(lim.gas))
  }

  /** All limits in exact arithmetic. */
  predicate Fits(info: Info, lim: Limits, txDa: nat, txGas: nat) {
    DaFits(info, lim, txDa) && info.gas + txGas <= lim.gas
  }

  /** All limits are below the largest u64, as every configured value is. */
  predicate Bounded(lim: Limits) {
    && lim.gas < U64_MAX
    && (lim.blockDa.Some? ==> lim.blockDa.value < U64_MAX)
    && (lim.footprint.Some? ==> lim.footprint.value < U64_MAX)
  }

  lemma SaturationIsHarmless(info: Info, lim: Limits, txDa: nat)
    requires Bounded(lim) && info.scalar.Some?
    ensures SatMul(SatAdd(info.da, txDa), info.scalar.value) > lim.footprint.GetOr(lim.gas)
       <==> (info.da + txDa) * info.scalar.value > lim.footprint.GetOr(lim.gas)
  {
    var total, k := info.da + txDa, info.scalar.value;
    if total > U64_MAX && k > 0 {
      MulLe(1, k, total);
      MulLe(1, k, U64_MAX);
    }
  }

  lemma DaChecksAreExact(info: Info, lim: Limits, txDa: nat, txGas: nat)
    requires Bounded(lim)
    ensures OverLimits(info, lim, txDa, txGas).None? <==> DaFits(info, lim, txDa) && WrapAdd(info.gas, txGas) <= lim.gas
  {
    if info.scalar.Some? {
      SaturationIsHarmless(info, lim, txDa);
    }
  }

  /** The sum wraps around to a value within the limit. */
  predicate WrapsUnder(limit: nat, a: nat, b: nat) {
    U64_MAX < a + b <= U64_MAX + 1 + limit
  }

  lemma WrappedSum(limit: nat, a: nat, b: nat)
    requires a <= U64_MAX && b <= U64_MAX && limit < U64_MAX
    ensures WrapAdd(a, b) <= limit <==> a + b <= limit || WrapsUnder(limit, a, b)
  {
    if a + b > U64_MAX {
      WrapsOnce(a, b);
    }
  }

  /**
    The check decides as exact arithmetic does, if and only if the transaction's DA does not fit anyway
    or its gas does not wrap around to a total within the limit.
   */
  lemma LimitCheckIsExact(info: Info, lim: Limits, txDa: nat, txGas: nat)
    requires Bounded(lim) && info.gas <= U64_MAX && txGas <= U64_MAX
    ensures (OverLimits(info, lim, txDa, txGas).None? <==> Fits(info, lim, txDa, txGas))
       <==> !(DaFits(info, lim, txDa) && WrapsUnder(lim.gas, info.gas, txGas))
  {
    DaChecksAreExact(info, lim, txDa, txGas);
    WrappedSum(lim.gas, info.gas, txGas);
  }

  /** The first check that fails is the one reported, with the figures it compared. */
  lemma LimitErrorsAreExact(info: Info, lim: Limits, txDa: nat, txGas: nat)
    requires Bounded(lim) && info.da + txDa <= U64_MAX
    ensures
      var sized := lim.txDa.Some? ==> txDa <= lim.txDa.value;
      var fitting := lim.blockDa.Some? ==> info.da + txDa <= lim.blockDa.value;
      match OverLimits(info, lim, txDa, txGas)
      case None => DaFits(info, lim, txDa) && WrapAdd(info.gas, txGas) <= lim.gas
      case Some(TransactionDaLimitExceeded) => !sized
      case Some(BlockDaLimitExceeded(used, size, limit)) =>
        && sized && size == txDa
        && (if !fitting then used == info.da && Some(limit) == lim.blockDa
            else used == info.da + txDa && info.scalar.Some? && lim.footprint.GetOr(lim.gas) < limit
                 && limit == Min(used * info.scalar.value, U64_MAX))
      case Some(TransactionGasLimitExceeded(used, asked, limit)) =>
        && DaFits(info, lim, txDa) && lim.gas < WrapAdd(info.gas, txGas)
        && used == info.gas && asked == txGas && limit == lim.gas
  {
    DaChecksAreExact(info, lim, txDa, txGas);
    if info.scalar.Some? {
      SaturationIsHarmless(info, lim, txDa);
    }
  }

  /** The overflow is real: a gas limit of 2^64 - 1 passes a gas limit of zero once one unit is used. */
  lemma GasAdditionCanWrap()
    ensures
      var info := EMPTY_INFO.(gas := 1);
      var lim := Limits(0, None, None, None);
      OverLimits(info, lim, 0, U64_MAX).None? && !Fits(info, lim, 0, U64_MAX)
  {
    assert WrapAdd(1, U64_MAX) == 0;
  }
}
