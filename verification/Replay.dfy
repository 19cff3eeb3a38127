/**
  Straight-line replay: executing a list of transactions one after the other, with no skipping,
  simulation or rejection. It is the reference every executor of the builder is compared with.
 */
module Replay {
  import opened Prelude
  import opened Evm
  import opened Database
  import opened Execution
  import opened Overrides

  datatype Run = Run(db: Db, receipts: seq<Receipt>, senders: seq<Address>, gas: nat)

  /** The depositor nonce recorded in a receipt, read before the transaction executes. */
  function DepositNonce(env: Env, w: World, tx: Tx): Option<nat> {
    if env.regolith && tx.kind == Deposit then Some(NonceAt(w, tx.signer)) else None
  }

  function ExecTx(env: Env, r: Run, tx: Tx): Option<Run> {
    match env.transact(r.db.world, tx)
    case Done(result, change) =>
      var gas := r.gas + result.gasUsed;
      Some(Run(Commit(r.db, change),
               r.receipts + [BuildReceipt(env, tx, result, gas, DepositNonce(env, r.db.world, tx))],
               r.senders + [tx.signer], gas))
    case _ => None
  }

  /** `None` as soon as one transaction is not executable. */
  function ExecAll(env: Env, db0: Db, txs: seq<Tx>): Option<Run> {
    if txs == [] then Some(Run(db0, [], [], 0))
    else
      match ExecAll(env, db0, txs[..|txs| - 1])
      case None => None
      case Some(r) => ExecTx(env, r, txs[|txs| - 1])
  }

  function DaOf(txs: seq<Tx>): nat {
    if txs == [] then 0
    else
      var last := txs[|txs| - 1];
      DaOf(txs[..|txs| - 1]) + if last.kind == Deposit then 0 else last.daSize
  }

  /**
    The totals and the database are what straight-line replay of the recorded transactions gives:
    same database (including its transitions), receipts, senders and gas.
   */
  ghost predicate Replays(env: Env, db0: Db, info: Info, db: Db) {
    ExecAll(env, db0, info.txs) == Some(Run(db, info.receipts, info.senders, info.gas))
  }

  /** Replayable, with the DA total summed over the non-deposit transactions and every sender recoverable. */
  ghost predicate Consistent(env: Env, db0: Db, info: Info, db: Db) {
    && Replays(env, db0, info, db)
    && info.da == DaOf(info.txs)
    && forall tx :: tx in info.txs ==> tx.recoverable
  }

  lemma NothingExecutedIsConsistent(env: Env, db0: Db, info: Info)
    requires info.txs == [] && info.senders == [] && info.receipts == [] && info.gas == info.da == 0
    ensures Consistent(env, db0, info, db0)
  {
  }

  lemma RecordKeepsReplay(env: Env, db0: Db, info: Info, db: Db, tx: Tx, depositNonce: Option<nat>, da: nat, fee: nat)
    requires Replays(env, db0, info, db) && env.transact(db.world, tx).Done?
    requires tx.kind == Deposit ==> depositNonce == DepositNonce(env, db.world, tx)
    ensures
      var o := env.transact(db.world, tx);
      Replays(env, db0, Recorded(info, env, tx, o.result, depositNonce, da, fee), Commit(db, o.change))
  {
    var txs := info.txs + [tx];
    assert txs[..|txs| - 1] == info.txs;
  }

  /** Recording an executed transaction and committing its change keeps the totals consistent. */
  lemma RecordKeepsConsistent(env: Env, db0: Db, info: Info, db: Db, tx: Tx, depositNonce: Option<nat>, fee: nat)
    requires Consistent(env, db0, info, db) && tx.recoverable
    requires env.transact(db.world, tx).Done?
    requires tx.kind == Deposit ==> depositNonce == DepositNonce(env, db.world, tx)
    ensures
      var o := env.transact(db.world, tx);
      var da := if tx.kind == Deposit then 0 else tx.daSize;
      Consistent(env, db0, Recorded(info, env, tx, o.result, depositNonce, da, fee), Commit(db, o.change))
  {
    RecordKeepsReplay(env, db0, info, db, tx, depositNonce, if tx.kind == Deposit then 0 else tx.daSize, fee);
    var txs := info.txs + [tx];
    assert txs[..|txs| - 1] == info.txs;
  }

  /** Gas used by the i-th transaction of a replay. */
  function GasOf(env: Env, db0: Db, txs: seq<Tx>, i: nat): nat
    requires i < |txs|
  {
    var r := ExecAll(env, db0, txs[..i]);
    if r.None? then 0
    else
      var o := env.transact(r.value.db.world, txs[i]);
      if o.Done? then o.result.gasUsed else 0
  }

  function GasSum(env: Env, db0: Db, txs: seq<Tx>, n: nat): nat
    requires n <= |txs|
  {
    if n == 0 then 0 else GasSum(env, db0, txs, n - 1) + GasOf(env, db0, txs, n - 1)
  }

  lemma {:induction false} GasSumOfPrefix(env: Env, db0: Db, txs: seq<Tx>, m: nat, n: nat)
    requires n <= m <= |txs|
    ensures GasSum(env, db0, txs[..m], n) == GasSum(env, db0, txs, n)
  {
    if n > 0 {
      GasSumOfPrefix(env, db0, txs, m, n - 1);
      assert txs[..m][..n - 1] == txs[..n - 1];
    }
  }

  /** Replaying one transaction more. */
  function ExecNext(env: Env, before: Option<Run>, tx: Tx): Option<Run> {
    if before.None? then None else ExecTx(env, before.value, tx)
  }

  lemma ReplayOneMore(env: Env, db0: Db, txs: seq<Tx>, n: nat)
    requires n < |txs|
    ensures ExecAll(env, db0, txs[..n + 1]) == ExecNext(env, ExecAll(env, db0, txs[..n]), txs[n])
  {
    assert txs[..n + 1][..n] == txs[..n];
  }

  /**
    The receipt of the i-th transaction tells what executing it, on the state the transactions before it lead to,
    gave: status, logs and cumulative gas; for a deposit also, after Regolith, the nonce its sender had, and the
    receipt version that came with Canyon.
   */
  ghost predicate ReceiptIsTrue(env: Env, db0: Db, txs: seq<Tx>, i: nat, receipt: Receipt)
    requires i < |txs|
  {
    var before := ExecAll(env, db0, txs[..i]);
    && before.Some? && env.transact(before.value.db.world, txs[i]).Done?
    && (var w, tx := before.value.db.world, txs[i];
        var result := env.transact(w, tx).result;
        && receipt.success == result.success && receipt.logs == result.logs
        && receipt.cumulativeGas == before.value.gas + result.gasUsed == GasSum(env, db0, txs, i + 1)
        && receipt.depositNonce == (if env.regolith && tx.kind == Deposit then Some(NonceAt(w, tx.signer)) else None)
        && receipt.depositVersion == (if env.canyon && tx.kind == Deposit then Some(1) else None))
  }

  /** The last step of a replay. */
  lemma ReplayStep(env: Env, db0: Db, txs: seq<Tx>)
    requires txs != [] && ExecAll(env, db0, txs).Some?
    ensures
      var n := |txs| - 1;
      var before, r := ExecAll(env, db0, txs[..n]), ExecAll(env, db0, txs).value;
      && before.Some?
      && r.senders == before.value.senders + [txs[n].signer]
      && |r.receipts| == |before.value.receipts| + 1
      && r.receipts[..|r.receipts| - 1] == before.value.receipts
      && r.gas == before.value.gas + GasOf(env, db0, txs, n)
  {
  }

  lemma LastReceiptIsTrue(env: Env, db0: Db, txs: seq<Tx>, n: nat)
    requires n < |txs| && ExecAll(env, db0, txs[..n + 1]).Some? && ExecAll(env, db0, txs[..n]).Some?
    requires ExecAll(env, db0, txs[..n]).value.gas == GasSum(env, db0, txs, n)
    ensures
      var receipts := ExecAll(env, db0, txs[..n + 1]).value.receipts;
      receipts != [] && ReceiptIsTrue(env, db0, txs, n, receipts[|receipts| - 1])
  {
    ReplayOneMore(env, db0, txs, n);
  }

  /**
    Transactions, senders and receipts stay in lockstep, each receipt is true to its transaction, and the
    cumulative gas of the last one is the block's total.
   */
  lemma LedgerIsExact(env: Env, db0: Db, txs: seq<Tx>)
    requires ExecAll(env, db0, txs).Some?
    ensures
      var r := ExecAll(env, db0, txs).value;
      && |r.receipts| == |r.senders| == |txs|
      && r.gas == GasSum(env, db0, txs, |txs|)
      && forall i :: 0 <= i < |txs| ==>
           r.senders[i] == txs[i].signer && ReceiptIsTrue(env, db0, txs, i, r.receipts[i])
  {
    assert txs[..|txs|] == txs;
    LedgerUpTo(env, db0, txs, |txs|);
  }

  /** The first n entries of a ledger, and the gas they add up to. */
  ghost predicate Ledger(env: Env, db0: Db, txs: seq<Tx>, n: nat, r: Run)
    requires n <= |txs|
  {
    && |r.receipts| == |r.senders| == n && r.gas == GasSum(env, db0, txs, n)
    && forall i :: 0 <= i < n ==> r.senders[i] == txs[i].signer && ReceiptIsTrue(env, db0, txs, i, r.receipts[i])
  }

  lemma {:induction false} LedgerUpTo(env: Env, db0: Db, txs: seq<Tx>, n: nat)
    requires n <= |txs| && ExecAll(env, db0, txs[..n]).Some?
    ensures Ledger(env, db0, txs, n, ExecAll(env, db0, txs[..n]).value)
  {
    if n > 0 {
      assert txs[..n][..n - 1] == txs[..n - 1];
      ReplayStep(env, db0, txs[..n]);
      LedgerUpTo(env, db0, txs, n - 1);
      LastReceiptIsTrue(env, db0, txs, n - 1);
      LedgerGrows(env, db0, txs, n, ExecAll(env, db0, txs[..n - 1]).value, ExecAll(env, db0, txs[..n]).value);
    }
  }

  lemma LedgerGrows(env: Env, db0: Db, txs: seq<Tx>, n: nat, older: Run, r: Run)
    requires 0 < n <= |txs| && Ledger(env, db0, txs, n - 1, older)
    requires r.senders == older.senders + [txs[n - 1].signer]
    requires |r.receipts| == n && r.receipts[..n - 1] == older.receipts
    requires r.gas == older.gas + GasOf(env, db0, txs, n - 1) && ReceiptIsTrue(env, db0, txs, n - 1, r.receipts[n - 1])
    ensures Ledger(env, db0, txs, n, r)
  {
    forall i | 0 <= i < n
      ensures r.senders[i] == txs[i].signer && ReceiptIsTrue(env, db0, txs, i, r.receipts[i])
    {
      if i < n - 1 {
        assert r.receipts[i] == r.receipts[..n - 1][i];
      }
    }
  }

  lemma {:induction false} GasSumMonotone(env: Env, db0: Db, txs: seq<Tx>, m: nat, n: nat)
    requires m <= n <= |txs|
    ensures GasSum(env, db0, txs, m) <= GasSum(env, db0, txs, n)
  {
    if m < n {
      GasSumMonotone(env, db0, txs, m, n - 1);
    }
  }

  /** Every prefix of a replayable list is replayable. */
  lemma {:induction false} PrefixReplays(env: Env, db0: Db, txs: seq<Tx>, n: nat)
    requires ExecAll(env, db0, txs).Some? && n <= |txs|
    ensures ExecAll(env, db0, txs[..n]).Some?
    ensures n < |txs| ==> env.transact(ExecAll(env, db0, txs[..n]).value.db.world, txs[n]).Done?
  {
    if n == |txs| {
      assert txs[..n] == txs;
    } else {
      var before := txs[..|txs| - 1];
      PrefixReplays(env, db0, before, n);
      assert before[..n] == txs[..n];
    }
  }

  /** The next transaction of a list that replays executes. */
  lemma NextOfReplay(env: Env, db0: Db, info: Info, db: Db, all: seq<Tx>)
    requires Replays(env, db0, info, db) && info.txs < all && ExecAll(env, db0, all).Some?
    ensures env.transact(db.world, all[|info.txs|]).Done?
  {
    var n := |info.txs|;
    assert all[..n] == info.txs;
    PrefixReplays(env, db0, all, n);
  }

  /** Adding transactions at the end changes nothing about the receipts before them. */
  lemma {:induction false} ReceiptsOfPrefix(env: Env, db0: Db, txs: seq<Tx>, n: nat)
    requires ExecAll(env, db0, txs).Some? && n <= |txs|
    ensures ExecAll(env, db0, txs[..n]).Some? && n <= |ExecAll(env, db0, txs).value.receipts| == |txs|
    ensures ExecAll(env, db0, txs).value.receipts[..n] == ExecAll(env, db0, txs[..n]).value.receipts
  {
    LedgerIsExact(env, db0, txs);
    if n == |txs| {
      assert txs[..n] == txs;
    } else {
      var before := txs[..|txs| - 1];
      ReplayStep(env, db0, txs);
      ReceiptsOfPrefix(env, db0, before, n);
      assert before[..n] == txs[..n];
    }
  }

  /** A replay keeps the bundle and the parent state, and keeps the transition record exact. */
  lemma {:induction false} ReplayTracks(env: Env, db0: Db, txs: seq<Tx>)
    requires WellBehaved(env) && Tracks(db0)
    requires ExecAll(env, db0, txs).Some?
    ensures Tracks(ExecAll(env, db0, txs).value.db)
    ensures ExecAll(env, db0, txs).value.db.bundle == db0.bundle
    ensures ExecAll(env, db0, txs).value.db.parent == db0.parent
  {
    if txs != [] {
      var r := ExecAll(env, db0, txs[..|txs| - 1]).value;
      ReplayTracks(env, db0, txs[..|txs| - 1]);
      var tx := txs[|txs| - 1];
      var o := env.transact(r.db.world, tx);
      assert OutcomeOk(env, r.db.world, tx, o);
      CommitTracks(r.db, o.change);
    }
  }
}
