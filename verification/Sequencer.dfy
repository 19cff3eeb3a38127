/** Executing the transactions the sequencer put in the payload attributes. */
module Sequencer {
  import opened Prelude
  import opened Evm
  import opened Database
  import opened Execution
  import opened Replay

  datatype Batch =
    | Executed(info: Info, db: Db)
    | BlobTransactionRejected
    | RecoverFailed
    | EvmError

  /** Invalid transactions are skipped; blobs, unrecoverable senders and EVM failures end the attempt. */
  function RunSequencer(env: Env, info: Info, db: Db, txs: seq<Tx>): Batch
    decreases |txs|
  {
    if txs == [] then Executed(info, db)
    else
      var tx := txs[0];
      if tx.kind == Blob then BlobTransactionRejected
      else if !tx.recoverable then RecoverFailed
      else
        match env.transact(db.world, tx)
        case Fatal => EvmError
        case Invalid(_) => RunSequencer(env, info, db, txs[1..])
        case Done(result, change) => RunSequencer(env, Sequenced(env, info, db, tx, result), Commit(db, change),
            txs[1..])
  }

  function Sequenced(env: Env, info: Info, db: Db, tx: Tx, result: ExecResult): Info {
    Recorded(info, env, tx, result, DepositNonce(env, db.world, tx), if tx.kind == Deposit then 0 else tx.daSize, 0)
  }

  /** The DA footprint scalar is read once, after the sequencer transactions. */
  function WithScalar(env: Env, info: Info, db: Db): Info {
    info.(scalar := if env.jovian then Some(env.scalarOf(db.world)) else None)
  }

  method ExecuteSequencerTransactions(env: Env, attributes: seq<Tx>, db: StateDb)
    returns (ok: bool, info: ExecutionInfo)
    modifies db
    ensures fresh(info)
    ensures
      var r := RunSequencer(env, EMPTY_INFO, old(db.Val()), attributes);
      && ok == r.Executed?
      && (ok ==> db.Val() == r.db && info.Val() == WithScalar(env, r.info, r.db))
    ensures ok ==> info.daFootprintScalar == if env.jovian then Some(env.scalarOf(db.world)) else None
  {
    info := new ExecutionInfo();
    ok := true;
    for i := 0 to |attributes|
      invariant fresh(info)
      invariant RunSequencer(env, info.Val(), db.Val(), attributes[i..]) ==
                RunSequencer(env, EMPTY_INFO, old(db.Val()), attributes)
    {
      var tx := attributes[i];
      assert attributes[i..][0] == tx && attributes[i..][1..] == attributes[i + 1..];
      if tx.kind == Blob || !tx.recoverable {
        return false, info;
      }
      var depositNonce := DepositNonce(env, db.world, tx);
      var outcome := env.transact(db.world, tx);
      if outcome.Fatal? {
        return false, info;
      }
      if outcome.Done? {
        info.Record(env, tx, outcome.result, depositNonce, if tx.kind == Deposit then 0 else tx.daSize, 0);
        db.CommitChange(outcome.change);
      }
    }
    assert attributes[|attributes|..] == [];
    info.daFootprintScalar := if env.jovian then Some(env.scalarOf(db.world)) else None;
  }

  /** What has been executed replays, whatever was skipped. */
  lemma {:induction false} SequencerKeepsConsistent(env: Env, db0: Db, info: Info, db: Db, txs: seq<Tx>)
    requires Consistent(env, db0, info, db)
    requires RunSequencer(env, info, db, txs).Executed?
    ensures
      var r := RunSequencer(env, info, db, txs);
      && Consistent(env, db0, r.info, r.db)
      && r.info.fees == info.fees && r.info.lastIndex == info.lastIndex && r.info.blobFields == info.blobFields
    decreases |txs|
  {
    if txs != [] {
      match env.transact(db.world, txs[0])
      case Done(result, change) =>
        RecordKeepsConsistent(env, db0, info, db, txs[0], DepositNonce(env, db.world, txs[0]), 0);
        SequencerKeepsConsistent(env, db0, Sequenced(env, info, db, txs[0], result), Commit(db, change), txs[1..]);
      case Invalid(_) => SequencerKeepsConsistent(env, db0, info, db, txs[1..]);
      case Fatal =>
    }
  }

  lemma NextReplays(env: Env, db0: Db, info: Info, db: Db, txs: seq<Tx>)
    requires Consistent(env, db0, info, db) && txs != []
    requires ExecAll(env, db0, info.txs + txs).Some?
    ensures env.transact(db.world, txs[0]).Done?
    ensures info.txs + [txs[0]] + txs[1..] == info.txs + txs
  {
    var all := info.txs + txs;
    assert all[|info.txs|] == txs[0];
    NextOfReplay(env, db0, info, db, all);
  }

  /** Conversely, a list that replays as it stands is executed in full. */
  lemma {:induction false} ReplayableListIsExecuted(env: Env, db0: Db, info: Info, db: Db, txs: seq<Tx>)
    requires Consistent(env, db0, info, db)
    requires ExecAll(env, db0, info.txs + txs).Some?
    requires forall tx :: tx in txs ==> tx.recoverable && tx.kind != Blob
    ensures
      var r := RunSequencer(env, info, db, txs);
      r.Executed? && r.info.txs == info.txs + txs
    decreases |txs|
  {
    if txs == [] {
      assert info.txs + txs == info.txs;
    } else {
      NextReplays(env, db0, info, db, txs);
      var o := env.transact(db.world, txs[0]);
      RecordKeepsConsistent(env, db0, info, db, txs[0], DepositNonce(env, db.world, txs[0]), 0);
      var next := Sequenced(env, info, db, txs[0], o.result);
      ReplayableListIsExecuted(env, db0, next, Commit(db, o.change), txs[1..]);
    }
  }

  /* Which transactions are executed */

  /** What a list comes down to: each transaction that replays after those before it that do. */
  function Executable(env: Env, db0: Db, txs: seq<Tx>): seq<Tx> {
    if txs == [] then []
    else
      var before := Executable(env, db0, txs[..|txs| - 1]);
      var more := before + [txs[|txs| - 1]];
      if ExecAll(env, db0, more).Some? then more else before
  }

  /** The state it leads to. */
  function WorldAfter(env: Env, db0: Db, txs: seq<Tx>): World {
    match ExecAll(env, db0, Executable(env, db0, txs))
    case Some(r) => r.db.world
    case None => db0.world
  }

  /** The i-th transaction does not end the attempt. */
  predicate Tolerated(env: Env, db0: Db, txs: seq<Tx>, i: nat)
    requires i < |txs|
  {
    && txs[i].kind != Blob && txs[i].recoverable
    && env.transact(WorldAfter(env, db0, txs[..i]), txs[i]) != Fatal
  }

  lemma ExecutableOneMore(env: Env, db0: Db, info: Info, db: Db, txs: seq<Tx>, n: nat)
    requires n < |txs| && Replays(env, db0, info, db) && info.txs == Executable(env, db0, txs[..n])
    ensures WorldAfter(env, db0, txs[..n]) == db.world
    ensures Executable(env, db0, txs[..n + 1]) ==
        if env.transact(db.world, txs[n]).Done? then info.txs + [txs[n]] else info.txs
  {
    assert txs[..n + 1][..n] == txs[..n];
    var more := info.txs + [txs[n]];
    assert more[..|more| - 1] == info.txs;
  }

  /** Past transactions that do not end the attempt, what has been executed is what they come down to. */
  lemma {:induction false} SequencerReaches(env: Env, db0: Db, txs: seq<Tx>, n: nat) returns (info: Info, db: Db)
    requires n <= |txs| && forall i :: 0 <= i < n ==> Tolerated(env, db0, txs, i)
    ensures Consistent(env, db0, info, db) && info.txs == Executable(env, db0, txs[..n])
    ensures RunSequencer(env, EMPTY_INFO, db0, txs) == RunSequencer(env, info, db, txs[n..])
  {
    if n == 0 {
      info, db := EMPTY_INFO, db0;
      NothingExecutedIsConsistent(env, db0, EMPTY_INFO);
      assert txs[0..] == txs;
    } else {
      info, db := SequencerReaches(env, db0, txs, n - 1);
      var tx, o := txs[n - 1], env.transact(db.world, txs[n - 1]);
      assert Tolerated(env, db0, txs, n - 1) && txs[n - 1..][0] == tx && txs[n - 1..][1..] == txs[n..];
      ExecutableOneMore(env, db0, info, db, txs, n - 1);
      if o.Done? {
        RecordKeepsConsistent(env, db0, info, db, tx, DepositNonce(env, db.world, tx), 0);
        info, db := Sequenced(env, info, db, tx, o.result), Commit(db, o.change);
      }
    }
  }

  /** The attempt succeeds if no transaction ends it, with exactly what the list comes down to. */
  lemma ToleratedListIsExecuted(env: Env, db0: Db, txs: seq<Tx>)
    requires forall i :: 0 <= i < |txs| ==> Tolerated(env, db0, txs, i)
    ensures
      var r := RunSequencer(env, EMPTY_INFO, db0, txs);
      r.Executed? && r.info.txs == Executable(env, db0, txs) && r.db.world == WorldAfter(env, db0, txs)
  {
    var info, db := SequencerReaches(env, db0, txs, |txs|);
    assert txs[|txs|..] == [] && txs[..|txs|] == txs;
  }

  /** The first transaction that is not tolerated ends the attempt, and says why. */
  lemma FirstIntolerableEnds(env: Env, db0: Db, txs: seq<Tx>, n: nat)
    requires n < |txs| && !Tolerated(env, db0, txs, n) && forall i :: 0 <= i < n ==> Tolerated(env, db0, txs, i)
    ensures RunSequencer(env, EMPTY_INFO, db0, txs) ==
        if txs[n].kind == Blob then BlobTransactionRejected
        else if !txs[n].recoverable then RecoverFailed
        else EvmError
  {
    var info, db := SequencerReaches(env, db0, txs, n);
    ExecutableOneMore(env, db0, info, db, txs, n);
    assert txs[n..][0] == txs[n];
  }

  /**
    The sequencer's list is executed if and only if it holds no blob, no unrecoverable sender and no EVM failure, and
    then exactly the transactions that replay one after the other are in the block.
   */
  lemma SequencerIsExact(env: Env, db0: Db, txs: seq<Tx>)
    ensures
      var r := RunSequencer(env, EMPTY_INFO, db0, txs);
      && (r.Executed? <==> forall i :: 0 <= i < |txs| ==> Tolerated(env, db0, txs, i))
      && (r.Executed? ==> r.info.txs == Executable(env, db0, txs) && r.db.world == WorldAfter(env, db0, txs))
  {
    if forall i :: 0 <= i < |txs| ==> Tolerated(env, db0, txs, i) {
      ToleratedListIsExecuted(env, db0, txs);
    } else {
      var n := FirstIntolerable(env, db0, txs, 0);
      FirstIntolerableEnds(env, db0, txs, n);
    }
  }

  lemma FirstIntolerable(env: Env, db0: Db, txs: seq<Tx>, from: nat) returns (n: nat)
    requires from <= |txs| && (forall i :: 0 <= i < from ==> Tolerated(env, db0, txs, i))
    requires !forall i :: 0 <= i < |txs| ==> Tolerated(env, db0, txs, i)
    ensures n < |txs| && !Tolerated(env, db0, txs, n) && forall i :: 0 <= i < n ==> Tolerated(env, db0, txs, i)
    decreases |txs| - from
  {
    if Tolerated(env, db0, txs, from) {
      n := FirstIntolerable(env, db0, txs, from + 1);
    } else {
      n := from;
    }
  }
}
