/** A peer re-executing a block it received: `execute_flashblock`. */
module Peer {
  import opened Prelude
  import opened Evm
  import opened Database
  import opened Execution
  import opened Replay
  import opened Sealing
  import opened Sequencer

  /** Every transaction must execute, stay under the per-transaction cap and keep the total under the header's gas. */
  predicate PeerTakes(env: Env, cap: Option<nat>, gasLimit: nat, info: Info, w: World, tx: Tx) {
    var o := env.transact(w, tx);
    && tx.recoverable
    && o.Done?
    && (cap.Some? ==> o.result.gasUsed <= cap.value)
    && info.gas + o.result.gasUsed <= U64_MAX
    && info.gas + o.result.gasUsed <= gasLimit
  }

  function PeerRecorded(env: Env, info: Info, w: World, tx: Tx, result: ExecResult): Info {
    Recorded(info, env, tx, result, DepositNonce(env, w, tx), 0, 0)
  }

  function PeerRun(env: Env, cap: Option<nat>, gasLimit: nat, info: Info, db: Db, txs: seq<Tx>): Option<(Info, Db)>
    decreases |txs|
  {
    if txs == [] then Some((info, db))
    else if !PeerTakes(env, cap, gasLimit, info, db.world, txs[0]) then None
    else
      var o := env.transact(db.world, txs[0]);
      PeerRun(env, cap, gasLimit, PeerRecorded(env, info, db.world, txs[0], o.result), Commit(db, o.change), txs[1..])
  }

  method ExecuteTransactions(env: Env, cap: Option<nat>, gasLimit: nat, info: ExecutionInfo, db: StateDb, txs: seq<Tx>)
    returns (ok: bool)
    modifies info, db
    ensures
      var r := PeerRun(env, cap, gasLimit, old(info.Val()), old(db.Val()), txs);
      && ok == r.Some?
      && (ok ==> info.Val() == WithScalar(env, r.value.0, r.value.1) && db.Val() == r.value.1)
    ensures ok ==> info.daFootprintScalar == if env.jovian then Some(env.scalarOf(db.world)) else None
  {
    for i := 0 to |txs|
      invariant PeerRun(env, cap, gasLimit, info.Val(), db.Val(), txs[i..]) ==
                PeerRun(env, cap, gasLimit, old(info.Val()), old(db.Val()), txs)
    {
      var tx := txs[i];
      assert txs[i..][0] == tx && txs[i..][1..] == txs[i + 1..];
      if !tx.recoverable {
        return false;
      }
      var depositNonce := DepositNonce(env, db.world, tx);
      var outcome := env.transact(db.world, tx);
      if !outcome.Done? {
        return false;
      }
      var gasUsed := outcome.result.gasUsed;
      if cap.Some? && gasUsed > cap.value {
        return false;
      }
      var total := info.cumulativeGasUsed + gasUsed;
      if total > U64_MAX || total > gasLimit {
        return false;
      }
      info.Record(env, tx, outcome.result, depositNonce, 0, 0);
      db.CommitChange(outcome.change);
    }
    assert txs[|txs|..] == [];
    info.daFootprintScalar := if env.jovian then Some(env.scalarOf(db.world)) else None;
    return true;
  }

  /* Re-executing a block */

  /**
    The execution environment of the block as a function of its gas limit. The builder takes that limit
    from the attributes or the parent, but puts the operator's limit into the header; the peer only
    has the header.
   */
  type Chain = nat -> Env

  /** Only what the EVM does depends on the gas limit. */
  ghost predicate Coherent(chain: Chain, env: Env) {
    && chain(env.gasLimit) == env
    && forall g: nat :: chain(g) == env.(gasLimit := g, transact := chain(g).transact)
  }

  /** A peer's totals before it executes a block: the blob fields come from the header it received. */
  function PeerInfo(header: Header): Info {
    EMPTY_INFO.(blobFields := Some((header.excessBlobGas, header.blobGasUsed)))
  }

  function PeerCtx(chain: Chain, ctx: BlockCtx, header: Header): BlockCtx {
    ctx.(env := chain(header.gasLimit), blockGasLimit := header.gasLimit)
  }

  /** The header a peer ends up with, if every transaction goes through. It always computes the state root. */
  function PeerHeader(ctx: BlockCtx, cap: Option<nat>, db0: Db, header: Header): Option<Header> {
    match PeerRun(ctx.env, cap, header.gasUsed, PeerInfo(header), db0, header.txs)
    case None => None
    case Some((info, db)) => Some(PayloadOf(ctx, WithScalar(ctx.env, info, db), db, true).header)
  }

  /** What consensus validation asks of the header before anything is executed, in the fields modelled here. */
  predicate ValidHeader(ctx: BlockCtx, header: Header) {
    header.gasUsed <= header.gasLimit && header.number == ctx.parentNumber + 1
  }

  /** The peer keeps a block with a valid header only if rebuilding it gives the same hash. */
  predicate Accepts(chain: Chain, ctx: BlockCtx, cap: Option<nat>, db0: Db, header: Header) {
    var peer := PeerCtx(chain, ctx, header);
    ValidHeader(ctx, header) && Sealable(peer) && PeerHeader(peer, cap, db0, header) == Some(header)
  }

  method ExecuteFlashblock(chain: Chain, ctx: BlockCtx, cap: Option<nat>, db: StateDb, payload: Payload)
    returns (accepted: bool)
    modifies db
    ensures accepted == Accepts(chain, ctx, cap, old(db.Val()), payload.header)
  {
    var header := payload.header;
    if !ValidHeader(ctx, header) {
      return false;
    }
    var peer := PeerCtx(chain, ctx, header);
    var info := new ExecutionInfo();
    info.optionalBlobFields := Some((header.excessBlobGas, header.blobGasUsed));
    assert info.Val() == PeerInfo(header);
    var ok := ExecuteTransactions(peer.env, cap, header.gasUsed, info, db, header.txs);
    if !ok {
      return false;
    }
    PeerRunInLockstep(peer.env, cap, old(db.Val()), header);
    var built := BuildBlock(peer, info, db, true);
    return built.Some? && built.value.0.header == header;
  }

  /** What a peer has executed is a straight replay. */
  lemma {:induction false} PeerRunReplays(env: Env, cap: Option<nat>, gasLimit: nat, db0: Db, info: Info, db: Db,
                                          txs: seq<Tx>)
    requires Replays(env, db0, info, db)
    requires PeerRun(env, cap, gasLimit, info, db, txs).Some?
    ensures
      var (info', db') := PeerRun(env, cap, gasLimit, info, db, txs).value;
      && Replays(env, db0, info', db')
      && info'.txs == info.txs + txs
      && info'.lastIndex == info.lastIndex && info'.blobFields == info.blobFields
    decreases |txs|
  {
    if txs == [] {
      assert info.txs + txs == info.txs;
    } else {
      var next, db' := PeerNext(env, cap, gasLimit, db0, info, db, txs);
      PeerRunReplays(env, cap, gasLimit, db0, next, db', txs[1..]);
    }
  }

  /** One transaction of a peer's run. */
  lemma PeerNext(env: Env, cap: Option<nat>, gasLimit: nat, db0: Db, info: Info, db: Db, txs: seq<Tx>)
    returns (next: Info, db': Db)
    requires Replays(env, db0, info, db) && txs != [] && PeerTakes(env, cap, gasLimit, info, db.world, txs[0])
    ensures Replays(env, db0, next, db')
    ensures PeerRun(env, cap, gasLimit, info, db, txs) == PeerRun(env, cap, gasLimit, next, db', txs[1..])
    ensures next.txs == info.txs + [txs[0]] && next.txs + txs[1..] == info.txs + txs
    ensures next.gas == info.gas + env.transact(db.world, txs[0]).result.gasUsed
    ensures next.lastIndex == info.lastIndex && next.blobFields == info.blobFields
  {
    var o := env.transact(db.world, txs[0]);
    next, db' := PeerRecorded(env, info, db.world, txs[0], o.result), Commit(db, o.change);
    RecordKeepsReplay(env, db0, info, db, txs[0], DepositNonce(env, db.world, txs[0]), 0, 0);
  }

  lemma PeerRunInLockstep(env: Env, cap: Option<nat>, db0: Db, header: Header)
    requires PeerRun(env, cap, header.gasUsed, PeerInfo(header), db0, header.txs).Some?
    ensures
      var info := PeerRun(env, cap, header.gasUsed, PeerInfo(header), db0, header.txs).value.0;
      info.lastIndex == 0 && |info.txs| == |info.receipts|
  {
    PeerRunReplays(env, cap, header.gasUsed, db0, PeerInfo(header), db0, header.txs);
    LedgerIsExact(env, db0, PeerRun(env, cap, header.gasUsed, PeerInfo(header), db0, header.txs).value.0.txs);
  }

  /* When a run succeeds */

  /** No transaction of the block, deposits included, used more than the cap. */
  ghost predicate UnderCap(env: Env, cap: Option<nat>, db0: Db, txs: seq<Tx>, from: nat) {
    cap.Some? ==> forall i :: from <= i < |txs| ==> GasOf(env, db0, txs, i) <= cap.value
  }

  /** Everything from some transaction on executes, within cap and limit. */
  ghost predicate Passes(env: Env, cap: Option<nat>, gasLimit: nat, db0: Db, txs: seq<Tx>, from: nat) {
    var r := ExecAll(env, db0, txs);
    && r.Some?
    && (forall i :: from <= i < |txs| ==> txs[i].recoverable)
    && UnderCap(env, cap, db0, txs, from)
    && (from < |txs| ==> r.value.gas <= Min(gasLimit, U64_MAX))
  }

  /** The next transaction of a list that replays. */
  lemma StepOfReplay(env: Env, db0: Db, info: Info, db: Db, all: seq<Tx>)
    requires Replays(env, db0, info, db) && info.txs < all && ExecAll(env, db0, all).Some?
    ensures
      var n := |info.txs|;
      var o := env.transact(db.world, all[n]);
      && o.Done? && o.result.gasUsed == GasOf(env, db0, all, n)
      && info.gas + o.result.gasUsed <= ExecAll(env, db0, all).value.gas
  {
    var n := |info.txs|;
    assert all[..n] == info.txs;
    PrefixReplays(env, db0, all, n);
    LedgerIsExact(env, db0, all);
    LedgerIsExact(env, db0, info.txs);
    GasSumOfPrefix(env, db0, all, n, n);
    GasSumMonotone(env, db0, all, n + 1, |all|);
  }

  lemma PassesStep(env: Env, cap: Option<nat>, gasLimit: nat, db0: Db, info: Info, db: Db, all: seq<Tx>)
    requires Replays(env, db0, info, db) && info.txs < all
    ensures Passes(env, cap, gasLimit, db0, all, |info.txs|) ==>
              PeerTakes(env, cap, gasLimit, info, db.world, all[|info.txs|])
    ensures
      var n := |info.txs|;
      n + 1 < |all| && PeerTakes(env, cap, gasLimit, info, db.world, all[n]) ==>
        (Passes(env, cap, gasLimit, db0, all, n) <==> Passes(env, cap, gasLimit, db0, all, n + 1))
  {
    if ExecAll(env, db0, all).Some? {
      StepOfReplay(env, db0, info, db, all);
    }
  }

  lemma PassesAtLast(env: Env, cap: Option<nat>, gasLimit: nat, db0: Db, info: Info, db: Db, all: seq<Tx>)
    requires Replays(env, db0, info, db) && all != [] && info.txs == all[..|all| - 1]
    requires PeerTakes(env, cap, gasLimit, info, db.world, all[|all| - 1])
    ensures Passes(env, cap, gasLimit, db0, all, |all| - 1)
  {
    assert ExecAll(env, db0, all[..|all| - 1]).value.db == db;
  }

  /**
    A peer executes a block in full if and only if it replays in the peer's own environment, within cap and
    header gas.
   */
  lemma {:induction false} PeerRunSucceedsIff(env: Env, cap: Option<nat>, gasLimit: nat, db0: Db, info: Info, db: Db,
                                              txs: seq<Tx>, all: seq<Tx>)
    requires Replays(env, db0, info, db) && all == info.txs + txs
    ensures PeerRun(env, cap, gasLimit, info, db, txs).Some? <==> Passes(env, cap, gasLimit, db0, all, |info.txs|)
    decreases |txs|
  {
    if txs == [] {
      assert all == info.txs;
    } else {
      assert all[|info.txs|] == txs[0];
      PassesStep(env, cap, gasLimit, db0, info, db, all);
      if PeerTakes(env, cap, gasLimit, info, db.world, txs[0]) {
        var next, db' := PeerNext(env, cap, gasLimit, db0, info, db, txs);
        PeerRunSucceedsIff(env, cap, gasLimit, db0, next, db', txs[1..], all);
        if |txs| == 1 {
          assert info.txs == all[..|all| - 1];
          PassesAtLast(env, cap, gasLimit, db0, info, db, all);
        }
      }
    }
  }

  /* When a block is accepted */

  /** The peer's own replay of the block gives the same receipts, gas and root. */
  ghost predicate ReplaysAlike(env: Env, cap: Option<nat>, db0: Db, header: Header) {
    && Passes(env, cap, header.gasUsed, db0, header.txs, 0)
    && (var r := ExecAll(env, db0, header.txs).value;
        && r.receipts == header.receipts && r.gas == header.gasUsed
        && env.rootOf(r.db.parent, MergeTransitions(r.db).bundle.state) == header.stateRoot)
  }

  /** Totals and database of a run through all transactions of a block. */
  ghost predicate Rebuilds(env: Env, db0: Db, header: Header, info: Info, db: Db) {
    info.txs == header.txs && info.blobFields == PeerInfo(header).blobFields && Replays(env, db0, info, db)
  }

  /** The peer's run of a whole block, from the totals it starts with. */
  lemma PeerRunOf(env: Env, cap: Option<nat>, db0: Db, header: Header)
    ensures
      var run := PeerRun(env, cap, header.gasUsed, PeerInfo(header), db0, header.txs);
      && (run.Some? <==> Passes(env, cap, header.gasUsed, db0, header.txs, 0))
      && (run.Some? ==> Rebuilds(env, db0, header, run.value.0, run.value.1))
  {
    var start := PeerInfo(header);
    assert start.txs + header.txs == header.txs;
    PeerRunSucceedsIff(env, cap, header.gasUsed, db0, start, db0, header.txs, header.txs);
    if PeerRun(env, cap, header.gasUsed, start, db0, header.txs).Some? {
      PeerRunReplays(env, cap, header.gasUsed, db0, start, db0, header.txs);
    }
  }

  /** After such a run, the header comes out the same if and only if receipts, gas and root do. */
  lemma RebuiltIff(peer: BlockCtx, db0: Db, header: Header, info: Info, db: Db)
    requires Sealable(peer) && peer.blockGasLimit == header.gasLimit && header.number == peer.parentNumber + 1
    requires Rebuilds(peer.env, db0, header, info, db)
    ensures
      var r := ExecAll(peer.env, db0, header.txs).value;
      PayloadOf(peer, WithScalar(peer.env, info, db), db, true).header == header <==>
        && r.receipts == header.receipts && r.gas == header.gasUsed
        && peer.env.rootOf(r.db.parent, MergeTransitions(r.db).bundle.state) == header.stateRoot
  {
  }

  /**
    Whatever the gas limits: a peer accepts a block if and only if its header is valid and its own replay, at
    the header's limit, is alike.
   */
  lemma PeerAcceptsIffAlike(chain: Chain, ctx: BlockCtx, cap: Option<nat>, db0: Db, header: Header)
    requires Coherent(chain, ctx.env) && Sealable(ctx)
    ensures Accepts(chain, ctx, cap, db0, header) <==>
              ValidHeader(ctx, header) && ReplaysAlike(chain(header.gasLimit), cap, db0, header)
  {
    var peer := PeerCtx(chain, ctx, header);
    assert peer.env.number == ctx.env.number;
    PeerRunOf(peer.env, cap, db0, header);
    var run := PeerRun(peer.env, cap, header.gasUsed, PeerInfo(header), db0, header.txs);
    if run.Some? && ValidHeader(ctx, header) {
      RebuiltIff(peer, db0, header, run.value.0, run.value.1);
    }
  }

  /** The header's state root is the true one: it was computed, or the true root happens to be zero. */
  predicate RootIsTrue(env: Env, parent: World, payload: Payload, withRoot: bool) {
    withRoot || env.rootOf(parent, payload.bundle.state) == 0
  }

  /**
    A replay in an environment that does the same on this block is alike exactly under the cap and with a true
    root.
   */
  lemma AlikeIff(ctx: BlockCtx, env: Env, cap: Option<nat>, db0: Db, info: Info, db: Db, withRoot: bool)
    requires Consistent(ctx.env, db0, info, db) && info.gas <= U64_MAX && env.rootOf == ctx.env.rootOf
    requires ExecAll(env, db0, info.txs) == ExecAll(ctx.env, db0, info.txs)
    ensures
      var payload := PayloadOf(ctx, info, db, withRoot);
      ReplaysAlike(env, cap, db0, payload.header) <==>
        UnderCap(env, cap, db0, info.txs, 0) && RootIsTrue(ctx.env, db.parent, payload, withRoot)
  {
  }

  /**
    Same gas limit in header and environment: a peer accepts a block sealed from a consistent state if
    and only if the block uses no more gas than its limit, no transaction of it -- not even a deposit --
    used more than the per-transaction cap, and the header's state root is the true one.
   */
  lemma PeerAcceptsIff(chain: Chain, ctx: BlockCtx, cap: Option<nat>, db0: Db, info: Info, db: Db, withRoot: bool)
    requires Consistent(ctx.env, db0, info, db) && info.gas <= U64_MAX && Sealable(ctx) && Coherent(chain, ctx.env)
    requires ctx.blockGasLimit == ctx.env.gasLimit
    ensures
      var payload := PayloadOf(ctx, info, db, withRoot);
      Accepts(chain, ctx, cap, db0, payload.header) <==>
        && info.gas <= ctx.blockGasLimit
        && UnderCap(ctx.env, cap, db0, info.txs, 0) && RootIsTrue(ctx.env, db.parent, payload, withRoot)
  {
    PeerAcceptsIffAlike(chain, ctx, cap, db0, PayloadOf(ctx, info, db, withRoot).header);
    AlikeIff(ctx, ctx.env, cap, db0, info, db, withRoot);
  }

  /* Different gas limits */

  /**
    On this block, the gas limit of `other` matters only when it admits a transaction: where the replay in `env`
    gets to a deposit or to a transaction that fits, executing it does the same in both.
   */
  ghost predicate LimitOnlyAdmits(env: Env, other: Env, db0: Db, txs: seq<Tx>) {
    forall i {:trigger txs[i]} :: 0 <= i < |txs| && (txs[i].kind == Deposit || txs[i].gasLimit <= other.gasLimit) ==>
      DoesTheSame(env, other, ExecAll(env, db0, txs[..i]), txs[i])
  }

  ghost predicate DoesTheSame(env: Env, other: Env, before: Option<Run>, tx: Tx) {
    before.Some? ==> other.transact(before.value.db.world, tx) == env.transact(before.value.db.world, tx)
  }

  /** Every transaction but the deposits asks for no more gas than a block has. */
  predicate FitsGasLimit(txs: seq<Tx>, gasLimit: nat) {
    forall i :: 0 <= i < |txs| && txs[i].kind != Deposit ==> txs[i].gasLimit <= gasLimit
  }

  lemma SameStep(env: Env, other: Env, before: Option<Run>, tx: Tx)
    requires other.regolith == env.regolith && other.canyon == env.canyon && DoesTheSame(env, other, before, tx)
    ensures ExecNext(other, before, tx) == ExecNext(env, before, tx)
  {
  }

  /** The replays in both environments agree, step by step. */
  lemma {:induction false} SameReplay(env: Env, other: Env, db0: Db, txs: seq<Tx>, n: nat)
    requires other.regolith == env.regolith && other.canyon == env.canyon
    requires LimitOnlyAdmits(env, other, db0, txs) && FitsGasLimit(txs, other.gasLimit) && n <= |txs|
    ensures ExecAll(other, db0, txs[..n]) == ExecAll(env, db0, txs[..n])
  {
    if n > 0 {
      SameReplay(env, other, db0, txs, n - 1);
      ReplayOneMore(env, db0, txs, n - 1);
      ReplayOneMore(other, db0, txs, n - 1);
      SameStep(env, other, ExecAll(env, db0, txs[..n - 1]), txs[n - 1]);
    }
  }

  /** Whatever replays fits into the gas limit. */
  lemma ReplayedFitGasLimit(env: Env, db0: Db, txs: seq<Tx>)
    requires WellBehaved(env) && ExecAll(env, db0, txs).Some?
    ensures FitsGasLimit(txs, env.gasLimit)
  {
    forall i | 0 <= i < |txs| && txs[i].kind != Deposit ensures txs[i].gasLimit <= env.gasLimit {
      PrefixReplays(env, db0, txs, i);
      var w := ExecAll(env, db0, txs[..i]).value.db.world;
      assert OutcomeOk(env, w, txs[i], env.transact(w, txs[i]));
    }
  }

  lemma SameUnderCap(env: Env, other: Env, cap: Option<nat>, db0: Db, txs: seq<Tx>)
    requires other.regolith == env.regolith && other.canyon == env.canyon
    requires LimitOnlyAdmits(env, other, db0, txs) && FitsGasLimit(txs, other.gasLimit)
    ensures UnderCap(other, cap, db0, txs, 0) <==> UnderCap(env, cap, db0, txs, 0)
  {
    forall i | 0 <= i < |txs| ensures GasOf(other, db0, txs, i) == GasOf(env, db0, txs, i) {
      SameReplay(env, other, db0, txs, i);
      assert DoesTheSame(env, other, ExecAll(env, db0, txs[..i]), txs[i]);
    }
  }

  /**
    With an operator's gas limit in the header, if no code this block runs reads the gas limit: a peer accepts
    the block if and only if, besides, no transaction but a deposit asks for more gas than the header's limit.
   */
  lemma PeerAcceptsOverrideIff(chain: Chain, ctx: BlockCtx, cap: Option<nat>, db0: Db, info: Info, db: Db,
                               withRoot: bool)
    requires Consistent(ctx.env, db0, info, db) && info.gas <= U64_MAX && Sealable(ctx) && Coherent(chain, ctx.env)
    requires WellBehaved(chain(ctx.blockGasLimit))
    requires LimitOnlyAdmits(ctx.env, chain(ctx.blockGasLimit), db0, info.txs)
    ensures
      var payload := PayloadOf(ctx, info, db, withRoot);
      Accepts(chain, ctx, cap, db0, payload.header) <==>
        && info.gas <= ctx.blockGasLimit && FitsGasLimit(info.txs, ctx.blockGasLimit)
        && UnderCap(ctx.env, cap, db0, info.txs, 0) && RootIsTrue(ctx.env, db.parent, payload, withRoot)
  {
    var other := chain(ctx.blockGasLimit);
    PeerAcceptsIffAlike(chain, ctx, cap, db0, PayloadOf(ctx, info, db, withRoot).header);
    if FitsGasLimit(info.txs, other.gasLimit) {
      assert info.txs[..|info.txs|] == info.txs;
      SameReplay(ctx.env, other, db0, info.txs, |info.txs|);
      SameUnderCap(ctx.env, other, cap, db0, info.txs);
      AlikeIff(ctx, other, cap, db0, info, db, withRoot);
    } else if ExecAll(other, db0, info.txs).Some? {
      ReplayedFitGasLimit(other, db0, info.txs);
    }
  }
}
