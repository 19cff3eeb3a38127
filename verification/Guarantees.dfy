/** What the outside world -- subscribers, peers, the sidecar -- can rely on over a whole job. */
module Guarantees {
  import opened Prelude
  import opened Evm
  import opened Database
  import opened Execution
  import opened Replay
  import opened Overrides
  import opened GasLimiter
  import opened BestTxs
  import opened PoolExecutor
  import opened PoolCompleteness
  import opened Sequencer
  import opened Sidecar
  import opened Sealing
  import opened Peer
  import opened Flashblocks
  import opened BuildRuns
  import opened Budgets

  /** Every block a job hands out replays from the pre-executed parent state. */
  lemma JobHandsOutReplayableBlocks(s: Settings, db0: Db, limiter: Limiter, start: Start, inputs: seq<Input>)
    requires WellBehaved(s.env) && Tracks(db0) && db0.bundle == EMPTY_BUNDLE
    ensures
      var st := RunJob(s, db0, limiter, start, inputs).1;
      st.cell.Some? ==> SealedFrom(s, db0, st.cell.value)
  {
    var (verdict, st) := Fallback(s, db0, limiter, start);
    if Deposited(s, db0, start.attributes).Some? {
      DepositedKeeps(s, db0, start.attributes);
    }
    if verdict == Continue {
      FallbackReachesLoopHead(s, db0, limiter, start);
      RunsAgree(s, db0, st, inputs);
    }
  }

  /**
    With the same gas limit in header and environment, a peer accepts a block a job handed out if and only if
    it uses no more gas than its limit, no transaction in it used more than the peer's per-transaction cap --
    which the builder itself applies to pool transactions only -- and the state root is the true one.
   */
  lemma PeersAcceptHandedOutBlocks(chain: Chain, s: Settings, db0: Db, payload: Payload, cap: Option<nat>)
    requires WellBehaved(s.env) && Tracks(db0) && SealedFrom(s, db0, payload) && Coherent(chain, s.env)
    requires payload.header.gasUsed <= U64_MAX && Sealable(s.Block()) && s.blockGasLimit == s.env.gasLimit
    ensures Accepts(chain, s.Block(), cap, db0, payload.header) <==>
              && payload.header.gasUsed <= s.blockGasLimit
              && UnderCap(s.env, cap, db0, payload.header.txs, 0)
              && RootIsTrue(s.env, db0.parent, payload, s.WithRoot())
  {
    var info, db :| Consistent(s.env, db0, info, db) && payload == PayloadOf(s.Block(), info, db, s.WithRoot());
    PeerAcceptsIff(chain, s.Block(), cap, db0, info, db, s.WithRoot());
    ReplayTracks(s.env, db0, info.txs);
  }

  /**
    With an operator's gas limit in the header, and no code in this block that reads the gas limit: if and only
    if, besides, no transaction but a deposit asks for more gas than the operator's limit.
   */
  lemma PeersAcceptUnderOverride(chain: Chain, s: Settings, db0: Db, payload: Payload, cap: Option<nat>)
    requires WellBehaved(s.env) && Tracks(db0) && SealedFrom(s, db0, payload) && Coherent(chain, s.env)
    requires WellBehaved(chain(s.blockGasLimit))
    requires LimitOnlyAdmits(s.env, chain(s.blockGasLimit), db0, payload.header.txs)
    requires payload.header.gasUsed <= U64_MAX && Sealable(s.Block())
    ensures Accepts(chain, s.Block(), cap, db0, payload.header) <==>
              && payload.header.gasUsed <= s.blockGasLimit && FitsGasLimit(payload.header.txs, s.blockGasLimit)
              && UnderCap(s.env, cap, db0, payload.header.txs, 0)
              && RootIsTrue(s.env, db0.parent, payload, s.WithRoot())
  {
    var info, db :| Consistent(s.env, db0, info, db) && payload == PayloadOf(s.Block(), info, db, s.WithRoot());
    PeerAcceptsOverrideIff(chain, s.Block(), cap, db0, info, db, s.WithRoot());
    ReplayTracks(s.env, db0, info.txs);
  }

  /** For the blocks of a job that keeps its budget, the header's gas is no condition any more. */
  lemma PeersAcceptBudgetedJobs(chain: Chain, s: Settings, db0: Db, limiter: Limiter, start: Start, inputs: seq<Input>,
                                b: Allowance, cap: Option<nat>)
    requires WellBehaved(s.env) && EveryJobTurn(s, db0, limiter, start, inputs, StaysWithin(s, b))
    requires Tracks(db0) && db0.bundle == EMPTY_BUNDLE && Coherent(chain, s.env) && s.blockGasLimit == s.env.gasLimit
    requires Deposited(s, db0, start.attributes).Some? ==>
               BuilderFits(s, Deposited(s, db0, start.attributes).value.0, b, start.count)
    requires s.blockGasLimit <= U64_MAX && Sealable(s.Block())
    ensures
      var cell := RunJob(s, db0, limiter, start, inputs).1.cell;
      cell.Some? ==>
        (Accepts(chain, s.Block(), cap, db0, cell.value.header) <==>
          && UnderCap(s.env, cap, db0, cell.value.header.txs, 0)
          && RootIsTrue(s.env, db0.parent, cell.value, s.WithRoot()))
  {
    JobHandsOutReplayableBlocks(s, db0, limiter, start, inputs);
    JobStaysWithinLimits(s, db0, limiter, start, inputs, b);
    var cell := RunJob(s, db0, limiter, start, inputs).1.cell;
    if cell.Some? {
      PeersAcceptHandedOutBlocks(chain, s, db0, cell.value, cap);
    }
  }

  /**
    Its bundle is that of a one-shot build, and its ledger is exact: one sender and one receipt per transaction, and
    every receipt true to what executing the transaction there gives.
   */
  lemma HandedOutBlocksAreExact(s: Settings, db0: Db, payload: Payload)
    requires WellBehaved(s.env) && Tracks(db0) && db0.bundle == EMPTY_BUNDLE && SealedFrom(s, db0, payload)
    ensures OneShotBundle(s.env, db0, payload.header.txs) == Some(payload.bundle)
    ensures |payload.senders| == |payload.header.receipts| == |payload.header.txs|
    ensures forall i :: 0 <= i < |payload.header.txs| ==>
              && payload.senders[i] == payload.header.txs[i].signer
              && ReceiptIsTrue(s.env, db0, payload.header.txs, i, payload.header.receipts[i])
    ensures payload.header.gasUsed == GasSum(s.env, db0, payload.header.txs, |payload.header.txs|)
  {
    var info, db :| Consistent(s.env, db0, info, db) && payload == PayloadOf(s.Block(), info, db, s.WithRoot());
    SealedBundleIsOneShot(s.Block(), db0, info, db, s.WithRoot());
    LedgerIsExact(s.env, db0, info.txs);
  }

  /** Laid over the parent state, its bundle is the state a straight replay of its transactions reaches. */
  lemma HandedOutBundleIsReplayedState(s: Settings, db0: Db, payload: Payload, a: Address, slot: Slot)
    requires WellBehaved(s.env) && Tracks(db0) && db0.bundle == EMPTY_BUNDLE && SealedFrom(s, db0, payload)
    ensures
      var r := ExecAll(s.env, db0, payload.header.txs);
      && r.Some?
      && BundledInfo(db0.parent, payload.bundle, a) == InfoAt(r.value.db.world, a)
      && BundledSlot(db0.parent, payload.bundle, a, slot) == SlotAt(r.value.db.world, a, slot)
  {
    var info, db :| Consistent(s.env, db0, info, db) && payload == PayloadOf(s.Block(), info, db, s.WithRoot());
    ReplayTracks(s.env, db0, info.txs);
    MergedBundleIsTheWorld(db, a, slot);
  }

  /**
    The header of a block on top of the state after the attributes' transactions, `w`: number and gas limit; blob
    gas, which after Jovian is the DA bytes of the block times the scalar found in that state; and the state root,
    computed unless that is switched off for blocks with pool transactions.
   */
  ghost predicate HeaderIsExact(s: Settings, db0: Db, payload: Payload, w: World) {
    var h := payload.header;
    var footprint := DaOf(h.txs) * s.env.scalarOf(w);
    && h.number == s.parentNumber + 1 && h.gasLimit == s.blockGasLimit
    && h.excessBlobGas == (if s.env.jovian || s.env.ecotone then Some(0) else None)
    && (if s.env.jovian then h.blobGasUsed.Some? && (footprint <= U64_MAX ==> h.blobGasUsed.value == footprint)
        else h.blobGasUsed == if s.env.ecotone then Some(0) else None)
    && h.stateRoot == (if s.disableStateRoot && !s.noTxPool then 0
                       else s.env.rootOf(db0.parent, payload.bundle.state))
  }

  lemma SealedHeaderIsExact(s: Settings, db0: Db, info: Info, db: Db, w: World)
    requires Consistent(s.env, db0, info, db) && WellBehaved(s.env) && Tracks(db0) && info.blobFields == None
    requires s.env.jovian ==> info.scalar == Some(s.env.scalarOf(w))
    ensures HeaderIsExact(s, db0, PayloadOf(s.Block(), info, db, s.WithRoot()), w)
  {
    ReplayTracks(s.env, db0, info.txs);
  }

  lemma {:induction false} RunHeadersAreExact(s: Settings, db0: Db, st: State, inputs: seq<Input>, w: World)
    requires WellBehaved(s.env) && Tracks(db0) && db0.bundle == EMPTY_BUNDLE && LoopHead(s, db0, st)
    requires s.env.jovian ==> st.info.scalar == Some(s.env.scalarOf(w))
    ensures
      var cell := BuildLoop(s, st, inputs).1.cell;
      cell.Some? && HeaderIsExact(s, db0, cell.value, w)
    decreases |inputs|
  {
    SealedHeaderIsExact(s, db0, st.info, st.db, w);
    if inputs != [] && st.extra.index <= st.extra.count {
      TurnKeepsLoopHead(s, db0, st, inputs[0]);
      var (verdict, st') := NextFlashblock(s, st, inputs[0]);
      if verdict == Continue {
        RunHeadersAreExact(s, db0, st', inputs[1..], w);
      }
    }
  }

  /** Every block a job hands out has such a header. */
  lemma HandedOutHeadersAreExact(s: Settings, db0: Db, limiter: Limiter, start: Start, inputs: seq<Input>)
    requires WellBehaved(s.env) && Tracks(db0) && db0.bundle == EMPTY_BUNDLE
    ensures
      var cell := RunJob(s, db0, limiter, start, inputs).1.cell;
      cell.Some? ==> HeaderIsExact(s, db0, cell.value, WorldAfter(s.env, db0, start.attributes))
  {
    var w := WorldAfter(s.env, db0, start.attributes);
    var (verdict, st) := Fallback(s, db0, limiter, start);
    if Deposited(s, db0, start.attributes).Some? {
      DepositedKeeps(s, db0, start.attributes);
      var (info, db) := Deposited(s, db0, start.attributes).value;
      SealedHeaderIsExact(s, db0, info, db, w);
    }
    if verdict == Continue {
      FallbackReachesLoopHead(s, db0, limiter, start);
      RunHeadersAreExact(s, db0, st, inputs, w);
    }
  }

  /**
    The overrides sent to the sidecar in the middle of a flashblock show an account as the builder sees
    it after this flashblock's pool transactions, unless the account was destroyed and re-created in the
    block.
   */
  lemma SidecarSeesInProgressState(s: Settings, db0: Db, st: State, i: Input, a: Address)
    requires WellBehaved(s.env) && Tracks(db0) && LoopHead(s, db0, st)
    ensures
      var db := PoolPhase(s, st, i).1.db;
      && db.parent == db0.parent
      && (ShowsAccount(db, OverridesOf(db.transitions), a) <==> StatusAt(db, a) != DestroyedChanged)
  {
    PoolKeeps(s, db0, st, i);
    var m := PoolPhase(s, st, i).1;
    ReplayTracks(s.env, db0, m.info.txs);
    OverridesShowInProgressState(m.db, a);
  }

  lemma {:induction false} SelectContains(exts: seq<External>, mask: seq<bool>, i: nat)
    requires |exts| == |mask| && i < |exts| && mask[i] && exts[i].decoded.Some?
    ensures exts[i].decoded.value in Select(exts, mask)
    decreases |exts|
  {
    if i > 0 {
      SelectContains(exts[1..], mask[1..], i - 1);
    }
  }

  lemma {:induction false} LandedAreDecoded(c: Ctx, lim: Limits, info: Info, db: Db, exts: seq<External>, i: nat)
    requires i < |exts| && BestEffort(c, lim, info, db, exts).0[i]
    ensures exts[i].decoded.Some?
    decreases |exts|
  {
    if i > 0 {
      match Try(c, lim, info, db.world, exts[0])
      case Landed(result, change) =>
        LandedAreDecoded(c, lim, Land(c, info, exts[0].decoded.value, result), Commit(db, change), exts[1..], i - 1);
      case Missed(_) => LandedAreDecoded(c, lim, info, db, exts[1..], i - 1);
    }
  }

  lemma RequiredAreAppended(s: Settings, lim: Limits, info: Info, db: Db, exts: seq<External>, i: nat)
    requires RunSidecar(s.Pool(), lim, info, db, exts).Accepted? && i < |exts| && exts[i].required
    ensures
      var r := RunSidecar(s.Pool(), lim, info, db, exts);
      exts[i].decoded.Some? && |info.txs| <= |r.info.txs| && exts[i].decoded.value in r.info.txs[|info.txs|..]
  {
    RequiredAreAllOrNothing(s.Pool(), lim, info, db, exts);
    BestEffortAppendsLanded(s.Pool(), lim, info, db, exts);
    LandedAreDecoded(s.Pool(), lim, info, db, exts, i);
    SelectContains(exts, BestEffort(s.Pool(), lim, info, db, exts).0, i);
  }

  /**
    Required sidecar transactions are published together or not at all: a flashblock that is published
    holds every required transaction of the batch it was given, and if the batch is refused the job
    aborts with stream and cell as they were.
   */
  lemma RequiredSidecarTransactionsArePublishedTogether(s: Settings, db0: Db, st: State, i: Input, n: nat)
    requires WellBehaved(s.env) && LoopHead(s, db0, st)
    requires i.poll.Received? && n < |i.poll.txs| && i.poll.txs[n].required
    ensures
      var (verdict, st') := NextFlashblock(s, st, i);
      || (st'.stream == st.stream && st'.cell == st.cell)
      || (st.stream < st'.stream && i.poll.txs[n].decoded.Some?
          && i.poll.txs[n].decoded.value in st'.stream[|st.stream|].txs)
  {
    PhasesKeep(s, db0, st, i);
    var d := ExecutePhases(s, st, i);
    if d.Draft? {
      PoolKeeps(s, db0, st, i);
      var m := PoolPhase(s, st, i).1;
      var r := BeforeClosing(s, st, i);
      RequiredAreAppended(s, LimitsOf(s, st), m.info, m.db, i.poll.txs, n);
      SidecarKeeps(s, db0, LimitsOf(s, st), m.info, m.db, i.poll);
      ClosingKeeps(s, db0, st.extra, r.info, r.db);
      StillThere(st.info.txs, m.info.txs, r.info.txs, d.st.info.txs, i.poll.txs[n].decoded.value);
    }
  }

  /** What a completed turn has executed by the end of its pool loop is published with its flashblock. */
  lemma TurnPublishesPool(s: Settings, db0: Db, st: State, i: Input)
    requires WellBehaved(s.env) && LoopHead(s, db0, st)
    ensures
      var (verdict, st') := NextFlashblock(s, st, i);
      verdict == Continue ==>
        && |st'.stream| == |st.stream| + 1 && st.info.txs + st'.stream[|st.stream|].txs == st'.info.txs
        && PoolPhase(s, st, i).1.info.txs <= st'.info.txs
  {
    PhasesKeep(s, db0, st, i);
    PoolKeeps(s, db0, st, i);
    var m, r := PoolPhase(s, st, i).1, BeforeClosing(s, st, i);
    if r.Accepted? {
      SidecarKeeps(s, db0, LimitsOf(s, st), m.info, m.db, i.poll);
      ClosingKeeps(s, db0, st.extra, r.info, r.db);
    }
  }

  /**
    A pool whose kept transactions replay after the flashblock's opening, with room and gas for all of it, is
    published with the flashblock: right after the opening, in full and in order.
   */
  lemma FittingPoolIsPublished(s: Settings, db0: Db, st: State, i: Input, keep: seq<bool>)
    requires WellBehaved(s.env) && LoopHead(s, db0, st) && i.live >= |i.pool| == |keep|
    requires
      var opening := Opening(s, st);
      var best := Best(i.pool, {}, st.extra.index, st.committed);
      PoolFits(s.Pool(), LimitsOf(s, st), Machine(opening.info, opening.db, best, st.limiter), db0, keep)
    ensures
      var (verdict, st') := NextFlashblock(s, st, i);
      verdict == Continue ==>
        && |st'.stream| == |st.stream| + 1 && st.info.txs + st'.stream[|st.stream|].txs == st'.info.txs
        && Opening(s, st).info.txs + Kept(i.pool, keep) <= st'.info.txs
  {
    ReplayablePoolIsIncluded(s.Pool(), LimitsOf(s, st), PoolStart(s, st, i), i.live, db0, keep);
    TurnPublishesPool(s, db0, st, i);
  }

  /** No pool or sidecar transaction of a flashblock is larger than the operator allows. */
  lemma NoOversizedTransactions(s: Settings, db0: Db, st: State, i: Input)
    requires WellBehaved(s.env) && LoopHead(s, db0, st) && s.maxDaTx.Some? && BeforeClosing(s, st, i).Accepted?
    ensures
      var txs := BeforeClosing(s, st, i).info.txs;
      && Opening(s, st).info.txs <= txs
      && forall k :: |Opening(s, st).info.txs| <= k < |txs| ==> txs[k].daSize <= s.maxDaTx.value
  {
    PoolKeeps(s, db0, st, i);
    var lim, m, picks := LimitsOf(s, st), PoolPhase(s, st, i).1, TurnPicks(s, st, i);
    TurnPicksAreAdmissible(s, st, i);
    PicksAreSmall(Opening(s, st).info.txs, m.info.txs, picks, s.maxDaTx.value);
    if i.poll.Received? && i.poll.txs != [] {
      RequiredAreAllOrNothing(s.Pool(), lim, m.info, m.db, i.poll.txs);
      LandedAreSmall(s.Pool(), lim, m.info, m.db, i.poll.txs);
    }
  }

  lemma PicksAreSmall(txs: seq<Tx>, txs': seq<Tx>, picks: seq<Pick>, max: nat)
    requires txs' == txs + PickTxs(picks) && forall k :: k in picks ==> k.p.tx.daSize <= max
    ensures forall k :: |txs| <= k < |txs'| ==> txs'[k].daSize <= max
  {
    forall k | |txs| <= k < |txs'| ensures txs'[k].daSize <= max {
      assert picks[k - |txs|] in picks && txs'[k] == PickTxs(picks)[k - |txs|];
    }
  }

  lemma StillThere(a: seq<Tx>, b: seq<Tx>, c: seq<Tx>, d: seq<Tx>, tx: Tx)
    requires a <= b <= c <= d && tx in c[|b|..]
    ensures tx in d[|a|..]
  {
    var k :| 0 <= k < |c| - |b| && c[|b|..][k] == tx;
    assert d[|a|..][|b| + k - |a|] == tx;
  }
}
