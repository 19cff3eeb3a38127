/** Executing transactions from the pool: `execute_best_transactions`. */
module PoolExecutor {
  import opened Prelude
  import opened Evm
  import opened Database
  import opened Execution
  import opened Replay
  import opened GasLimiter
  import opened BestTxs

  /** Per-job settings of the executors. */
  datatype Ctx = Ctx(env: Env, maxGasPerTxn: Option<nat>, interop: bool)

  /** Everything pool execution updates. */
  datatype Machine = Machine(info: Info, db: Db, best: Best, limiter: Limiter)

  datatype Verdict = Skip | Reject | Stop | Abort | Include(result: ExecResult, change: Change)

  /** A bundle transaction whose hash is not listed may not land reverted. */
  predicate ExcludesRevert(p: PoolTx) {
    p.reverting.Some? && p.tx.hash !in p.reverting.value
  }

  /** The checks made on the result: no excluded revert, and not above the per-transaction gas cap. */
  predicate Keeps(c: Ctx, p: PoolTx, result: ExecResult) {
    && !(!result.success && ExcludesRevert(p))
    && !(c.maxGasPerTxn.Some? && result.gasUsed > c.maxGasPerTxn.value)
  }

  /** The checks made before executing: block conditions, interop deadline, limits, transaction type. */
  predicate Eligible(c: Ctx, lim: Limits, info: Info, p: PoolTx) {
    && (p.conditional.Some? ==> Matches(p.conditional.value, c.env.number, c.env.timestamp))
    && !(c.interop && p.interopExpired)
    && OverLimits(info, lim, p.tx.daSize, p.tx.gasLimit).None?
    && p.tx.kind == Standard
  }

  /**
    What happens to one offered transaction, and the limiter afterwards. The limiter is charged as
    soon as the transaction has executed, even if it is then rejected.
   */
  function Judge(c: Ctx, lim: Limits, m: Machine, cancelled: bool, p: PoolTx): (Verdict, Limiter) {
    var tx := p.tx;
    if !Eligible(c, lim, m.info, p) then (Reject, m.limiter)
    else if cancelled then (Stop, m.limiter)
    else
      match c.env.transact(m.db.world, tx)
      case Invalid(nonceTooLow) => (if nonceTooLow then Skip else Reject, m.limiter)
      case Fatal => (Abort, m.limiter)
      case Done(result, change) =>
        var (ok, charged) := Consume(m.limiter, tx.signer, result.gasUsed);
        if ok && Keeps(c, p, result) then (Include(result, change), charged) else (Reject, charged)
  }

  function FeeOf(env: Env, tx: Tx, gasUsed: nat): nat {
    EffectiveTip(tx, env.baseFee).GetOr(0) * gasUsed
  }

  function Included(c: Ctx, m: Machine, p: PoolTx, result: ExecResult, change: Change, rest: Best,
                    charged: Limiter): Machine
  {
    Machine(Recorded(m.info, c.env, p.tx, result, None, p.tx.daSize, FeeOf(c.env, p.tx, result.gasUsed)),
            Commit(m.db, change), rest, charged)
  }

  datatype Exit = Drained | Cancelled | Failed

  datatype Pick = Pick(p: PoolTx, result: ExecResult)

  datatype Step = Finish(exit: Exit, m: Machine) | Proceed(m: Machine, picked: seq<Pick>)

  /** One turn of the loop: take the next offered transaction and judge it. */
  function PoolStep(c: Ctx, lim: Limits, m: Machine, cancelled: bool): (r: Step)
    ensures r.Proceed? ==> |r.m.best.pool| < |m.best.pool|
  {
    var (next, rest) := m.best.Next();
    if next.None? then Finish(Drained, m.(best := rest))
    else
      var p := next.value;
      var (verdict, charged) := Judge(c, lim, m, cancelled, p);
      match verdict
      case Skip => Proceed(m.(best := rest, limiter := charged), [])
      case Reject => Proceed(m.(best := rest.MarkInvalid(p.tx.signer), limiter := charged), [])
      case Stop => Finish(Cancelled, m.(best := rest))
      case Abort => Finish(Failed, m.(best := rest))
      case Include(result, change) => Proceed(Included(c, m, p, result, change, rest, charged), [Pick(p, result)])
  }

  /**
    The whole loop. The flashblock token can be cancelled at any moment and never becomes uncancelled,
    so `live` -- how many offered transactions are looked at before the cancellation shows -- covers
    every timing.
   */
  function RunPool(c: Ctx, lim: Limits, m: Machine, live: nat): (Exit, Machine)
    decreases |m.best.pool|
  {
    match PoolStep(c, lim, m, live == 0)
    case Finish(exit, m') => (exit, m')
    case Proceed(m', _) => RunPool(c, lim, m', SatSub(live, 1))
  }

  /** An executed transaction always covers the base fee, so its tip is defined. */
  ghost predicate FeesCovered(env: Env) {
    forall w: World, tx: Tx :: env.transact(w, tx).Done? && tx.kind != Deposit ==> env.baseFee <= tx.maxFee
  }

  lemma WellBehavedCoversFees(env: Env)
    requires WellBehaved(env)
    ensures FeesCovered(env)
  {
    forall w: World, tx: Tx | env.transact(w, tx).Done? && tx.kind != Deposit ensures env.baseFee <= tx.maxFee {
      assert OutcomeOk(env, w, tx, env.transact(w, tx));
    }
  }

  /** One turn of the loop on the mutable objects; a result ends the loop. */
  method ConsiderNext(c: Ctx, lim: Limits, info: ExecutionInfo, db: StateDb, best: BestFlashblocksTxs,
                      limiter: AddressGasLimiter, cancelled: bool) returns (exit: Option<Exit>)
    requires FeesCovered(c.env)
    modifies info, db, best, limiter
    ensures
      var r := PoolStep(c, lim, old(Machine(info.Val(), db.Val(), best.Val(), limiter.Val())), cancelled);
      && Machine(info.Val(), db.Val(), best.Val(), limiter.Val()) == r.m
      && exit == if r.Finish? then Some(r.exit) else None
  {
    var next := best.NextTx();
    if next.None? {
      return Some(Drained);
    }
    var p := next.value;
    if !Eligible(c, lim, info.Val(), p) {
      best.MarkInvalid(p.tx.signer);
      return None;
    }
    if cancelled {
      return Some(Cancelled);
    }
    var outcome := c.env.transact(db.world, p.tx);
    if outcome.Invalid? {
      if !outcome.nonceTooLow {
        best.MarkInvalid(p.tx.signer);
      }
      return None;
    }
    if outcome.Fatal? {
      return Some(Failed);
    }
    var kept := ChargeAndRecord(c, p, outcome, info, db, limiter);
    if !kept {
      best.MarkInvalid(p.tx.signer);
    }
    return None;
  }

  /** Charges the sender for an executed transaction and, if it may land, records and commits it. */
  method ChargeAndRecord(c: Ctx, p: PoolTx, outcome: Outcome, info: ExecutionInfo, db: StateDb,
                         limiter: AddressGasLimiter) returns (kept: bool)
    requires FeesCovered(c.env) && outcome == c.env.transact(db.world, p.tx) && outcome.Done? && p.tx.kind == Standard
    modifies info, db, limiter
    ensures
      var (ok, charged) := Consume(old(limiter.Val()), p.tx.signer, outcome.result.gasUsed);
      && limiter.Val() == charged
      && kept == (ok && Keeps(c, p, outcome.result))
      && info.Val() == (if !kept then old(info.Val())
                        else Recorded(old(info.Val()), c.env, p.tx, outcome.result, None, p.tx.daSize,
                                      FeeOf(c.env, p.tx, outcome.result.gasUsed)))
      && db.Val() == (if kept then Commit(old(db.Val()), outcome.change) else old(db.Val()))
  {
    var gasUsed := outcome.result.gasUsed;
    var ok := limiter.ConsumeGas(p.tx.signer, gasUsed);
    kept := ok && Keeps(c, p, outcome.result);
    if kept {
      var tip := EffectiveTip(p.tx, c.env.baseFee);
      assert tip.Some?;
      info.Record(c.env, p.tx, outcome.result, None, p.tx.daSize, tip.value * gasUsed);
      db.CommitChange(outcome.change);
    }
  }

  /** The executor: `live` stands for the asynchronous cancellation of the flashblock token. */
  method ExecuteBestTransactions(c: Ctx, lim: Limits, info: ExecutionInfo, db: StateDb, best: BestFlashblocksTxs,
                                 limiter: AddressGasLimiter, live: nat) returns (exit: Exit)
    requires FeesCovered(c.env)
    modifies info, db, best, limiter
    ensures (exit, Machine(info.Val(), db.Val(), best.Val(), limiter.Val())) ==
            RunPool(c, lim, old(Machine(info.Val(), db.Val(), best.Val(), limiter.Val())), live)
  {
    var budget := live;
    ghost var before := Machine(info.Val(), db.Val(), best.Val(), limiter.Val());
    while true
      invariant RunPool(c, lim, Machine(info.Val(), db.Val(), best.Val(), limiter.Val()), budget) ==
                RunPool(c, lim, before, live)
      decreases |best.pool|
    {
      var ended := ConsiderNext(c, lim, info, db, best, limiter, budget == 0);
      if ended.Some? {
        return ended.value;
      }
      budget := SatSub(budget, 1);
    }
  }

  /* One step, in terms of the EVM's outcome and the machine before and after */

  /** The transaction may be handed to the EVM. */
  predicate Runnable(c: Ctx, lim: Limits, info: Info, p: PoolTx) {
    && p.tx.kind == Standard && (c.interop ==> !p.interopExpired)
    && OverLimits(info, lim, p.tx.daSize, p.tx.gasLimit).None?
    && (p.conditional.Some? ==>
          var q, number, time := p.conditional.value, c.env.number, c.env.timestamp;
          && (q.blockMin.Some? ==> q.blockMin.value <= number) && (q.blockMax.Some? ==> number <= q.blockMax.value)
          && (q.timeMin.Some? ==> q.timeMin.value <= time) && (q.timeMax.Some? ==> time <= q.timeMax.value))
  }

  /** Its sender can pay for the gas, it did not revert unless it may, and it is under the cap. */
  predicate MayLand(c: Ctx, l: Limiter, p: PoolTx, result: ExecResult) {
    && (l.Enabled? ==> result.gasUsed <= Available(l, p.tx.signer))
    && (result.success || p.reverting.None? || p.tx.hash in p.reverting.value)
    && (c.maxGasPerTxn.Some? ==> result.gasUsed <= c.maxGasPerTxn.value)
  }

  /** The offered transaction costs its sender the rest of the pass. */
  predicate Drops(c: Ctx, lim: Limits, m: Machine, cancelled: bool, p: PoolTx) {
    || !Runnable(c, lim, m.info, p)
    || (!cancelled && match c.env.transact(m.db.world, p.tx)
                      case Invalid(nonceTooLow) => !nonceTooLow
                      case Fatal => false
                      case Done(result, _) => !MayLand(c, m.limiter, p, result))
  }

  /** What is in the block and what it rests on stay as they are. */
  predicate LeavesBlock(m: Machine, r: Step) {
    r.Proceed? && r.picked == [] && r.m.info == m.info && r.m.db == m.db
  }

  /** The transaction is at the end of the block, paying its tip, and its change is committed. */
  predicate Appends(c: Ctx, m: Machine, p: PoolTx, r: Step) {
    var o := c.env.transact(m.db.world, p.tx);
    && o.Done? && r.Proceed? && r.picked == [Pick(p, o.result)] && r.m.db == Commit(m.db, o.change)
    && r.m.info.txs == m.info.txs + [p.tx] && r.m.info.senders == m.info.senders + [p.tx.signer]
    && r.m.info.gas == m.info.gas + o.result.gasUsed && r.m.info.da == m.info.da + p.tx.daSize
    && r.m.info.fees == m.info.fees + Min(SatSub(p.tx.maxFee, c.env.baseFee), p.tx.maxTip) * o.result.gasUsed
  }

  /**
    One step, whatever is offered. A transaction that may not be handed to the EVM, that the EVM finds invalid for
    another reason than a nonce already used, or that may not land, is left out and its sender is dropped. One with
    a used nonce is passed over without consequence. Everyone who got gas executed is charged for it, as far as
    they can pay. All others that run are appended.
   */
  lemma StepIsExact(c: Ctx, lim: Limits, m: Machine, cancelled: bool)
    requires m.best.Next().0.Some?
    ensures
      var (p, rest) := (m.best.Next().0.value, m.best.Next().1);
      var r, o := PoolStep(c, lim, m, cancelled), c.env.transact(m.db.world, p.tx);
      var runs := Runnable(c, lim, m.info, p) && !cancelled;
      && (Drops(c, lim, m, cancelled, p) ==>
            LeavesBlock(m, r) && r.m.best == rest.(invalid := rest.invalid + {p.tx.signer}))
      && (runs && o == Invalid(true) ==> LeavesBlock(m, r) && r.m.best == rest)
      && (runs && o == Fatal ==> r == Finish(Failed, m.(best := rest)))
      && (Runnable(c, lim, m.info, p) && cancelled ==> r == Finish(Cancelled, m.(best := rest)))
      && (runs && o.Done? && MayLand(c, m.limiter, p, o.result) ==> Appends(c, m, p, r) && r.m.best == rest)
      && r.m.limiter == (if runs && o.Done? then Consume(m.limiter, p.tx.signer, o.result.gasUsed).1 else m.limiter)
  {
  }

  /* What ended up in the block */

  /** The transactions pool execution includes, with their results, in order. */
  function Picks(c: Ctx, lim: Limits, m: Machine, live: nat): seq<Pick>
    decreases |m.best.pool|
  {
    match PoolStep(c, lim, m, live == 0)
    case Finish(_, _) => []
    case Proceed(m', picked) => picked + Picks(c, lim, m', SatSub(live, 1))
  }

  /** Pushing the picks one after the other, each paying its tip. */
  function RecordPicks(env: Env, info: Info, picks: seq<Pick>): Info
    decreases |picks|
  {
    if picks == [] then info
    else
      var k := picks[0];
      RecordPicks(env, Recorded(info, env, k.p.tx, k.result, None, k.p.tx.daSize, FeeOf(env, k.p.tx, k.result.gasUsed)),
                  picks[1..])
  }

  lemma StepRecordsPicks(c: Ctx, lim: Limits, m: Machine, cancelled: bool)
    ensures
      var r := PoolStep(c, lim, m, cancelled);
      r.Proceed? ==> |r.picked| <= 1 && r.m.info == RecordPicks(c.env, m.info, r.picked)
  {
  }

  lemma RecordPicksConcat(env: Env, info: Info, first: seq<Pick>, later: seq<Pick>)
    requires |first| <= 1
    ensures RecordPicks(env, info, first + later) == RecordPicks(env, RecordPicks(env, info, first), later)
  {
    if first == [] {
      assert first + later == later;
    } else {
      assert first + later == [first[0]] + later;
      assert (first + later)[1..] == later;
    }
  }

  lemma {:induction false} PoolRecordsPicks(c: Ctx, lim: Limits, m: Machine, live: nat)
    ensures RunPool(c, lim, m, live).1.info == RecordPicks(c.env, m.info, Picks(c, lim, m, live))
    decreases |m.best.pool|
  {
    match PoolStep(c, lim, m, live == 0)
    case Finish(_, _) =>
    case Proceed(m', picked) =>
      PoolRecordsPicks(c, lim, m', SatSub(live, 1));
      StepRecordsPicks(c, lim, m, live == 0);
      RecordPicksConcat(c.env, m.info, picked, Picks(c, lim, m', SatSub(live, 1)));
  }

  function PickTxs(picks: seq<Pick>): seq<Tx> {
    seq(|picks|, i requires 0 <= i < |picks| => picks[i].p.tx)
  }

  /** Tips of the picks: what they offer beyond the base fee, up to their maximum, for every unit of gas used. */
  function PickFees(env: Env, picks: seq<Pick>): nat {
    if picks == [] then 0
    else
      var tx := picks[0].p.tx;
      Min(SatSub(tx.maxFee, env.baseFee), tx.maxTip) * picks[0].result.gasUsed + PickFees(env, picks[1..])
  }

  /** Gas of the picks sent by one address. */
  function PickGas(picks: seq<Pick>, a: Address): nat {
    if picks == [] then 0
    else (if picks[0].p.tx.signer == a then picks[0].result.gasUsed else 0) + PickGas(picks[1..], a)
  }

  /** The block grows by exactly the picks, and by nobody else's fees. */
  lemma {:induction false} RecordPicksAppends(env: Env, info: Info, picks: seq<Pick>)
    ensures
      var info' := RecordPicks(env, info, picks);
      && info'.txs == info.txs + PickTxs(picks)
      && info'.fees == info.fees + PickFees(env, picks)
      && info'.lastIndex == info.lastIndex && info'.scalar == info.scalar && info'.blobFields == info.blobFields
    decreases |picks|
  {
    if picks == [] {
      assert PickTxs(picks) == [];
    } else {
      var k := picks[0];
      var next := Recorded(info, env, k.p.tx, k.result, None, k.p.tx.daSize, FeeOf(env, k.p.tx, k.result.gasUsed));
      RecordPicksAppends(env, next, picks[1..]);
      assert PickTxs(picks) == [k.p.tx] + PickTxs(picks[1..]);
    }
  }

  /** The gas and status of a pick are those of its receipt. */
  ghost predicate HasReceipt(before: nat, receipt: Receipt, k: Pick) {
    receipt.cumulativeGas == before + k.result.gasUsed && receipt.success == k.result.success
  }

  /** The picks have a receipt each, following those of the block before them. */
  ghost predicate HaveReceipts(info: Info, info': Info, picks: seq<Pick>) {
    && |info'.receipts| == |info.receipts| + |picks| && info.receipts <= info'.receipts
    && forall i :: 0 <= i < |picks| ==>
         HasReceipt(if i == 0 then info.gas else info'.receipts[|info.receipts| + i - 1].cumulativeGas,
                    info'.receipts[|info.receipts| + i], picks[i])
  }

  lemma {:induction false} PicksHaveReceipts(env: Env, info: Info, picks: seq<Pick>)
    ensures HaveReceipts(info, RecordPicks(env, info, picks), picks)
    decreases |picks|
  {
    if picks != [] {
      var k := picks[0];
      var next := Recorded(info, env, k.p.tx, k.result, None, k.p.tx.daSize, FeeOf(env, k.p.tx, k.result.gasUsed));
      PicksHaveReceipts(env, next, picks[1..]);
      ReceiptsShift(info, next, RecordPicks(env, info, picks), picks);
    }
  }

  lemma ReceiptsShift(info: Info, next: Info, info': Info, picks: seq<Pick>)
    requires picks != [] && HaveReceipts(next, info', picks[1..])
    requires |next.receipts| == |info.receipts| + 1 && info.receipts <= next.receipts
    requires HasReceipt(info.gas, next.receipts[|info.receipts|], picks[0])
    requires next.receipts[|info.receipts|].cumulativeGas == next.gas
    ensures HaveReceipts(info, info', picks)
  {
    var n := |info.receipts|;
    assert next.receipts[n] == info'.receipts[n];
    forall i | 0 <= i < |picks|
      ensures HasReceipt(if i == 0 then info.gas else info'.receipts[n + i - 1].cumulativeGas, info'.receipts[n + i],
                         picks[i])
    {
      if i > 0 {
        assert picks[1..][i - 1] == picks[i];
      }
    }
  }

  /** What every included pool transaction satisfies; `maxDa` is the limit on the size of a transaction. */
  predicate Admissible(c: Ctx, maxDa: Option<nat>, b: Best, k: Pick) {
    && k.p.tx.kind == Standard
    && k.p.tx.hash !in b.committed
    && Within(k.p.flashMin, k.p.flashMax, b.flashblock)
    && (k.p.conditional.Some? ==> Matches(k.p.conditional.value, c.env.number, c.env.timestamp))
    && (c.interop ==> !k.p.interopExpired)
    && (!k.result.success ==> k.p.reverting.None? || k.p.tx.hash in k.p.reverting.value)
    && (maxDa.Some? ==> k.p.tx.daSize <= maxDa.value)
    && (c.maxGasPerTxn.Some? ==> k.result.gasUsed <= c.maxGasPerTxn.value)
  }

  lemma {:induction false} PicksAreAdmissible(c: Ctx, lim: Limits, m: Machine, live: nat)
    ensures forall k :: k in Picks(c, lim, m, live) ==> k.p in m.best.pool && Admissible(c, lim.txDa, m.best, k)
    decreases |m.best.pool|
  {
    if m.best.Next().0.Some? {
      NextIsOffered(m.best);
    }
    match PoolStep(c, lim, m, live == 0)
    case Finish(_, _) =>
    case Proceed(m', _) => PicksAreAdmissible(c, lim, m', SatSub(live, 1));
  }

  lemma {:induction false} PicksAvoidInvalid(c: Ctx, lim: Limits, m: Machine, live: nat)
    ensures forall k :: k in Picks(c, lim, m, live) ==> k.p.tx.signer !in m.best.invalid
    decreases |m.best.pool|
  {
    if m.best.Next().0.Some? {
      NextIsOffered(m.best);
    }
    match PoolStep(c, lim, m, live == 0)
    case Finish(_, _) =>
    case Proceed(m', _) => PicksAvoidInvalid(c, lim, m', SatSub(live, 1));
  }

  /** Nothing of a sender that is dropped is included in the rest of the pass. */
  lemma RejectedSenderIsDropped(c: Ctx, lim: Limits, m: Machine, live: nat)
    requires m.best.Next().0.Some? && Drops(c, lim, m, live == 0, m.best.Next().0.value)
    ensures forall k :: k in Picks(c, lim, m, live) ==> k.p.tx.signer != m.best.Next().0.value.tx.signer
  {
    StepIsExact(c, lim, m, live == 0);
    PicksAvoidInvalid(c, lim, PoolStep(c, lim, m, live == 0).m, SatSub(live, 1));
  }

  /** A bundle transaction that reverts is dropped, and its sender pays for the execution all the same. */
  lemma ExcludedRevertIsCharged(c: Ctx, lim: Limits, m: Machine, p: PoolTx)
    requires m.limiter.Enabled? && Valid(m.limiter) && Eligible(c, lim, m.info, p) && ExcludesRevert(p)
    requires c.env.transact(m.db.world, p.tx).Done? && !c.env.transact(m.db.world, p.tx).result.success
    ensures
      var (verdict, charged) := Judge(c, lim, m, false, p);
      var gas := c.env.transact(m.db.world, p.tx).result.gasUsed;
      && verdict.Reject? && charged.Enabled?
      && Available(charged, p.tx.signer) ==
         (if gas <= Available(m.limiter, p.tx.signer) then Available(m.limiter, p.tx.signer) - gas
          else Available(m.limiter, p.tx.signer))
  {
    ConsumeRefinesTotal(m.limiter, p.tx.signer, c.env.transact(m.db.world, p.tx).result.gasUsed);
  }

  /* Invariants of the loop */

  /** Skipped, rejected and rate-limited transactions leave no trace: the result is a straight replay. */
  lemma {:induction false} PoolKeepsConsistent(c: Ctx, lim: Limits, m: Machine, live: nat, db0: Db)
    requires Consistent(c.env, db0, m.info, m.db)
    ensures
      var m' := RunPool(c, lim, m, live).1;
      Consistent(c.env, db0, m'.info, m'.db)
    decreases |m.best.pool|
  {
    match PoolStep(c, lim, m, live == 0)
    case Finish(_, _) =>
    case Proceed(m', picked) =>
      if picked != [] {
        var k := picked[0];
        RecordKeepsConsistent(c.env, db0, m.info, m.db, k.p.tx, None, FeeOf(c.env, k.p.tx, k.result.gasUsed));
      }
      PoolKeepsConsistent(c, lim, m', SatSub(live, 1), db0);
  }

  /** `info` may grow to `info'` without passing the limits it was not already past. */
  ghost predicate Respects(lim: Limits, info: Info, info': Info) {
    && info'.gas <= Max(info.gas, lim.gas)
    && (lim.blockDa.Some? ==> info'.da <= Max(info.da, lim.blockDa.value))
    && (info.scalar.Some? ==>
          info'.da * info.scalar.value <= Max(info.da * info.scalar.value, lim.footprint.GetOr(lim.gas)))
    && info'.scalar == info.scalar
  }

  /** The limits are far enough from 2^64 for the unchecked gas addition. */
  predicate NoWrap(env: Env, lim: Limits, info: Info) {
    Bounded(lim) && Max(info.gas, lim.gas) + env.gasLimit <= U64_MAX
  }

  lemma IncludedRespects(env: Env, lim: Limits, info: Info, w: World, tx: Tx, depositNonce: Option<nat>, fee: nat)
    requires WellBehaved(env) && NoWrap(env, lim, info) && tx.kind != Deposit
    requires env.transact(w, tx).Done? && OverLimits(info, lim, tx.daSize, tx.gasLimit).None?
    ensures
      var info' := Recorded(info, env, tx, env.transact(w, tx).result, depositNonce, tx.daSize, fee);
      Respects(lim, info, info') && NoWrap(env, lim, info')
  {
    assert OutcomeOk(env, w, tx, env.transact(w, tx));
    LimitCheckIsExact(info, lim, tx.daSize, tx.gasLimit);
  }

  lemma RespectsTrans(lim: Limits, a: Info, b: Info, c: Info)
    requires Respects(lim, a, b) && Respects(lim, b, c)
    ensures Respects(lim, a, c)
  {
  }

  /** Pool execution stays within gas, DA and DA footprint limits. */
  lemma {:induction false} PoolRespectsLimits(c: Ctx, lim: Limits, m: Machine, live: nat)
    requires WellBehaved(c.env) && NoWrap(c.env, lim, m.info)
    ensures Respects(lim, m.info, RunPool(c, lim, m, live).1.info)
    decreases |m.best.pool|
  {
    match PoolStep(c, lim, m, live == 0)
    case Finish(_, _) =>
    case Proceed(m', picked) =>
      if picked != [] {
        var k := picked[0];
        IncludedRespects(c.env, lim, m.info, m.db.world, k.p.tx, None, FeeOf(c.env, k.p.tx, k.result.gasUsed));
      }
      PoolRespectsLimits(c, lim, m', SatSub(live, 1));
      RespectsTrans(lim, m.info, m'.info, RunPool(c, lim, m', SatSub(live, 1)).1.info);
  }

  lemma StepIsCharged(c: Ctx, lim: Limits, m: Machine, cancelled: bool, a: Address)
    requires m.limiter.Enabled? && Valid(m.limiter)
    ensures
      var r := PoolStep(c, lim, m, cancelled);
      && r.m.limiter.Enabled? && Valid(r.m.limiter) && r.m.limiter.config == m.limiter.config
      && (r.Finish? ==> Available(r.m.limiter, a) == Available(m.limiter, a))
      && (r.Proceed? ==> |r.picked| <= 1 && PickGas(r.picked, a) + Available(r.m.limiter, a) <= Available(m.limiter, a))
  {
    var next := m.best.Next().0;
    if next.Some? && c.env.transact(m.db.world, next.value.tx).Done? {
      ConsumeRefinesTotal(m.limiter, next.value.tx.signer, c.env.transact(m.db.world, next.value.tx).result.gasUsed);
    }
  }

  lemma PickGasConcat(first: seq<Pick>, later: seq<Pick>, a: Address)
    requires |first| <= 1
    ensures PickGas(first + later, a) == PickGas(first, a) + PickGas(later, a)
  {
    if first == [] {
      assert first + later == later;
    } else {
      assert (first + later)[1..] == later;
    }
  }

  /**
    The gas an address gets included never exceeds what the limiter takes from it, although rejected
    transactions are charged too.
   */
  lemma {:induction false} PicksAreCharged(c: Ctx, lim: Limits, m: Machine, live: nat, a: Address)
    requires m.limiter.Enabled? && Valid(m.limiter)
    ensures
      var l' := RunPool(c, lim, m, live).1.limiter;
      && l'.Enabled? && Valid(l') && l'.config == m.limiter.config
      && PickGas(Picks(c, lim, m, live), a) + Available(l', a) <= Available(m.limiter, a)
    decreases |m.best.pool|
  {
    StepIsCharged(c, lim, m, live == 0, a);
    match PoolStep(c, lim, m, live == 0)
    case Finish(_, _) =>
    case Proceed(m', picked) =>
      PicksAreCharged(c, lim, m', SatSub(live, 1), a);
      PickGasConcat(picked, Picks(c, lim, m', SatSub(live, 1)), a);
  }

  /** A flashblock started on a cancelled token executes nothing from the pool and charges nobody. */
  lemma {:induction false} StaleTokenDoesNoPoolWork(c: Ctx, lim: Limits, m: Machine)
    ensures
      var (exit, m') := RunPool(c, lim, m, 0);
      exit != Failed && m'.info == m.info && m'.db == m.db && m'.limiter == m.limiter
    decreases |m.best.pool|
  {
    match PoolStep(c, lim, m, true)
    case Finish(_, _) =>
    case Proceed(m', _) => StaleTokenDoesNoPoolWork(c, lim, m');
  }

  lemma StepKeepsCommitted(c: Ctx, lim: Limits, m: Machine, cancelled: bool)
    ensures
      var b := PoolStep(c, lim, m, cancelled).m.best;
      b.committed == m.best.committed && b.flashblock == m.best.flashblock
  {
  }

  /** Pool execution changes neither the flashblock number nor the committed hashes. */
  lemma {:induction false} PoolKeepsCommitted(c: Ctx, lim: Limits, m: Machine, live: nat)
    ensures
      var b := RunPool(c, lim, m, live).1.best;
      b.committed == m.best.committed && b.flashblock == m.best.flashblock
    decreases |m.best.pool|
  {
    StepKeepsCommitted(c, lim, m, live == 0);
    match PoolStep(c, lim, m, live == 0)
    case Finish(_, _) =>
    case Proceed(m', _) => PoolKeepsCommitted(c, lim, m', SatSub(live, 1));
  }

  /** The step executes the transaction it is offered. */
  predicate Executes(c: Ctx, lim: Limits, m: Machine, live: nat) {
    var next := m.best.Next().0;
    next.Some? && Eligible(c, lim, m.info, next.value) && live > 0
  }

  /** How many transactions pool execution hands to the EVM. */
  function Executions(c: Ctx, lim: Limits, m: Machine, live: nat): nat
    decreases |m.best.pool|
  {
    var one := if Executes(c, lim, m, live) then 1 else 0;
    match PoolStep(c, lim, m, live == 0)
    case Finish(_, _) => one
    case Proceed(m', _) => one + Executions(c, lim, m', SatSub(live, 1))
  }

  /** The token's life bounds the work: no more is executed than there is life for. */
  lemma {:induction false} ExecutionsAreBounded(c: Ctx, lim: Limits, m: Machine, live: nat)
    ensures |Picks(c, lim, m, live)| <= Executions(c, lim, m, live) <= live
    decreases |m.best.pool|
  {
    match PoolStep(c, lim, m, live == 0)
    case Finish(_, _) =>
    case Proceed(m', _) => ExecutionsAreBounded(c, lim, m', SatSub(live, 1));
  }

  /** One live step and the picks from there on. */
  ghost predicate Unfolds(step: Machine -> Step, picks: (Machine, nat) -> seq<Pick>, m: Machine, live: nat) {
    picks(m, live) == if live == 0 || step(m).Finish? then [] else step(m).picked + picks(step(m).m, live - 1)
  }

  lemma PicksUnfold(c: Ctx, lim: Limits, m: Machine, live: nat)
    ensures Unfolds((n: Machine) => PoolStep(c, lim, n, false), (n: Machine, l: nat) => Picks(c, lim, n, l), m, live)
  {
    if live == 0 {
      ExecutionsAreBounded(c, lim, m, 0);
    }
  }

  lemma {:induction false} LongerPicks(step: Machine -> Step, picks: (Machine, nat) -> seq<Pick>, m: Machine, live: nat,
                                       longer: nat)
    requires live <= longer && forall n: Machine, l: nat :: Unfolds(step, picks, n, l)
    ensures picks(m, live) <= picks(m, longer)
    decreases live
  {
    assert Unfolds(step, picks, m, live) && Unfolds(step, picks, m, longer);
    if live > 0 && step(m).Proceed? {
      LongerPicks(step, picks, step(m).m, live - 1, longer - 1);
    }
  }

  /** A token that lives longer only adds to what is included. */
  lemma LongerLifeIncludesMore(c: Ctx, lim: Limits, m: Machine, live: nat, longer: nat)
    requires live <= longer
    ensures Picks(c, lim, m, live) <= Picks(c, lim, m, longer)
  {
    var step, picks := (n: Machine) => PoolStep(c, lim, n, false), (n: Machine, l: nat) => Picks(c, lim, n, l);
    forall n: Machine, l: nat ensures Unfolds(step, picks, n, l) {
      PicksUnfold(c, lim, n, l);
    }
    LongerPicks(step, picks, m, live, longer);
    assert picks(m, live) == Picks(c, lim, m, live) && picks(m, longer) == Picks(c, lim, m, longer);
  }

  /** Where nothing is executed, nothing is included and nobody is charged. */
  lemma {:induction false} NoExecutionsNoWork(c: Ctx, lim: Limits, m: Machine, live: nat)
    requires Executions(c, lim, m, live) == 0
    ensures
      var (exit, m') := RunPool(c, lim, m, live);
      exit != Failed && m'.info == m.info && m'.db == m.db && m'.limiter == m.limiter
    decreases |m.best.pool|
  {
    match PoolStep(c, lim, m, live == 0)
    case Finish(_, _) =>
    case Proceed(m', _) => NoExecutionsNoWork(c, lim, m', SatSub(live, 1));
  }

  /** The EVM fails on a transaction pool execution gets to. */
  predicate MeetsFatal(c: Ctx, lim: Limits, m: Machine, live: nat)
    decreases |m.best.pool|
  {
    || (Executes(c, lim, m, live) && c.env.transact(m.db.world, m.best.Next().0.value.tx) == Fatal)
    || match PoolStep(c, lim, m, live == 0)
       case Finish(_, _) => false
       case Proceed(m', _) => MeetsFatal(c, lim, m', SatSub(live, 1))
  }

  /** Pool execution fails exactly if the EVM fails on a transaction it gets to. */
  lemma {:induction false} PoolCompletes(c: Ctx, lim: Limits, m: Machine, live: nat)
    ensures RunPool(c, lim, m, live).0 == Failed <==> MeetsFatal(c, lim, m, live)
    decreases |m.best.pool|
  {
    match PoolStep(c, lim, m, live == 0)
    case Finish(_, _) =>
    case Proceed(m', _) => PoolCompletes(c, lim, m', SatSub(live, 1));
  }
}
