/** The standard builder: one block in one go, merged once at the end. */
module StandardBuilder {
  import opened Prelude
  import opened Evm
  import opened Database
  import opened Execution
  import opened Replay
  import opened Overrides
  import opened GasLimiter
  import opened BestTxs
  import opened PoolExecutor
  import opened PoolCompleteness
  import opened Sequencer
  import opened BuilderTx
  import opened Sealing
  import opened Flashblocks
  import opened BuildRuns
  import opened Budgets

  /** `StandardBuilderTx`: the base transaction and the flashtestation transactions, all at the bottom. */
  function SimulateStandard(env: Env, signer: Option<Address>, flash: Option<Flashtest>, db: Db, txs: seq<Tx>)
    : Option<seq<Candidate>>
  {
    var base := BaseCandidate(env, signer, db);
    match Attest(env, flash, db, base, txs)
    case None => None
    case Some(attested) => Some(base + attested)
  }

  datatype Build = Better(info: Info, db: Db, limiter: Limiter) | CancelledBuild(limiter: Limiter) | FailedBuild

  /** Gas of all candidates, wherever they go. */
  function TotalGasUsed(cs: seq<Candidate>): nat {
    if cs == [] then 0 else cs[0].gasUsed + TotalGasUsed(cs[1..])
  }

  function TotalDa(cs: seq<Candidate>): nat {
    if cs == [] then 0 else cs[0].signed.daSize + TotalDa(cs[1..])
  }

  /** The whole block minus what the builder's transactions are expected to need. */
  function StandardLimits(s: Settings, cs: seq<Candidate>, scalar: Option<nat>): Limits {
    var da := TotalDa(cs);
    Limits(SatSub(s.blockGasLimit, TotalGasUsed(cs)), s.maxDaTx,
           if s.maxDaBlock.Some? then Some(SatSub(s.maxDaBlock.value, da)) else None,
           if scalar.Some? then Some(SatSub(s.blockGasLimit, SatMul(da, scalar.value))) else None)
  }

  /** The standard builder does not look at flashblock ranges. */
  function Unranged(pool: seq<PoolTx>): seq<PoolTx> {
    seq(|pool|, i requires 0 <= i < |pool| => pool[i].(flashMin := None, flashMax := None))
  }

  function AfterOpening(s: Settings, db0: Db, attributes: seq<Tx>): Option<Added> {
    match RunSequencer(s.env, EMPTY_INFO, db0, attributes)
    case Executed(info0, db) =>
      var info := WithScalar(s.env, info0, db);
      Some(AddCandidates(s.env, info, db, s.simulate(Position(0, 0), db, info.txs, true), true))
    case _ => None
  }

  function PoolPart(s: Settings, added: Added, limiter: Limiter, pool: seq<PoolTx>, live: nat): (Exit, Machine) {
    var m := Machine(added.info, added.db, Best(Unranged(pool), {}, 0, {}), limiter);
    if s.noTxPool then (Drained, m)
    else RunPool(s.Pool(), StandardLimits(s, added.candidates.GetOr([]), added.info.scalar), m, live)
  }

  function Execute(s: Settings, db0: Db, limiter: Limiter, attributes: seq<Tx>, pool: seq<PoolTx>, live: nat): Build {
    match AfterOpening(s, db0, attributes)
    case None => FailedBuild
    case Some(added) =>
      var (exit, m) := PoolPart(s, added, limiter, pool, live);
      match exit
      case Failed => FailedBuild
      case Cancelled => CancelledBuild(m.limiter)
      case Drained =>
        var closing := AddCandidates(s.env, m.info, m.db, s.simulate(Position(0, 0), m.db, m.info.txs, false), false);
        Better(closing.info, MergeTransitions(closing.db), m.limiter)
  }

  method ExecutePayload(s: Settings, db: StateDb, limiter: AddressGasLimiter, attributes: seq<Tx>, pool: seq<PoolTx>,
                        live: nat)
    returns (built: bool, info: ExecutionInfo)
    requires FeesCovered(s.env)
    modifies db, limiter
    ensures fresh(info)
    ensures
      var r := Execute(s, old(db.Val()), old(limiter.Val()), attributes, pool, live);
      built == r.Better? && (built ==> Better(info.Val(), db.Val(), limiter.Val()) == r)
  {
    var ok;
    ok, info := ExecuteSequencerTransactions(s.env, attributes, db);
    if !ok {
      return false, info;
    }
    var candidates := CommitCandidates(s.env, info, db,
        s.simulate(Position(0, 0), db.Val(), info.executedTransactions, true), true);
    var lim := StandardLimits(s, candidates.GetOr([]), info.daFootprintScalar);
    if !s.noTxPool {
      var best := new BestFlashblocksTxs(Unranged(pool));
      var exit := ExecuteBestTransactions(s.Pool(), lim, info, db, best, limiter, live);
      if exit != Drained {
        return false, info;
      }
    }
    var _ := CommitCandidates(s.env, info, db, s.simulate(Position(0, 0), db.Val(), info.executedTransactions, false),
        false);
    db.Merge();
    return true, info;
  }

  /* Properties */

  lemma StartKeeps(s: Settings, db0: Db, attributes: seq<Tx>)
    requires WellBehaved(s.env) && AfterOpening(s, db0, attributes).Some?
    ensures
      var added := AfterOpening(s, db0, attributes).value;
      Consistent(s.env, db0, added.info, added.db)
  {
    NothingExecutedIsConsistent(s.env, db0, EMPTY_INFO);
    SequencerKeepsConsistent(s.env, db0, EMPTY_INFO, db0, attributes);
    var r := RunSequencer(s.env, EMPTY_INFO, db0, attributes);
    var info := WithScalar(s.env, r.info, r.db);
    var simulated := s.simulate(Position(0, 0), r.db, info.txs, true);
    if simulated.Some? {
      CandidatesKeepConsistent(s.env, db0, info, r.db, simulated.value, true, {});
    }
  }

  /** What the standard builder has executed is consistent, in every part. */
  lemma StandardIsConsistent(s: Settings, db0: Db, limiter: Limiter, attributes: seq<Tx>, pool: seq<PoolTx>, live: nat)
    requires WellBehaved(s.env) && Execute(s, db0, limiter, attributes, pool, live).Better?
    ensures
      var r := Execute(s, db0, limiter, attributes, pool, live);
      var m := PoolPart(s, AfterOpening(s, db0, attributes).value, limiter, pool, live).1;
      var closing := AddCandidates(s.env, m.info, m.db, s.simulate(Position(0, 0), m.db, m.info.txs, false), false);
      && Consistent(s.env, db0, m.info, m.db) && Consistent(s.env, db0, closing.info, closing.db)
      && m.info.txs <= closing.info.txs && r.info == closing.info && r.db == MergeTransitions(closing.db)
  {
    StartKeeps(s, db0, attributes);
    var added := AfterOpening(s, db0, attributes).value;
    var lim := StandardLimits(s, added.candidates.GetOr([]), added.info.scalar);
    var m0 := Machine(added.info, added.db, Best(Unranged(pool), {}, 0, {}), limiter);
    PoolKeepsConsistent(s.Pool(), lim, m0, live, db0);
    var m := PoolPart(s, added, limiter, pool, live).1;
    var simulated := s.simulate(Position(0, 0), m.db, m.info.txs, false);
    if simulated.Some? {
      CandidatesKeepConsistent(s.env, db0, m.info, m.db, simulated.value, false, {});
      CandidatesAddAtMost(s.env, m.info, m.db, simulated.value, false, {});
    }
  }

  /** A standard block is a straight replay of its transactions, merged once. */
  lemma StandardIsOneShot(s: Settings, db0: Db, limiter: Limiter, attributes: seq<Tx>, pool: seq<PoolTx>, live: nat)
    requires WellBehaved(s.env) && Tracks(db0) && db0.bundle == EMPTY_BUNDLE
    requires Execute(s, db0, limiter, attributes, pool, live).Better?
    ensures
      var r := Execute(s, db0, limiter, attributes, pool, live);
      && OneShotBundle(s.env, db0, r.info.txs) == Some(r.db.bundle)
      && Replays(s.env, db0, r.info, ExecAll(s.env, db0, r.info.txs).value.db)
  {
    StandardIsConsistent(s, db0, limiter, attributes, pool, live);
    ReplayTracks(s.env, db0, Execute(s, db0, limiter, attributes, pool, live).info.txs);
  }

  /**
    Flashblocks lose nothing: a block built flashblock by flashblock and a standard block holding the
    same transactions carry the same bundle, receipts, senders and gas.
   */
  lemma FlashblocksEqualOneShot(s: Settings, db0: Db, payload: Payload, limiter: Limiter, attributes: seq<Tx>,
                                pool: seq<PoolTx>, live: nat)
    requires WellBehaved(s.env) && Tracks(db0) && db0.bundle == EMPTY_BUNDLE && SealedFrom(s, db0, payload)
    requires
      var r := Execute(s, db0, limiter, attributes, pool, live);
      r.Better? && r.info.txs == payload.header.txs
    ensures
      var r := Execute(s, db0, limiter, attributes, pool, live);
      && payload.bundle == r.db.bundle && payload.header.receipts == r.info.receipts
      && payload.senders == r.info.senders && payload.header.gasUsed == r.info.gas
  {
    StandardIsOneShot(s, db0, limiter, attributes, pool, live);
    var info, db :| Consistent(s.env, db0, info, db) && payload == PayloadOf(s.Block(), info, db, s.WithRoot());
    SealedBundleIsOneShot(s.Block(), db0, info, db, s.WithRoot());
  }

  /** The first pass reserves for everything the second commits; both use no more than their allowance. */
  predicate StandardPassWithin(s: Settings, info: Info, db: Db, top: bool, b: Allowance) {
    var added := AddCandidates(s.env, info, db, s.simulate(Position(0, 0), db, info.txs, top), top);
    var cs := added.candidates.GetOr([]);
    if top then
      b.bottomGas <= TotalGasUsed(cs) && b.bottomDa <= TotalDa(cs) && AddsAtMost(info, added, b.topGas, b.topDa)
    else AddsAtMost(info, added, b.bottomGas, b.bottomDa)
  }

  predicate OpeningWithin(s: Settings, db0: Db, attributes: seq<Tx>, b: Allowance) {
    var r := RunSequencer(s.env, EMPTY_INFO, db0, attributes);
    r.Executed? ==> StandardPassWithin(s, WithScalar(s.env, r.info, r.db), r.db, true, b)
  }

  predicate ClosingWithin(s: Settings, db0: Db, limiter: Limiter, attributes: seq<Tx>, pool: seq<PoolTx>,
                                live: nat, b: Allowance)
  {
    var start := AfterOpening(s, db0, attributes);
    start.Some? ==>
      var m := PoolPart(s, start.value, limiter, pool, live).1;
      StandardPassWithin(s, m.info, m.db, false, b)
  }

  lemma StartAdds(s: Settings, db0: Db, attributes: seq<Tx>, b: Allowance)
    requires WellBehaved(s.env) && OpeningWithin(s, db0, attributes, b)
    requires RunSequencer(s.env, EMPTY_INFO, db0, attributes).Executed?
    ensures
      var r := RunSequencer(s.env, EMPTY_INFO, db0, attributes);
      var added := AfterOpening(s, db0, attributes).value;
      var cs := added.candidates.GetOr([]);
      && b.bottomGas <= TotalGasUsed(cs) && b.bottomDa <= TotalDa(cs)
      && added.info.gas <= r.info.gas + b.topGas && added.info.da <= r.info.da + b.topDa
      && added.info.scalar == if s.env.jovian then Some(ScalarAfter(s, db0, attributes)) else None
  {
    SequencerIsExact(s.env, db0, attributes);
    var r := RunSequencer(s.env, EMPTY_INFO, db0, attributes);
    var info := WithScalar(s.env, r.info, r.db);
    var cs := s.simulate(Position(0, 0), r.db, info.txs, true);
    if cs.Some? {
      CandidatesAddAtMost(s.env, info, r.db, cs.value, true, {});
    }
  }

  /** What the standard limits leave once the reservation is taken off, and what execution makes of it. */
  lemma StandardMeters(s: Settings, db0: Db, limiter: Limiter, attributes: seq<Tx>, pool: seq<PoolTx>, live: nat,
                       b: Allowance)
    requires WellBehaved(s.env) && OpeningWithin(s, db0, attributes, b)
    requires ClosingWithin(s, db0, limiter, attributes, pool, live, b)
    requires s.blockGasLimit + s.env.gasLimit <= U64_MAX && s.blockGasLimit < U64_MAX
    requires s.maxDaBlock.Some? ==> s.maxDaBlock.value < U64_MAX
    requires RunSequencer(s.env, EMPTY_INFO, db0, attributes).Executed?
    requires RunSequencer(s.env, EMPTY_INFO, db0, attributes).info.gas + b.topGas <= s.blockGasLimit
    requires Execute(s, db0, limiter, attributes, pool, live).Better?
    ensures
      var added := AfterOpening(s, db0, attributes).value;
      var lim := StandardLimits(s, added.candidates.GetOr([]), added.info.scalar);
      var info, m := Execute(s, db0, limiter, attributes, pool, live).info,
          PoolPart(s, added, limiter, pool, live).1.info;
      Respects(lim, added.info, m) && info.gas <= m.gas + b.bottomGas && info.da <= m.da + b.bottomDa
  {
    StartAdds(s, db0, attributes, b);
    var added := AfterOpening(s, db0, attributes).value;
    var lim := StandardLimits(s, added.candidates.GetOr([]), added.info.scalar);
    PoolRespectsLimits(s.Pool(), lim, Machine(added.info, added.db, Best(Unranged(pool), {}, 0, {}), limiter), live);
    var m := PoolPart(s, added, limiter, pool, live).1;
    var cs := s.simulate(Position(0, 0), m.db, m.info.txs, false);
    if cs.Some? {
      CandidatesAddAtMost(s.env, m.info, m.db, cs.value, false, {});
    }
  }

  lemma FootprintWithin(base: nat, top: nat, added: nat, mid: nat, end: nat, bottom: nat, reserved: nat, k: nat,
                        limit: nat)
    requires added <= base + top && end <= mid + bottom && bottom <= reserved && limit <= U64_MAX
    requires mid * k <= Max(added * k, SatSub(limit, SatMul(reserved, k)))
    requires base * k + top * k + bottom * k <= limit
    ensures end * k <= limit
  {
    FootprintReserve(limit, reserved, bottom, k);
    MulLe(added, base + top, k);
    Distribute(base, top, k);
    MulLe(end, mid + bottom, k);
    Distribute(mid, bottom, k);
  }

  /**
    The standard builder keeps the block's limits: if the sequencer's transactions and the builder's own fit,
    so does everything else, in gas, in DA bytes and -- after Jovian -- in DA footprint.
   */
  lemma StandardStaysWithinLimits(s: Settings, db0: Db, limiter: Limiter, attributes: seq<Tx>, pool: seq<PoolTx>,
                                  live: nat, b: Allowance)
    requires WellBehaved(s.env) && OpeningWithin(s, db0, attributes, b)
    requires ClosingWithin(s, db0, limiter, attributes, pool, live, b)
    requires s.blockGasLimit + s.env.gasLimit <= U64_MAX && s.blockGasLimit < U64_MAX
    requires s.maxDaBlock.Some? ==> s.maxDaBlock.value < U64_MAX
    requires RunSequencer(s.env, EMPTY_INFO, db0, attributes).Executed?
    requires Execute(s, db0, limiter, attributes, pool, live).Better?
    requires
      var r := RunSequencer(s.env, EMPTY_INFO, db0, attributes);
      var k := ScalarAfter(s, db0, attributes);
      && r.info.gas + b.topGas + b.bottomGas <= s.blockGasLimit
      && (s.maxDaBlock.Some? ==> r.info.da + b.topDa + b.bottomDa <= s.maxDaBlock.value)
      && (s.env.jovian ==> r.info.da * k + b.topDa * k + b.bottomDa * k <= s.blockGasLimit)
    ensures
      var k := ScalarAfter(s, db0, attributes);
      var info := Execute(s, db0, limiter, attributes, pool, live).info;
      && info.gas <= s.blockGasLimit
      && (s.maxDaBlock.Some? ==> DaOf(info.txs) <= s.maxDaBlock.value)
      && (s.env.jovian ==> DaOf(info.txs) * k <= s.blockGasLimit)
  {
    StartAdds(s, db0, attributes, b);
    StandardMeters(s, db0, limiter, attributes, pool, live, b);
    StandardIsConsistent(s, db0, limiter, attributes, pool, live);
    var base, added := RunSequencer(s.env, EMPTY_INFO, db0, attributes).info, AfterOpening(s, db0, attributes).value;
    var m := PoolPart(s, added, limiter, pool, live).1.info;
    if added.info.scalar.Some? {
      FootprintWithin(base.da, b.topDa, added.info.da, m.da, Execute(s, db0, limiter, attributes, pool, live).info.da,
                      b.bottomDa, TotalDa(added.candidates.GetOr([])), added.info.scalar.value, s.blockGasLimit);
    }
  }

  /** The settings use the standard builder without flashtestations. */
  ghost predicate UsesStandardBuilder(s: Settings, signer: Address) {
    forall pos: Position, db: Db, txs: seq<Tx>, top: bool ::
      s.simulate(pos, db, txs, top) == SimulateStandard(s.env, Some(signer), None, Copy(db), txs)
  }

  lemma StandardPass(s: Settings, info: Info, db: Db, top: bool, signer: Address, da: nat)
    requires WellBehaved(s.env) && UsesStandardBuilder(s, signer)
    requires if top then da <= BaseSize(s, db, signer) else BaseSize(s, db, signer) <= da
    ensures StandardPassWithin(s, info, db, top, Allowance(0, EstimateGas(Message(s.env.number)), 0, da))
  {
    var base := BaseCandidate(s.env, Some(signer), Copy(db));
    assert s.simulate(Position(0, 0), db, info.txs, top) ==
        SimulateStandard(s.env, Some(signer), None, Copy(db), info.txs);
    assert base + [] == base && base[1..] == [] && base == [base[0]];
    OneCandidate(s.env, info, db, base[0], top);
    CandidatesAddAtMost(s.env, info, db, base, top, {});
  }

  /**
    It keeps to its reservation: the base transaction's gas limit is what is reserved for it, and so is its
    size if it does not grow while the pool is executed.
   */
  lemma StandardBuilderKeepsReservation(s: Settings, db0: Db, limiter: Limiter, attributes: seq<Tx>, pool: seq<PoolTx>,
                                        live: nat, signer: Address, da: nat)
    requires WellBehaved(s.env) && UsesStandardBuilder(s, signer)
    requires
      var r := RunSequencer(s.env, EMPTY_INFO, db0, attributes);
      r.Executed? ==>
        && da <= BaseSize(s, r.db, signer)
        && BaseSize(s, PoolPart(s, AfterOpening(s, db0, attributes).value, limiter, pool, live).1.db, signer) <= da
    ensures
      var b := Allowance(0, EstimateGas(Message(s.env.number)), 0, da);
      OpeningWithin(s, db0, attributes, b) && ClosingWithin(s, db0, limiter, attributes, pool, live, b)
  {
    var r := RunSequencer(s.env, EMPTY_INFO, db0, attributes);
    if r.Executed? {
      StandardPass(s, WithScalar(s.env, r.info, r.db), r.db, true, signer, da);
      var m := PoolPart(s, AfterOpening(s, db0, attributes).value, limiter, pool, live).1;
      StandardPass(s, m.info, m.db, false, signer, da);
    }
  }

  /* What the standard builder does with its pool */

  /** Reservations are sums over all candidates. */
  lemma {:induction false} TotalsAddUp(cs: seq<Candidate>, c: Candidate)
    ensures TotalGasUsed([]) == TotalDa([]) == 0
    ensures TotalGasUsed(cs + [c]) == TotalGasUsed(cs) + c.gasUsed
    ensures TotalDa(cs + [c]) == TotalDa(cs) + c.signed.daSize
    decreases |cs|
  {
    if cs == [] {
      assert cs + [c] == [c] && [c][1..] == [];
    } else {
      TotalsAddUp(cs[1..], c);
      assert (cs + [c])[1..] == cs[1..] + [c];
    }
  }

  /**
    The pool gets the whole block less the reservations, as far as these fit, and the limit on a transaction's
    size.
   */
  lemma StandardLimitsAreExact(s: Settings, cs: seq<Candidate>, scalar: Option<nat>)
    requires s.blockGasLimit <= U64_MAX && TotalGasUsed(cs) <= s.blockGasLimit
    requires s.maxDaBlock.Some? ==> TotalDa(cs) <= s.maxDaBlock.value
    requires scalar.Some? ==> TotalDa(cs) * scalar.value <= s.blockGasLimit
    ensures
      var lim := StandardLimits(s, cs, scalar);
      && lim.gas + TotalGasUsed(cs) == s.blockGasLimit && lim.txDa == s.maxDaTx
      && (if s.maxDaBlock.Some? then lim.blockDa.Some? && lim.blockDa.value + TotalDa(cs) == s.maxDaBlock.value
          else lim.blockDa.None?)
      && (if scalar.Some?
          then lim.footprint.Some? && lim.footprint.value + TotalDa(cs) * scalar.value == s.blockGasLimit
          else lim.footprint.None?)
  {
  }

  /**
    How a build ends: with a block, if the attributes are tolerated and the pool is drained before any
    cancellation.
   */
  lemma StandardEndsExactly(s: Settings, db0: Db, limiter: Limiter, attributes: seq<Tx>, pool: seq<PoolTx>, live: nat)
    ensures
      var r := Execute(s, db0, limiter, attributes, pool, live);
      var tolerated := forall i :: 0 <= i < |attributes| ==> Tolerated(s.env, db0, attributes, i);
      && (AfterOpening(s, db0, attributes).Some? <==> tolerated)
      && (tolerated ==>
            var exit := PoolPart(s, AfterOpening(s, db0, attributes).value, limiter, pool, live).0;
            (r.Better? <==> exit == Drained) && (r.CancelledBuild? <==> exit == Cancelled))
      && (!tolerated ==> r.FailedBuild?)
  {
    SequencerIsExact(s.env, db0, attributes);
  }

  /**
    A pool whose kept transactions replay after the opening, with room and gas for all of it, is in the block in
    full and in order, whatever flashblocks its transactions were meant for.
   */
  lemma StandardIncludesFittingPool(s: Settings, db0: Db, limiter: Limiter, attributes: seq<Tx>, pool: seq<PoolTx>,
                                    live: nat, plain: seq<PoolTx>, keep: seq<bool>)
    requires WellBehaved(s.env) && !s.noTxPool && AfterOpening(s, db0, attributes).Some? && live >= |pool|
    requires |plain| == |pool| == |keep|
    requires forall k :: 0 <= k < |pool| ==> plain[k] == pool[k].(flashMin := None, flashMax := None)
    requires
      var added := AfterOpening(s, db0, attributes).value;
      var lim := StandardLimits(s, added.candidates.GetOr([]), added.info.scalar);
      PoolFits(s.Pool(), lim, Machine(added.info, added.db, Best(plain, {}, 0, {}), limiter), db0, keep)
    ensures
      var r := Execute(s, db0, limiter, attributes, pool, live);
      r.Better? && AfterOpening(s, db0, attributes).value.info.txs + Kept(plain, keep) <= r.info.txs
  {
    var added := AfterOpening(s, db0, attributes).value;
    var lim := StandardLimits(s, added.candidates.GetOr([]), added.info.scalar);
    assert plain == Unranged(pool);
    ReplayablePoolIsIncluded(s.Pool(), lim, Machine(added.info, added.db, Best(plain, {}, 0, {}), limiter), live, db0,
                             keep);
    StandardIsConsistent(s, db0, limiter, attributes, pool, live);
  }

  /**
    Without flashtestations, the standard builder opens with nothing and closes with its base transaction, iff
    it lands.
   */
  lemma StandardPlacement(s: Settings, info: Info, db: Db, signer: Address)
    requires UsesStandardBuilder(s, signer)
    ensures
      var base := BaseCandidate(s.env, Some(signer), db)[0];
      && AddCandidates(s.env, info, db, s.simulate(Position(0, 0), db, info.txs, true), true).info == info
      && AddCandidates(s.env, info, db, s.simulate(Position(0, 0), db, info.txs, false), false).info ==
         Placed(s.env, info, db, base).0
  {
    var base := BaseCandidate(s.env, Some(signer), db)[0];
    assert BaseCandidate(s.env, Some(signer), Copy(db)) == [base] && [base] + [] == [base];
    OneCandidate(s.env, info, db, base, true);
    OneCandidate(s.env, info, db, base, false);
  }
}
