/** Pool execution leaves nothing out without a reason. */
module PoolCompleteness {
  import opened Prelude
  import opened Evm
  import opened Database
  import opened Execution
  import opened Replay
  import opened GasLimiter
  import opened BestTxs
  import opened PoolExecutor

  /** The transactions of a pool selected by a mask, in order. */
  function Kept(pool: seq<PoolTx>, keep: seq<bool>): seq<Tx>
    requires |pool| == |keep|
  {
    if pool == [] then [] else (if keep[0] then [pool[0].tx] else []) + Kept(pool[1..], keep[1..])
  }

  /**
    Going through the pool after `txs`: what is kept replays, and what is not has a nonce already used when its turn
    comes.
   */
  ghost predicate Unrolls(env: Env, db0: Db, txs: seq<Tx>, pool: seq<PoolTx>, keep: seq<bool>)
    requires |pool| == |keep|
    decreases |pool|
  {
    var r := ExecAll(env, db0, txs);
    && r.Some?
    && (pool != [] ==>
          if keep[0] then Unrolls(env, db0, txs + [pool[0].tx], pool[1..], keep[1..])
          else env.transact(r.value.db.world, pool[0].tx) == Invalid(true)
               && Unrolls(env, db0, txs, pool[1..], keep[1..]))
  }

  /** Nothing about the transaction itself stands in its way in this flashblock. */
  predicate Unhindered(c: Ctx, b: Best, p: PoolTx) {
    && b.Offers(p)
    && (p.conditional.Some? ==> Matches(p.conditional.value, c.env.number, c.env.timestamp))
    && !(c.interop && p.interopExpired) && p.tx.kind == Standard
    && (p.reverting.Some? ==> p.tx.hash in p.reverting.value)
    && (c.maxGasPerTxn.Some? ==> p.tx.gasLimit <= c.maxGasPerTxn.value)
  }

  function GasLimits(pool: seq<PoolTx>): nat {
    if pool == [] then 0 else pool[0].tx.gasLimit + GasLimits(pool[1..])
  }

  function DaSizes(pool: seq<PoolTx>): nat {
    if pool == [] then 0 else pool[0].tx.daSize + DaSizes(pool[1..])
  }

  /** The limits leave room for the whole pool. */
  ghost predicate HasRoom(lim: Limits, info: Info, pool: seq<PoolTx>) {
    && Bounded(lim)
    && info.gas + GasLimits(pool) <= lim.gas
    && (forall p :: p in pool ==> lim.txDa.Some? ==> p.tx.daSize <= lim.txDa.value)
    && (lim.blockDa.Some? ==> info.da + DaSizes(pool) <= lim.blockDa.value)
    && (info.scalar.Some? ==> (info.da + DaSizes(pool)) * info.scalar.value <= lim.footprint.GetOr(lim.gas))
  }

  lemma FirstHasRoom(lim: Limits, info: Info, pool: seq<PoolTx>)
    requires pool != [] && HasRoom(lim, info, pool)
    ensures OverLimits(info, lim, pool[0].tx.daSize, pool[0].tx.gasLimit).None?
  {
    var tx := pool[0].tx;
    assert tx.daSize <= DaSizes(pool) && tx.gasLimit <= GasLimits(pool);
    if info.scalar.Some? {
      MulLe(info.da + tx.daSize, info.da + DaSizes(pool), info.scalar.value);
    }
    LimitCheckIsExact(info, lim, tx.daSize, tx.gasLimit);
  }

  /** There is room for the rest after the first is included. */
  lemma RoomAfterFirst(env: Env, lim: Limits, info: Info, pool: seq<PoolTx>, result: ExecResult)
    requires pool != [] && HasRoom(lim, info, pool) && result.gasUsed <= pool[0].tx.gasLimit
    ensures
      var tx := pool[0].tx;
      HasRoom(lim, Recorded(info, env, tx, result, None, tx.daSize, FeeOf(env, tx, result.gasUsed)), pool[1..])
  {
  }

  lemma FirstReplays(env: Env, db0: Db, info: Info, db: Db, pool: seq<PoolTx>, keep: seq<bool>)
    requires WellBehaved(env) && Consistent(env, db0, info, db) && pool != [] && |keep| == |pool| && keep[0]
    requires Unrolls(env, db0, info.txs, pool, keep)
    ensures
      var o := env.transact(db.world, pool[0].tx);
      o.Done? && o.result.gasUsed <= pool[0].tx.gasLimit
  {
    var more := info.txs + [pool[0].tx];
    assert more[..|more| - 1] == info.txs && Unrolls(env, db0, more, pool[1..], keep[1..]);
    assert OutcomeOk(env, db.world, pool[0].tx, env.transact(db.world, pool[0].tx));
  }

  function GasLimitsBy(pool: seq<PoolTx>, a: Address): nat {
    if pool == [] then 0
    else (if pool[0].tx.signer == a then pool[0].tx.gasLimit else 0) + GasLimitsBy(pool[1..], a)
  }

  /** The limiter leaves every sender enough for all its transactions. */
  ghost predicate Covers(l: Limiter, pool: seq<PoolTx>) {
    l.Enabled? ==> Valid(l) && forall a :: GasLimitsBy(pool, a) <= Available(l, a)
  }

  /** Passing over the first leaves more room and more gas for the rest. */
  lemma RestHasRoom(lim: Limits, info: Info, l: Limiter, pool: seq<PoolTx>)
    requires pool != [] && HasRoom(lim, info, pool) && Covers(l, pool)
    ensures HasRoom(lim, info, pool[1..]) && Covers(l, pool[1..])
    ensures OverLimits(info, lim, pool[0].tx.daSize, pool[0].tx.gasLimit).None?
  {
    FirstHasRoom(lim, info, pool);
    if info.scalar.Some? {
      MulLe(info.da + DaSizes(pool[1..]), info.da + DaSizes(pool), info.scalar.value);
    }
    if l.Enabled? {
      forall a ensures GasLimitsBy(pool[1..], a) <= Available(l, a) {
        assert GasLimitsBy(pool, a) <= Available(l, a);
      }
    }
  }

  lemma FirstIsCovered(l: Limiter, pool: seq<PoolTx>, gasUsed: nat)
    requires pool != [] && Covers(l, pool) && gasUsed <= pool[0].tx.gasLimit
    ensures
      var (ok, charged) := Consume(l, pool[0].tx.signer, gasUsed);
      ok && Covers(charged, pool[1..])
  {
    if l.Enabled? {
      var signer := pool[0].tx.signer;
      assert GasLimitsBy(pool, signer) <= Available(l, signer);
      ConsumeRefinesTotal(l, signer, gasUsed);
      var charged := Consume(l, signer, gasUsed).1;
      forall a ensures GasLimitsBy(pool[1..], a) <= Available(charged, a) {
        assert GasLimitsBy(pool, a) <= Available(l, a);
      }
    }
  }

  /** The first transaction of the pool is included if nothing stands in its way. */
  lemma FirstIsIncluded(c: Ctx, lim: Limits, m: Machine)
    requires m.best.pool != [] && Unhindered(c, m.best, m.best.pool[0])
    requires OverLimits(m.info, lim, m.best.pool[0].tx.daSize, m.best.pool[0].tx.gasLimit).None?
    requires c.env.transact(m.db.world, m.best.pool[0].tx).Done?
    requires
      var tx := m.best.pool[0].tx;
      var gasUsed := c.env.transact(m.db.world, tx).result.gasUsed;
      gasUsed <= tx.gasLimit && Consume(m.limiter, tx.signer, gasUsed).0
    ensures
      var p, rest := m.best.pool[0], m.best.(pool := m.best.pool[1..]);
      var o := c.env.transact(m.db.world, p.tx);
      var charged := Consume(m.limiter, p.tx.signer, o.result.gasUsed).1;
      PoolStep(c, lim, m, false) ==
      Proceed(Included(c, m, p, o.result, o.change, rest, charged), [Pick(p, o.result)])
  {
    assert m.best.Next() == (Some(m.best.pool[0]), m.best.(pool := m.best.pool[1..]));
  }

  /** What is kept of the pool replays, there is room and gas for all of it, and nothing else stands in its way. */
  ghost predicate PoolFits(c: Ctx, lim: Limits, m: Machine, db0: Db, keep: seq<bool>) {
    && Consistent(c.env, db0, m.info, m.db)
    && (forall p :: p in m.best.pool ==> Unhindered(c, m.best, p))
    && HasRoom(lim, m.info, m.best.pool) && Covers(m.limiter, m.best.pool)
    && |keep| == |m.best.pool| && Unrolls(c.env, db0, m.info.txs, m.best.pool, keep)
  }

  /** One step takes the first transaction off the pool, includes it if it is kept, and what is left still fits. */
  ghost predicate StepFits(c: Ctx, lim: Limits, m: Machine, r: Step, db0: Db, keep: seq<bool>)
    requires m.best.pool != [] && |keep| == |m.best.pool|
  {
    && r.Proceed? && r.m.best.pool == m.best.pool[1..] && PoolFits(c, lim, r.m, db0, keep[1..])
    && r.m.info.txs == m.info.txs + if keep[0] then [m.best.pool[0].tx] else []
  }

  lemma KeptStep(c: Ctx, lim: Limits, m: Machine, db0: Db, keep: seq<bool>)
    requires WellBehaved(c.env) && PoolFits(c, lim, m, db0, keep) && m.best.pool != [] && keep[0]
    ensures StepFits(c, lim, m, PoolStep(c, lim, m, false), db0, keep)
  {
    var p := m.best.pool[0];
    FirstReplays(c.env, db0, m.info, m.db, m.best.pool, keep);
    var o := c.env.transact(m.db.world, p.tx);
    FirstHasRoom(lim, m.info, m.best.pool);
    RoomAfterFirst(c.env, lim, m.info, m.best.pool, o.result);
    FirstIsCovered(m.limiter, m.best.pool, o.result.gasUsed);
    FirstIsIncluded(c, lim, m);
    RecordKeepsConsistent(c.env, db0, m.info, m.db, p.tx, None, FeeOf(c.env, p.tx, o.result.gasUsed));
    RestIsUnhindered(c, m.best);
  }

  lemma RestIsUnhindered(c: Ctx, b: Best)
    requires b.pool != [] && forall p :: p in b.pool ==> Unhindered(c, b, p)
    ensures
      var rest := b.(pool := b.pool[1..]);
      forall p :: p in rest.pool ==> Unhindered(c, rest, p)
  {
    var rest := b.(pool := b.pool[1..]);
    forall p | p in rest.pool ensures Unhindered(c, rest, p) {
      assert p in b.pool;
    }
  }

  /** A transaction whose nonce is already used is passed over. */
  lemma StaleStep(c: Ctx, lim: Limits, m: Machine, db0: Db, keep: seq<bool>)
    requires PoolFits(c, lim, m, db0, keep) && m.best.pool != [] && !keep[0]
    ensures StepFits(c, lim, m, PoolStep(c, lim, m, false), db0, keep)
  {
    var rest := m.best.(pool := m.best.pool[1..]);
    RestHasRoom(lim, m.info, m.limiter, m.best.pool);
    assert m.best.pool[0] in m.best.pool;
    assert m.best.Next() == (Some(m.best.pool[0]), rest);
    StepIsExact(c, lim, m, false);
    RestIsUnhindered(c, m.best);
  }

  lemma RunPoolUnfolds(c: Ctx, lim: Limits, m: Machine, live: nat)
    ensures m.best.pool == [] ==> RunPool(c, lim, m, live) == (Drained, m)
    ensures
      var r := PoolStep(c, lim, m, false);
      live > 0 && r.Proceed? ==> RunPool(c, lim, m, live) == RunPool(c, lim, r.m, live - 1)
  {
  }

  /** The mask for what is left of the pool, given the one for all of it. */
  function MaskFor(m: Machine, keep: seq<bool>): seq<bool> {
    if |m.best.pool| <= |keep| then keep[|keep| - |m.best.pool|..] else seq(|m.best.pool|, _ => true)
  }

  /** One live step keeps `fits` and what the block will hold; the run goes on from there. */
  ghost predicate Takes(step: Machine -> Step, run: (Machine, nat) -> (Exit, Machine), m: Machine,
                        fits: Machine -> bool, block: Machine -> seq<Tx>)
  {
    var r := step(m);
    && r.Proceed? && |r.m.best.pool| == |m.best.pool| - 1 && fits(r.m)
    && block(r.m) == block(m)
    && GoesOn(run, m, r.m)
  }

  lemma {:induction false} DrainsWhileFitting(step: Machine -> Step, run: (Machine, nat) -> (Exit, Machine), m: Machine,
                                              live: nat, fits: Machine -> bool, block: Machine -> seq<Tx>)
    requires fits(m) && live >= |m.best.pool|
    requires forall n: Machine, l: nat {:trigger run(n, l)} :: n.best.pool == [] ==> run(n, l) == (Drained, n)
    requires forall n: Machine {:trigger block(n)} :: n.best.pool == [] ==> block(n) == n.info.txs
    requires forall n: Machine {:trigger Takes(step, run, n, fits, block)} ::
               fits(n) && n.best.pool != [] ==> Takes(step, run, n, fits, block)
    ensures
      var (exit, m') := run(m, live);
      exit == Drained && m'.info.txs == block(m)
    decreases |m.best.pool|
  {
    if m.best.pool != [] {
      assert Takes(step, run, m, fits, block);
      DrainsWhileFitting(step, run, step(m).m, live - 1, fits, block);
    }
  }

  function StepOf(c: Ctx, lim: Limits): Machine -> Step {
    (m: Machine) => PoolStep(c, lim, m, false)
  }

  function RunOf(c: Ctx, lim: Limits): (Machine, nat) -> (Exit, Machine) {
    (m: Machine, live: nat) => RunPool(c, lim, m, live)
  }

  ghost function FitsOf(c: Ctx, lim: Limits, db0: Db, keep: seq<bool>): Machine -> bool {
    (m: Machine) => |m.best.pool| <= |keep| && PoolFits(c, lim, m, db0, MaskFor(m, keep))
  }

  /** What the block holds once the pool is drained. */
  function BlockOf(keep: seq<bool>): Machine -> seq<Tx> {
    (m: Machine) => m.info.txs + Kept(m.best.pool, MaskFor(m, keep))
  }

  /** The run goes on from where a step leads. */
  ghost predicate GoesOn(run: (Machine, nat) -> (Exit, Machine), m: Machine, next: Machine) {
    forall live: nat :: live > 0 ==> run(m, live) == run(next, live - 1)
  }

  lemma RunGoesOn(c: Ctx, lim: Limits, m: Machine)
    requires PoolStep(c, lim, m, false).Proceed?
    ensures GoesOn(RunOf(c, lim), m, PoolStep(c, lim, m, false).m)
  {
    var run, next := RunOf(c, lim), PoolStep(c, lim, m, false).m;
    forall live: nat | live > 0 ensures run(m, live) == run(next, live - 1) {
      RunPoolUnfolds(c, lim, m, live);
    }
  }

  lemma KeptOfRest(m: Machine, next: Machine, keep: seq<bool>)
    requires 0 < |m.best.pool| <= |keep| && next.best.pool == m.best.pool[1..]
    requires next.info.txs == m.info.txs + if MaskFor(m, keep)[0] then [m.best.pool[0].tx] else []
    ensures MaskFor(next, keep) == MaskFor(m, keep)[1..] && BlockOf(keep)(next) == BlockOf(keep)(m)
  {
    var mask, rest := MaskFor(m, keep), Kept(next.best.pool, MaskFor(next, keep));
    assert MaskFor(next, keep) == mask[1..];
    if mask[0] {
      assert m.info.txs + [m.best.pool[0].tx] + rest == m.info.txs + ([m.best.pool[0].tx] + rest);
    } else {
      assert m.info.txs + [] == m.info.txs && [] + rest == rest;
    }
  }

  lemma FittingTakes(c: Ctx, lim: Limits, m: Machine, db0: Db, keep: seq<bool>)
    requires WellBehaved(c.env) && FitsOf(c, lim, db0, keep)(m) && m.best.pool != []
    ensures Takes(StepOf(c, lim), RunOf(c, lim), m, FitsOf(c, lim, db0, keep), BlockOf(keep))
  {
    var mask := MaskFor(m, keep);
    if mask[0] {
      KeptStep(c, lim, m, db0, mask);
    } else {
      StaleStep(c, lim, m, db0, mask);
    }
    KeptOfRest(m, PoolStep(c, lim, m, false).m, keep);
    RunGoesOn(c, lim, m);
  }

  lemma EmptyPoolDrains(c: Ctx, lim: Limits)
    ensures forall m: Machine, l: nat {:trigger RunOf(c, lim)(m, l)} ::
              m.best.pool == [] ==> RunOf(c, lim)(m, l) == (Drained, m)
  {
    forall m: Machine, l: nat | m.best.pool == [] ensures RunOf(c, lim)(m, l) == (Drained, m) {
      RunPoolUnfolds(c, lim, m, l);
    }
  }

  lemma EmptyPoolAddsNothing(keep: seq<bool>)
    ensures forall m: Machine {:trigger BlockOf(keep)(m)} :: m.best.pool == [] ==> BlockOf(keep)(m) == m.info.txs
  {
  }

  /**
    Such a pool is included in full and in order, apart from the transactions whose nonce is already used, when the
    token stays alive.
   */
  lemma ReplayablePoolIsIncluded(c: Ctx, lim: Limits, m: Machine, live: nat, db0: Db, keep: seq<bool>)
    requires WellBehaved(c.env) && PoolFits(c, lim, m, db0, keep) && live >= |m.best.pool|
    ensures
      var (exit, m') := RunPool(c, lim, m, live);
      exit == Drained && m'.info.txs == m.info.txs + Kept(m.best.pool, keep)
  {
    var step, run, fits, block := StepOf(c, lim), RunOf(c, lim), FitsOf(c, lim, db0, keep), BlockOf(keep);
    EmptyPoolDrains(c, lim);
    EmptyPoolAddsNothing(keep);
    forall n: Machine | fits(n) && n.best.pool != [] ensures Takes(step, run, n, fits, block) {
      FittingTakes(c, lim, n, db0, keep);
    }
    assert MaskFor(m, keep) == keep;
    DrainsWhileFitting(step, run, m, live, fits, block);
    assert run(m, live) == RunPool(c, lim, m, live);
  }
}
