/**
  Gas, DA and DA footprint budgets over a whole block. All three are metered the same way: flashblock
  j may fill the block up to j batch shares, and the builder's own transactions come on top of that,
  unchecked.
 */
module Budgets {
  import opened Prelude
  import opened Evm
  import opened Database
  import opened Execution
  import opened Replay
  import opened Overrides
  import opened PoolExecutor
  import opened Sequencer
  import opened Sidecar
  import opened BuilderTx
  import opened Sealing
  import opened Flashblocks
  import opened BuildRuns

  /* Arithmetic of a meter */

  /** After j flashblocks: either everything came from the builder itself, or the meter is within j shares. */
  ghost predicate MeterAt(m: nat, base: nat, top: nat, share: nat, j: nat) {
    m <= base + j * top || m <= j * share
  }

  lemma MeterStep(m: nat, m': nat, base: nat, top: nat, share: nat, j: nat)
    requires MeterAt(m, base, top, share, j) && top <= share
    requires m' <= m + top || m' <= (j + 1) * share
    ensures MeterAt(m', base, top, share, j + 1)
  {
    MulSucc(j, top);
    MulSucc(j, share);
  }

  /** The last flashblock also holds the bottom-of-block transactions. */
  lemma MeterLast(m: nat, m': nat, base: nat, top: nat, bottom: nat, share: nat, j: nat)
    requires MeterAt(m, base, top, share, j) && top + bottom <= share
    requires m' <= m + top + bottom || m' <= (j + 1) * share
    ensures m' <= base + (j + 1) * top + bottom || m' <= (j + 1) * share
  {
    MulSucc(j, top);
    MulSucc(j, share);
  }

  lemma MeterWithin(m: nat, base: nat, top: nat, bottom: nat, limit: nat, count: nat, j: nat)
    requires count >= 1 && j <= count && MeterAt(m, base, top, Share(limit, count), j)
    requires base + count * top + bottom <= limit
    ensures m <= limit
  {
    SharesFit(limit, count, j);
    MulLe(j, count, top);
  }

  lemma SharesFit(limit: nat, count: nat, j: nat)
    requires count >= 1 && j <= count
    ensures j * Share(limit, count) <= limit
  {
    MulLe(j, count, Share(limit, count));
  }

  lemma Distribute(a: nat, b: nat, k: nat)
    ensures (a + b) * k == a * k + b * k
  {
  }

  /* What the builder's own transactions may add */

  /**
    Allowances for the builder: gas and DA of the transactions it puts at the top of each flashblock,
    and of those it puts at the bottom of the last one.
   */
  datatype Allowance = Allowance(topGas: nat, bottomGas: nat, topDa: nat, bottomDa: nat)

  /** What one pass over the candidates really adds to the block. */
  predicate AddsAtMost(info: Info, added: Added, gas: nat, da: nat) {
    added.info.gas <= info.gas + gas && added.info.da <= info.da + da
  }

  /** The last flashblock reserves at least the bottom allowance; no earlier one reserves anything. */
  predicate Reserves(cs: seq<Candidate>, last: bool, b: Allowance) {
    if last then b.bottomGas <= ReservedGas(cs) && b.bottomDa <= DaCap(cs, false)
    else ReservedGas(cs) == 0 && DaCap(cs, false) == 0
  }

  /**
    Both passes use no more than their allowance, and the first one reserves for the second. A pass that fails
    reserves nothing.
   */
  predicate PassWithin(s: Settings, pos: Position, info: Info, db: Db, top: bool, b: Allowance) {
    var added := AddCandidates(s.env, info, db, s.simulate(pos, db, info.txs, top), top);
    if top then Reserves(added.candidates.GetOr([]), pos.Last(), b) && AddsAtMost(info, added, b.topGas, b.topDa)
    else if pos.Last() then AddsAtMost(info, added, b.bottomGas, b.bottomDa)
    else AddsAtMost(info, added, 0, 0)
  }

  /** In this turn the builder uses no more than what is reserved for it: at its opening, and after pool and sidecar. */
  predicate TurnWithin(s: Settings, st: State, i: Input, b: Allowance) {
    && PassWithin(s, st.extra.Pos(), st.info, st.db, true, b)
    && (var r := BeforeClosing(s, st, i); r.Accepted? ==> PassWithin(s, st.extra.Pos(), r.info, r.db, false, b))
  }

  /** The turns of a run that stay within the allowance. */
  function StaysWithin(s: Settings, b: Allowance): (State, Input) -> bool {
    (t: State, i: Input) => TurnWithin(s, t, i, b)
  }

  /** The same in terms of gas limits, which is enough. */
  predicate CandidatesWithin(cs: seq<Candidate>, last: bool, top: bool, b: Allowance) {
    && (top ==> Reserves(cs, last, b) && GasCap(cs, true) <= b.topGas && DaCap(cs, true) <= b.topDa)
    && (!top ==>
          if last then GasCap(cs, false) <= b.bottomGas && DaCap(cs, false) <= b.bottomDa
          else GasCap(cs, false) == 0 && DaCap(cs, false) == 0)
  }

  lemma GasLimitsSuffice(s: Settings, pos: Position, info: Info, db: Db, top: bool, b: Allowance)
    requires WellBehaved(s.env) && s.simulate(pos, db, info.txs, top).Some?
    requires CandidatesWithin(s.simulate(pos, db, info.txs, top).value, pos.Last(), top, b)
    requires top ==> RunCandidates(s.env, info, db, s.simulate(pos, db, info.txs, top).value, true, {}).0
    ensures PassWithin(s, pos, info, db, top, b)
  {
    CandidatesAddAtMost(s.env, info, db, s.simulate(pos, db, info.txs, top).value, top, {});
  }

  /* One flashblock */

  lemma OpeningAdds(s: Settings, st: State, b: Allowance)
    requires WellBehaved(s.env) && PassWithin(s, st.extra.Pos(), st.info, st.db, true, b)
    ensures
      var added := Opening(s, st);
      && Reserves(added.candidates.GetOr([]), st.extra.Pos().Last(), b)
      && added.info.gas <= st.info.gas + b.topGas
      && added.info.da <= st.info.da + b.topDa
      && added.info.scalar == st.info.scalar
  {
    var cs := s.simulate(st.extra.Pos(), st.db, st.info.txs, true);
    if cs.Some? {
      CandidatesAddAtMost(s.env, st.info, st.db, cs.value, true, {});
    }
  }

  lemma ClosingAdds(s: Settings, e: Extra, info: Info, db: Db, b: Allowance)
    requires WellBehaved(s.env) && PassWithin(s, e.Pos(), info, db, false, b)
    ensures
      var added := Closing(s, e, info, db);
      && added.info.gas <= info.gas + (if e.Pos().Last() then b.bottomGas else 0)
      && added.info.da <= info.da + (if e.Pos().Last() then b.bottomDa else 0)
      && added.info.scalar == info.scalar
  {
    var cs := s.simulate(e.Pos(), db, info.txs, false);
    if cs.Some? {
      CandidatesAddAtMost(s.env, info, db, cs.value, false, {});
    }
  }

  /** Pool and sidecar together stay within the limits of the batch. */
  lemma ExecutionRespectsLimits(s: Settings, st: State, i: Input)
    requires WellBehaved(s.env) && NoWrap(s.env, LimitsOf(s, st), Opening(s, st).info)
    ensures
      var r := BeforeClosing(s, st, i);
      r.Accepted? ==> Respects(LimitsOf(s, st), Opening(s, st).info, r.info)
  {
    var lim := LimitsOf(s, st);
    PoolRespectsLimits(s.Pool(), lim, PoolStart(s, st, i), i.live);
    var m := PoolPhase(s, st, i).1;
    if i.poll.Received? && i.poll.txs != [] && RunSidecar(s.Pool(), lim, m.info, m.db, i.poll.txs).Accepted? {
      SidecarRespectsLimits(s.Pool(), lim, m.info, m.db, i.poll.txs);
      RespectsTrans(lim, Opening(s, st).info, m.info, RunSidecar(s.Pool(), lim, m.info, m.db, i.poll.txs).info);
    }
  }

  /** The meters after the phases of one flashblock, against the limits of its batch. */
  lemma PhasesMeter(s: Settings, st: State, i: Input, b: Allowance)
    requires WellBehaved(s.env) && TurnWithin(s, st, i, b)
    requires 1 <= st.extra.index <= st.extra.count
    requires NoWrap(s.env, LimitsOf(s, st), Opening(s, st).info)
    requires ExecutePhases(s, st, i).Draft?
    ensures
      var info' := ExecutePhases(s, st, i).st.info;
      var lim, last := LimitsOf(s, st), st.extra.Pos().Last();
      && info'.gas <= Max(st.info.gas + b.topGas, lim.gas) + (if last then b.bottomGas else 0)
      && (lim.blockDa.Some? ==>
            info'.da <= Max(st.info.da + b.topDa, lim.blockDa.value) + (if last then b.bottomDa else 0))
      && info'.scalar == st.info.scalar
  {
    OpeningAdds(s, st, b);
    ExecutionRespectsLimits(s, st, i);
    var r := BeforeClosing(s, st, i);
    ClosingAdds(s, st.extra, r.info, r.db, b);
  }

  /** From `before` to `end` DA bytes: no more footprint than the limit or the opening leaves, plus the closing's. */
  ghost predicate FootprintStays(before: nat, end: nat, top: nat, bottom: nat, k: nat, lim: nat) {
    end * k <= Max(before * k + top * k, lim) + bottom * k
  }

  lemma FootprintAdds(before: nat, top: nat, start: nat, mid: nat, end: nat, bottom: nat, k: nat, lim: nat)
    requires start <= before + top && mid * k <= Max(start * k, lim) && end <= mid + bottom
    ensures FootprintStays(before, end, top, bottom, k, lim)
  {
    MulLe(start, before + top, k);
    Distribute(before, top, k);
    MulLe(end, mid + bottom, k);
    Distribute(mid, bottom, k);
  }

  /** DA bytes through the phases of one flashblock: at the opening, before the closing and at the end. */
  lemma PhasesDa(s: Settings, st: State, i: Input, b: Allowance) returns (start: nat, mid: nat)
    requires WellBehaved(s.env) && TurnWithin(s, st, i, b) && 1 <= st.extra.index <= st.extra.count
    requires NoWrap(s.env, LimitsOf(s, st), Opening(s, st).info) && ExecutePhases(s, st, i).Draft?
    ensures start <= st.info.da + b.topDa
    ensures ExecutePhases(s, st, i).st.info.da <= mid + if st.extra.Pos().Last() then b.bottomDa else 0
    ensures st.info.scalar.Some? ==>
              var (k, lim) := (st.info.scalar.value, LimitsOf(s, st));
              mid * k <= Max(start * k, lim.footprint.GetOr(lim.gas))
  {
    OpeningAdds(s, st, b);
    ExecutionRespectsLimits(s, st, i);
    var r := BeforeClosing(s, st, i);
    ClosingAdds(s, st.extra, r.info, r.db, b);
    start, mid := Opening(s, st).info.da, r.info.da;
  }

  lemma PhasesMeterFootprint(s: Settings, st: State, i: Input, b: Allowance, k: nat)
    requires WellBehaved(s.env) && TurnWithin(s, st, i, b) && 1 <= st.extra.index <= st.extra.count
    requires NoWrap(s.env, LimitsOf(s, st), Opening(s, st).info) && ExecutePhases(s, st, i).Draft?
    requires st.info.scalar == Some(k)
    ensures
      var lim, bottom := LimitsOf(s, st), if st.extra.Pos().Last() then b.bottomDa else 0;
      FootprintStays(st.info.da, ExecutePhases(s, st, i).st.info.da, b.topDa, bottom, k, lim.footprint.GetOr(lim.gas))
  {
    var start, mid := PhasesDa(s, st, i, b);
    var lim, bottom := LimitsOf(s, st), if st.extra.Pos().Last() then b.bottomDa else 0;
    FootprintAdds(st.info.da, b.topDa, start, mid, ExecutePhases(s, st, i).st.info.da, bottom, k,
                  lim.footprint.GetOr(lim.gas));
  }

  /* Targets */

  function Times(share: Option<nat>, j: nat): Option<nat> {
    if share.Some? then Some(j * share.value) else None
  }

  /**
    The gas target of flashblock i is exactly i shares of the block gas limit. So are the DA and
    footprint targets, for every flashblock up to the last.
   */
  ghost predicate OnTarget(s: Settings, e: Extra, scalar: Option<nat>) {
    && 1 <= e.index <= e.count + 1 && 1 <= e.count
    && e.gasPerBatch == Share(s.blockGasLimit, e.count)
    && e.daPerBatch == (if s.maxDaBlock.Some? then Some(Share(s.maxDaBlock.value, e.count)) else None)
    && e.footprintPerBatch == (if scalar.Some? then Some(e.gasPerBatch) else None)
    && e.targetGas == e.index * e.gasPerBatch
    && (e.index <= e.count ==>
          e.targetDa == Times(e.daPerBatch, e.index) && e.targetFootprint == Times(e.footprintPerBatch, e.index))
  }

  lemma NextIsOnTarget(s: Settings, e: Extra, cs: seq<Candidate>, scalar: Option<nat>, b: Allowance)
    requires OnTarget(s, e, scalar) && e.index <= e.count
    requires Reserves(cs, e.Pos().Last(), b)
    ensures OnTarget(s, NextExtra(e, ReservedExtra(e, cs, scalar)), scalar)
  {
    MulSucc(e.index, e.gasPerBatch);
    if e.daPerBatch.Some? {
      MulSucc(e.index, e.daPerBatch.value);
    }
    if scalar.Some? {
      assert SatMul(0, scalar.value) == 0;
    }
  }

  /** On target, the last flashblock may fill the block up to its limits, to within one unit per flashblock. */
  lemma LastTargetsReachTheLimits(s: Settings, e: Extra, scalar: Option<nat>)
    requires OnTarget(s, e, scalar) && e.index == e.count
    ensures s.blockGasLimit - e.count < e.targetGas <= s.blockGasLimit
    ensures s.maxDaBlock.Some? ==>
              e.targetDa.Some? && s.maxDaBlock.value - e.count < e.targetDa.value <= s.maxDaBlock.value
    ensures scalar.Some? ==>
              e.targetFootprint.Some? && s.blockGasLimit - e.count < e.targetFootprint.value <= s.blockGasLimit
  {
  }

  /**
    On target, the transactions of a flashblock get exactly its shares of gas, DA and footprint, less what is
    reserved for the builder's closing transactions, and the operator's limit on the size of a transaction.
   */
  lemma TurnLimitsAreExact(s: Settings, st: State, scalar: Option<nat>)
    requires OnTarget(s, st.extra, scalar) && st.extra.index <= st.extra.count && Opening(s, st).info.scalar == scalar
    ensures
      var lim, e, cs := LimitsOf(s, st), st.extra, Opening(s, st).candidates.GetOr([]);
      && lim.gas == SatSub(e.index * e.gasPerBatch, ReservedGas(cs)) && lim.txDa == s.maxDaTx
      && lim.blockDa == (if s.maxDaBlock.Some? then Some(SatSub(e.index * e.daPerBatch.value, DaCap(cs, false)))
                         else None)
      && lim.footprint == (if scalar.Some?
                           then Some(SatSub(e.index * e.gasPerBatch, SatMul(DaCap(cs, false), scalar.value))) else None)
  {
    SharesFit(s.blockGasLimit, st.extra.count, st.extra.index);
  }

  /**
    A DA or footprint reservation is not given back: the next target moves on by a full share if and only
    if nothing was reserved (or there was nothing left to reserve from). The gas target always moves on by
    a full share.
   */
  lemma DaTargetKeepsReservation(e: Extra, cs: seq<Candidate>, k: nat, share: nat, target: nat, perBatch: nat,
                                 footprint: nat)
    requires e.daPerBatch == Some(share) && e.targetDa == Some(target)
    requires e.footprintPerBatch == Some(perBatch) && e.targetFootprint == Some(footprint)
    ensures
      var next := NextExtra(e, ReservedExtra(e, cs, Some(k)));
      && (next.targetDa == Some(target + share) <==> DaCap(cs, false) == 0 || target == 0)
      && (next.targetFootprint == Some(footprint + perBatch) <==> DaCap(cs, false) * k == 0 || footprint == 0)
      && next.targetGas == e.targetGas + e.gasPerBatch
  {
  }

  /** A concrete reservation that is lost to the next flashblock. */
  lemma ReservationIsLost(tx: Signed)
    requires tx.daSize == 100
    ensures
      var e := Extra(1, 4, 1_000, Some(500), Some(900), 1_000, Some(500), Some(900));
      var next := NextExtra(e, ReservedExtra(e, [Candidate(21_000, tx, false)], Some(2)));
      next.targetGas == 2_000 && next.targetDa == Some(900) && next.targetFootprint == Some(1_600)
  {
    var c := Candidate(21_000, tx, false);
    assert [c][1..] == [] && DaCap([c], false) == 100 && ReservedGas([c]) == 21_000;
  }

  /* Whole runs */

  /** The base and the builder's transactions fit in a limit, and those of one flashblock in one share of it. */
  ghost predicate MeterFits(base: nat, top: nat, bottom: nat, limit: nat, count: nat) {
    1 <= count && base + count * top + bottom <= limit && top + bottom <= Share(limit, count)
  }

  ghost predicate GasAndDaFit(s: Settings, base: Info, b: Allowance, count: nat) {
    && s.blockGasLimit + s.env.gasLimit <= U64_MAX && s.blockGasLimit < U64_MAX
    && MeterFits(base.gas, b.topGas, b.bottomGas, s.blockGasLimit, count)
    && (s.maxDaBlock.Some? ==>
          && s.maxDaBlock.value < U64_MAX
          && MeterFits(base.da, b.topDa, b.bottomDa, s.maxDaBlock.value, count))
  }

  ghost predicate FootprintFits(s: Settings, base: Info, b: Allowance, count: nat, k: nat) {
    MeterFits(base.da * k, b.topDa * k, b.bottomDa * k, s.blockGasLimit, count)
  }

  /** The builder fits into the block next to what the fallback block already holds. */
  ghost predicate BuilderFits(s: Settings, base: Info, b: Allowance, count: nat) {
    && GasAndDaFit(s, base, b, count)
    && (base.scalar.Some? ==> FootprintFits(s, base, b, count, base.scalar.value))
  }

  /** A meter before flashblock `index`, or after the last one. */
  ghost predicate Metered(m: nat, base: nat, top: nat, bottom: nat, share: nat, e: Extra) {
    if e.index <= e.count then MeterAt(m, base, top, share, SatSub(e.index, 1))
    else m <= base + e.count * top + bottom || m <= e.count * share
  }

  ghost predicate GasAndDaBudgeted(s: Settings, st: State, base: Info, b: Allowance) {
    && OnTarget(s, st.extra, base.scalar)
    && st.info.scalar == base.scalar
    && Metered(st.info.gas, base.gas, b.topGas, b.bottomGas, st.extra.gasPerBatch, st.extra)
    && (s.maxDaBlock.Some? ==>
          Metered(st.info.da, base.da, b.topDa, b.bottomDa, st.extra.daPerBatch.value, st.extra))
  }

  ghost predicate FootprintBudgeted(st: State, base: Info, b: Allowance, k: nat) {
    Metered(st.info.da * k, base.da * k, b.topDa * k, b.bottomDa * k, st.extra.gasPerBatch, st.extra)
  }

  ghost predicate Budgeted(s: Settings, st: State, base: Info, b: Allowance) {
    && GasAndDaBudgeted(s, st, base, b)
    && (base.scalar.Some? ==> FootprintBudgeted(st, base, b, base.scalar.value))
  }

  /** One flashblock moves a meter on as its limit allows. */
  lemma MeterTurn(m: nat, m': nat, base: nat, top: nat, bottom: nat, reserved: nat, share: nat, e: Extra, e': Extra,
                  lim: nat)
    requires 1 <= e.index <= e.count && e'.index == e.index + 1 && e'.count == e.count
    requires Metered(m, base, top, bottom, share, e) && top + bottom <= share
    requires e.Pos().Last() ==> bottom <= reserved
    requires lim <= SatSub(e.index * share, reserved)
    requires m' <= Max(m + top, lim) + (if e.Pos().Last() then bottom else 0)
    ensures Metered(m', base, top, bottom, share, e')
  {
    if e.Pos().Last() {
      MeterLast(m, m', base, top, bottom, share, e.index - 1);
    } else {
      MeterStep(m, m', base, top, share, e.index - 1);
    }
  }

  lemma MeteredWithin(m: nat, base: nat, top: nat, bottom: nat, limit: nat, e: Extra)
    requires 1 <= e.index <= e.count + 1 && 1 <= e.count
    requires Metered(m, base, top, bottom, Share(limit, e.count), e)
    requires base + e.count * top + bottom <= limit
    ensures m <= limit
    ensures e.index <= e.count && top <= Share(limit, e.count) ==> m + top <= limit
  {
    if e.index <= e.count {
      MeterWithin(m, base, top, bottom, limit, e.count, e.index - 1);
      if top <= Share(limit, e.count) {
        MeterStep(m, m + top, base, top, Share(limit, e.count), e.index - 1);
        MeterWithin(m + top, base, top, bottom, limit, e.count, e.index);
      }
    } else {
      SharesFit(limit, e.count, e.count);
    }
  }

  /** Gas, DA and footprint of a block are within its limits. */
  predicate WithinBlock(s: Settings, info: Info) {
    && info.gas <= s.blockGasLimit
    && (s.maxDaBlock.Some? ==> info.da <= s.maxDaBlock.value)
    && (info.scalar.Some? ==> info.da * info.scalar.value <= s.blockGasLimit)
  }

  lemma BudgetedIsWithin(s: Settings, st: State, base: Info, b: Allowance)
    requires Budgeted(s, st, base, b) && BuilderFits(s, base, b, st.extra.count)
    ensures WithinBlock(s, st.info)
  {
    MeteredWithin(st.info.gas, base.gas, b.topGas, b.bottomGas, s.blockGasLimit, st.extra);
    if s.maxDaBlock.Some? {
      MeteredWithin(st.info.da, base.da, b.topDa, b.bottomDa, s.maxDaBlock.value, st.extra);
    }
    if base.scalar.Some? {
      var k := base.scalar.value;
      MeteredWithin(st.info.da * k, base.da * k, b.topDa * k, b.bottomDa * k, s.blockGasLimit, st.extra);
    }
  }

  /** Within budget, the unchecked gas addition cannot wrap around. */
  lemma BudgetedCannotWrap(s: Settings, st: State, base: Info, b: Allowance)
    requires WellBehaved(s.env) && PassWithin(s, st.extra.Pos(), st.info, st.db, true, b)
    requires GasAndDaBudgeted(s, st, base, b) && GasAndDaFit(s, base, b, st.extra.count)
        && st.extra.index <= st.extra.count
    ensures NoWrap(s.env, LimitsOf(s, st), Opening(s, st).info)
  {
    OpeningAdds(s, st, b);
    MeteredWithin(st.info.gas, base.gas, b.topGas, b.bottomGas, s.blockGasLimit, st.extra);
    SharesFit(s.blockGasLimit, st.extra.count, st.extra.index);
    if s.maxDaBlock.Some? {
      SharesFit(s.maxDaBlock.value, st.extra.count, st.extra.index);
    }
  }

  lemma FootprintReserve(target: nat, da: nat, bottom: nat, k: nat)
    requires bottom <= da && target <= U64_MAX
    ensures SatSub(target, SatMul(da, k)) <= SatSub(target, bottom * k)
  {
    MulLe(bottom, da, k);
  }

  /** What a completed turn leaves behind, in terms of its draft. */
  lemma CompletedTurn(s: Settings, st: State, i: Input)
    requires NextFlashblock(s, st, i).0 == Continue
    ensures
      var st' := NextFlashblock(s, st, i).1;
      var opening := Opening(s, st);
      && ExecutePhases(s, st, i).Draft?
      && st'.info == ExecutePhases(s, st, i).st.info.(lastIndex := st'.info.lastIndex)
      && st'.extra == NextExtra(st.extra, ReservedExtra(st.extra, opening.candidates.GetOr([]), opening.info.scalar))
  {
  }

  /** Everything a turn needs to stay in budget. */
  ghost predicate TurnReady(s: Settings, st: State, i: Input, base: Info, b: Allowance) {
    && WellBehaved(s.env) && TurnWithin(s, st, i, b)
    && GasAndDaBudgeted(s, st, base, b) && GasAndDaFit(s, base, b, st.extra.count) && st.extra.index <= st.extra.count
    && NextFlashblock(s, st, i).0 == Continue
  }

  lemma TurnMetersGasAndDa(s: Settings, st: State, i: Input, base: Info, b: Allowance)
    requires TurnReady(s, st, i, base, b)
    ensures
      var st' := NextFlashblock(s, st, i).1;
      && st'.info.scalar == base.scalar
      && Metered(st'.info.gas, base.gas, b.topGas, b.bottomGas, st.extra.gasPerBatch, st'.extra)
      && (s.maxDaBlock.Some? ==>
            Metered(st'.info.da, base.da, b.topDa, b.bottomDa, st.extra.daPerBatch.value, st'.extra))
  {
    CompletedTurn(s, st, i);
    OpeningAdds(s, st, b);
    BudgetedCannotWrap(s, st, base, b);
    PhasesMeter(s, st, i, b);
    var e, cs, st', lim := st.extra, Opening(s, st).candidates.GetOr([]), NextFlashblock(s, st, i).1, LimitsOf(s, st);
    MeterTurn(st.info.gas, st'.info.gas, base.gas, b.topGas, b.bottomGas, ReservedGas(cs), e.gasPerBatch, e, st'.extra,
              lim.gas);
    if s.maxDaBlock.Some? {
      MeterTurn(st.info.da, st'.info.da, base.da, b.topDa, b.bottomDa, DaCap(cs, false), e.daPerBatch.value, e,
                st'.extra, lim.blockDa.value);
    }
  }

  /** The footprint of the limit the pool gets in this turn, with the reservation taken off. */
  lemma FootprintLimit(s: Settings, st: State, b: Allowance, k: nat)
    requires WellBehaved(s.env) && PassWithin(s, st.extra.Pos(), st.info, st.db, true, b)
    requires OnTarget(s, st.extra, Some(k)) && st.extra.index <= st.extra.count && st.info.scalar == Some(k)
    requires s.blockGasLimit <= U64_MAX
    ensures
      var lim := LimitsOf(s, st).footprint;
      var bottom := if st.extra.Pos().Last() then b.bottomDa * k else 0;
      lim.Some? && lim.value <= SatSub(st.extra.index * st.extra.gasPerBatch, bottom)
  {
    OpeningAdds(s, st, b);
    var e, cs := st.extra, Opening(s, st).candidates.GetOr([]);
    SharesFit(s.blockGasLimit, e.count, e.index);
    FootprintReserve(e.index * e.gasPerBatch, DaCap(cs, false), if e.Pos().Last() then b.bottomDa else 0, k);
  }

  /** The footprint reserved for the closing builder transactions of the turn. */
  ghost function BottomFootprint(st: State, b: Allowance, k: nat): nat {
    if st.extra.Pos().Last() then b.bottomDa * k else 0
  }

  /** One turn: on to the next index, and no more footprint than the limit or the opening leaves. */
  ghost predicate FootprintStep(st: State, st': State, b: Allowance, k: nat, lim: nat) {
    && st'.extra.index == st.extra.index + 1 && st'.extra.count == st.extra.count
    && st'.extra.gasPerBatch == st.extra.gasPerBatch
    && lim <= SatSub(st.extra.index * st.extra.gasPerBatch, BottomFootprint(st, b, k))
    && st'.info.da * k <= Max(st.info.da * k + b.topDa * k, lim) + BottomFootprint(st, b, k)
  }

  lemma TurnFootprint(s: Settings, st: State, i: Input, base: Info, b: Allowance, k: nat)
    requires TurnReady(s, st, i, base, b) && base.scalar == Some(k)
    ensures LimitsOf(s, st).footprint.Some?
    ensures FootprintStep(st, NextFlashblock(s, st, i).1, b, k, LimitsOf(s, st).footprint.value)
  {
    CompletedTurn(s, st, i);
    BudgetedCannotWrap(s, st, base, b);
    PhasesMeterFootprint(s, st, i, b, k);
    FootprintLimit(s, st, b, k);
  }

  /** What `TurnFootprint` establishes keeps the footprint in budget. */
  lemma FootprintMoves(st: State, st': State, base: Info, b: Allowance, k: nat, lim: nat)
    requires 1 <= st.extra.index <= st.extra.count
    requires FootprintStep(st, st', b, k, lim)
    requires FootprintBudgeted(st, base, b, k) && b.topDa * k + b.bottomDa * k <= st.extra.gasPerBatch
    ensures FootprintBudgeted(st', base, b, k)
  {
    var bottom := BottomFootprint(st, b, k);
    MeterTurn(st.info.da * k, st'.info.da * k, base.da * k, b.topDa * k, b.bottomDa * k, bottom, st.extra.gasPerBatch,
              st.extra, st'.extra, lim);
  }

  lemma TurnMetersFootprint(s: Settings, st: State, i: Input, base: Info, b: Allowance, k: nat)
    requires TurnReady(s, st, i, base, b) && base.scalar == Some(k)
    requires FootprintBudgeted(st, base, b, k) && FootprintFits(s, base, b, st.extra.count, k)
    ensures FootprintBudgeted(NextFlashblock(s, st, i).1, base, b, k)
  {
    TurnFootprint(s, st, i, base, b, k);
    FootprintMoves(st, NextFlashblock(s, st, i).1, base, b, k, LimitsOf(s, st).footprint.value);
  }

  lemma TurnKeepsBudget(s: Settings, st: State, i: Input, base: Info, b: Allowance)
    requires TurnReady(s, st, i, base, b) && Budgeted(s, st, base, b) && BuilderFits(s, base, b, st.extra.count)
    ensures Budgeted(s, NextFlashblock(s, st, i).1, base, b)
  {
    CompletedTurn(s, st, i);
    OpeningAdds(s, st, b);
    NextIsOnTarget(s, st.extra, Opening(s, st).candidates.GetOr([]), base.scalar, b);
    TurnMetersGasAndDa(s, st, i, base, b);
    if base.scalar.Some? {
      TurnMetersFootprint(s, st, i, base, b, base.scalar.value);
    }
  }

  /**
    A sealed block is within the limits: its gas, the DA bytes of its transactions and, after Jovian, their footprint
    in the given scalar, which is also what the header reports.
   */
  ghost predicate PayloadWithin(s: Settings, payload: Payload, scalar: nat) {
    && payload.header.gasUsed <= s.blockGasLimit
    && (s.maxDaBlock.Some? ==> DaOf(payload.header.txs) <= s.maxDaBlock.value)
    && (s.env.jovian ==>
          && DaOf(payload.header.txs) * scalar <= s.blockGasLimit
          && payload.header.blobGasUsed == Some(DaOf(payload.header.txs) * scalar))
  }

  /** The scalar in the state after the attributes' transactions. */
  function ScalarAfter(s: Settings, db0: Db, attributes: seq<Tx>): nat {
    s.env.scalarOf(WorldAfter(s.env, db0, attributes))
  }

  lemma SealedIsWithin(s: Settings, db0: Db, info: Info, db: Db, scalar: nat)
    requires Consistent(s.env, db0, info, db) && WithinBlock(s, info)
    requires info.blobFields == None && (s.env.jovian ==> info.scalar == Some(scalar)) && s.blockGasLimit <= U64_MAX
    ensures PayloadWithin(s, PayloadOf(s.Block(), info, db, s.WithRoot()), scalar)
  {
    if s.env.jovian {
      BlobGasIsFootprint(s.env, info);
    }
  }

  lemma UnfinishedTurnKeepsTargets(s: Settings, st: State, i: Input)
    ensures NextFlashblock(s, st, i).0 != Continue ==> NextFlashblock(s, st, i).1.extra == st.extra
  {
  }

  /**
    Every block a run of the loop puts in the cell is within the block's gas, DA and footprint limits, and the
    targets stay exact multiples of the shares.
   */
  lemma {:induction false} RunsStayWithinLimits(s: Settings, db0: Db, st: State, inputs: seq<Input>, base: Info,
                                                b: Allowance, scalar: nat)
    requires WellBehaved(s.env) && EveryTurn(s, st, inputs, StaysWithin(s, b))
    requires Tracks(db0) && db0.bundle == EMPTY_BUNDLE && LoopHead(s, db0, st)
    requires Budgeted(s, st, base, b) && BuilderFits(s, base, b, st.extra.count)
    requires s.env.jovian ==> base.scalar == Some(scalar)
    ensures
      var st' := BuildLoop(s, st, inputs).1;
      && st'.cell.Some? && PayloadWithin(s, st'.cell.value, scalar)
      && OnTarget(s, st'.extra, base.scalar) && st'.extra.count == st.extra.count
    decreases |inputs|
  {
    BudgetedIsWithin(s, st, base, b);
    SealedIsWithin(s, db0, st.info, st.db, scalar);
    if inputs != [] && st.extra.index <= st.extra.count {
      TurnKeepsLoopHead(s, db0, st, inputs[0]);
      UnfinishedTurnKeepsTargets(s, st, inputs[0]);
      var (verdict, st') := NextFlashblock(s, st, inputs[0]);
      if verdict == Continue {
        CompletedTurn(s, st, inputs[0]);
        TurnKeepsBudget(s, st, inputs[0], base, b);
        RunsStayWithinLimits(s, db0, st', inputs[1..], base, b, scalar);
      }
    }
  }

  /**
    Block limit safety for a whole job: if what the fallback block holds and the builder's own
    transactions fit, a batch share covers the builder's transactions of one flashblock, and in no turn
    the job takes does the builder use more than its allowance, then no block the job ever hands out
    exceeds its gas, DA or DA footprint limit, and after Jovian each reports exactly its footprint.
   */
  lemma JobStaysWithinLimits(s: Settings, db0: Db, limiter: GasLimiter.Limiter, start: Start, inputs: seq<Input>,
                             b: Allowance)
    requires WellBehaved(s.env) && EveryJobTurn(s, db0, limiter, start, inputs, StaysWithin(s, b))
    requires Tracks(db0) && db0.bundle == EMPTY_BUNDLE
    requires Deposited(s, db0, start.attributes).Some? ==>
               BuilderFits(s, Deposited(s, db0, start.attributes).value.0, b, start.count)
    ensures
      var st := RunJob(s, db0, limiter, start, inputs).1;
      st.cell.Some? ==> PayloadWithin(s, st.cell.value, ScalarAfter(s, db0, start.attributes))
  {
    if Deposited(s, db0, start.attributes).Some? {
      var (base, db) := Deposited(s, db0, start.attributes).value;
      var scalar := ScalarAfter(s, db0, start.attributes);
      DepositedKeeps(s, db0, start.attributes);
      BaseIsWithin(s, base, b, start.count);
      SealedIsWithin(s, db0, base, db, scalar);
      var (verdict, st) := Fallback(s, db0, limiter, start);
      if verdict == Continue {
        FallbackReachesLoopHead(s, db0, limiter, start);
        FallbackIsBudgeted(s, db0, limiter, start, b);
        RunsStayWithinLimits(s, db0, st, inputs, base, b, scalar);
      }
    }
  }

  lemma BaseIsWithin(s: Settings, base: Info, b: Allowance, count: nat)
    requires BuilderFits(s, base, b, count)
    ensures WithinBlock(s, base)
  {
    BaseFits(base.gas, b.topGas, b.bottomGas, s.blockGasLimit, count);
    if s.maxDaBlock.Some? {
      BaseFits(base.da, b.topDa, b.bottomDa, s.maxDaBlock.value, count);
    }
    if base.scalar.Some? {
      BaseFootprintFits(s, base, b, count, base.scalar.value);
    }
  }

  lemma BaseFootprintFits(s: Settings, base: Info, b: Allowance, count: nat, k: nat)
    requires FootprintFits(s, base, b, count, k)
    ensures base.da * k <= s.blockGasLimit
  {
    BaseFits(base.da * k, b.topDa * k, b.bottomDa * k, s.blockGasLimit, count);
  }

  lemma BaseFits(base: nat, top: nat, bottom: nat, limit: nat, count: nat)
    requires MeterFits(base, top, bottom, limit, count)
    ensures base <= limit
  {
  }

  lemma FallbackIsBudgeted(s: Settings, db0: Db, limiter: GasLimiter.Limiter, start: Start, b: Allowance)
    requires Fallback(s, db0, limiter, start).0 == Continue
    ensures
      var base := Deposited(s, db0, start.attributes).value.0;
      Budgeted(s, Fallback(s, db0, limiter, start).1, base, b)
          && Fallback(s, db0, limiter, start).1.extra.count == start.count
  {
  }

  /* The plain builder always keeps to its reservation */

  /** The settings use the plain flashblocks builder. */
  ghost predicate UsesPlainBuilder(s: Settings, signer: Address, flash: Option<Flashtest>) {
    forall pos: Position, db: Db, txs: seq<Tx>, top: bool ::
      s.simulate(pos, db, txs, top) == SimulatePlain(s.env, Some(signer), flash, pos, Copy(db), txs)
  }

  /** Size of the base transaction if it is signed in this state. */
  function BaseSize(s: Settings, db: Db, signer: Address): nat {
    s.env.daOf(signer, NonceAt(db.world, signer), EstimateGas(Message(s.env.number)))
  }

  /**
    In the last flashblock, the base transaction committed at the end is no larger than `da`, and the one
    reserved no smaller.
   */
  predicate SizeReserved(s: Settings, st: State, i: Input, signer: Address, da: nat) {
    var r := BeforeClosing(s, st, i);
    st.extra.Pos().Last() ==> da <= BaseSize(s, st.db, signer) && (r.Accepted? ==> BaseSize(s, r.db, signer) <= da)
  }

  lemma PlainPassIsWithin(s: Settings, pos: Position, info: Info, db: Db, top: bool, signer: Address, da: nat)
    requires WellBehaved(s.env) && UsesPlainBuilder(s, signer, None) && 1 <= pos.index <= pos.count
    requires pos.Last() ==> if top then da <= BaseSize(s, db, signer) else BaseSize(s, db, signer) <= da
    ensures PassWithin(s, pos, info, db, top, Allowance(0, EstimateGas(Message(s.env.number)), 0, da))
  {
    var base := BaseCandidate(s.env, Some(signer), Copy(db));
    assert s.simulate(pos, db, info.txs, top) == SimulatePlain(s.env, Some(signer), None, pos, Copy(db), info.txs);
    assert [] + base + [] == base && base[1..] == [] && base == [base[0]];
    OneCandidate(s.env, info, db, base[0], top);
    GasLimitsSuffice(s, pos, info, db, top, Allowance(0, EstimateGas(Message(s.env.number)), 0, da));
  }

  /** The gas limit of the base transaction is what is reserved for it; its size must be too. */
  lemma PlainBuilderIsWithin(s: Settings, st: State, i: Input, signer: Address, da: nat)
    requires WellBehaved(s.env) && UsesPlainBuilder(s, signer, None) && 1 <= st.extra.index <= st.extra.count
    requires SizeReserved(s, st, i, signer, da)
    ensures TurnWithin(s, st, i, Allowance(0, EstimateGas(Message(s.env.number)), 0, da))
  {
    PlainPassIsWithin(s, st.extra.Pos(), st.info, st.db, true, signer, da);
    var r := BeforeClosing(s, st, i);
    if r.Accepted? {
      PlainPassIsWithin(s, st.extra.Pos(), r.info, r.db, false, signer, da);
    }
  }

  /** The settings use the number-contract builder. */
  ghost predicate UsesNumberBuilder(s: Settings, number: NumberContract, flash: Option<Flashtest>) {
    forall pos: Position, db: Db, txs: seq<Tx>, top: bool ::
      s.simulate(pos, db, txs, top) == SimulateNumber(s.env, number, flash, pos, Copy(db), txs, top)
  }

  /** The transaction that opens this turn is within gas limit and size, and the EVM does not fail on it. */
  predicate OpeningBounded(s: Settings, st: State, number: NumberContract, gas: nat, da: nat) {
    var tx := TopCandidate(s.env, number, Copy(st.db))[0].signed;
    tx.gasLimit <= gas && tx.daSize <= da && s.env.transact(st.db.world, tx) != Fatal
  }

  lemma NumberPassIsWithin(s: Settings, pos: Position, info: Info, db: Db, top: bool, number: NumberContract,
                           gas: nat, da: nat)
    requires WellBehaved(s.env) && UsesNumberBuilder(s, number, None) && 1 <= pos.index <= pos.count
    requires
      var tx := TopCandidate(s.env, number, Copy(db))[0].signed;
      top ==> tx.gasLimit <= gas && tx.daSize <= da && s.env.transact(db.world, tx) != Fatal
    ensures PassWithin(s, pos, info, db, top, Allowance(gas, 0, da, 0))
  {
    var opening := TopCandidate(s.env, number, Copy(db));
    assert s.simulate(pos, db, info.txs, top) == SimulateNumber(s.env, number, None, pos, Copy(db), info.txs, top);
    assert opening + [] == opening && opening[1..] == [] && opening == [opening[0]];
    OneCandidate(s.env, info, db, opening[0], top);
    GasLimitsSuffice(s, pos, info, db, top, Allowance(gas, 0, da, 0));
  }

  /** It opens the flashblock with one transaction, commits nothing at its end and reserves nothing. */
  lemma NumberBuilderIsWithin(s: Settings, st: State, i: Input, number: NumberContract, gas: nat, da: nat)
    requires WellBehaved(s.env) && UsesNumberBuilder(s, number, None) && 1 <= st.extra.index <= st.extra.count
    requires OpeningBounded(s, st, number, gas, da)
    ensures TurnWithin(s, st, i, Allowance(gas, 0, da, 0))
  {
    NumberPassIsWithin(s, st.extra.Pos(), st.info, st.db, true, number, gas, da);
    var r := BeforeClosing(s, st, i);
    if r.Accepted? {
      NumberPassIsWithin(s, st.extra.Pos(), r.info, r.db, false, number, gas, da);
    }
  }

  /* The two builders over whole jobs */

  /** One property of turns follows from another, at every index there is. */
  ghost predicate Follows(p: (State, Input) -> bool, q: (State, Input) -> bool) {
    forall t: State, i: Input {:trigger q(t, i)} :: 1 <= t.extra.index <= t.extra.count && p(t, i) ==> q(t, i)
  }

  lemma {:induction false} EveryTurnFollows(s: Settings, st: State, inputs: seq<Input>, p: (State, Input) -> bool,
                                            q: (State, Input) -> bool)
    requires EveryTurn(s, st, inputs, p) && Follows(p, q) && st.extra.index >= 1
    ensures EveryTurn(s, st, inputs, q)
    decreases |inputs|
  {
    if inputs != [] && st.extra.index <= st.extra.count {
      var (verdict, st') := NextFlashblock(s, st, inputs[0]);
      assert q(st, inputs[0]);
      if verdict == Continue {
        CompletedTurn(s, st, inputs[0]);
        EveryTurnFollows(s, st', inputs[1..], p, q);
      }
    }
  }

  lemma EveryJobTurnFollows(s: Settings, db0: Db, limiter: GasLimiter.Limiter, start: Start, inputs: seq<Input>,
                            p: (State, Input) -> bool, q: (State, Input) -> bool)
    requires EveryJobTurn(s, db0, limiter, start, inputs, p) && Follows(p, q)
    ensures EveryJobTurn(s, db0, limiter, start, inputs, q)
  {
    var (verdict, st) := Fallback(s, db0, limiter, start);
    if verdict == Continue {
      EveryTurnFollows(s, st, inputs, p, q);
    }
  }

  function SizesReserved(s: Settings, signer: Address, da: nat): (State, Input) -> bool {
    (t: State, i: Input) => SizeReserved(s, t, i, signer, da)
  }

  /**
    With the plain builder and no flashtestations, only the size of the base transaction is left to check, in
    the last flashblock.
   */
  lemma PlainJobStaysWithinLimits(s: Settings, db0: Db, limiter: GasLimiter.Limiter, start: Start, inputs: seq<Input>,
                                  signer: Address, da: nat)
    requires WellBehaved(s.env) && UsesPlainBuilder(s, signer, None)
    requires Tracks(db0) && db0.bundle == EMPTY_BUNDLE
    requires EveryJobTurn(s, db0, limiter, start, inputs, SizesReserved(s, signer, da))
    requires
      var b := Allowance(0, EstimateGas(Message(s.env.number)), 0, da);
      Deposited(s, db0, start.attributes).Some? ==>
        BuilderFits(s, Deposited(s, db0, start.attributes).value.0, b, start.count)
    ensures
      var st := RunJob(s, db0, limiter, start, inputs).1;
      st.cell.Some? ==> PayloadWithin(s, st.cell.value, ScalarAfter(s, db0, start.attributes))
  {
    var b := Allowance(0, EstimateGas(Message(s.env.number)), 0, da);
    assert Follows(SizesReserved(s, signer, da), StaysWithin(s, b)) by {
      forall t: State, i: Input | 1 <= t.extra.index <= t.extra.count && SizeReserved(s, t, i, signer, da)
        ensures StaysWithin(s, b)(t, i)
      {
        PlainBuilderIsWithin(s, t, i, signer, da);
      }
    }
    EveryJobTurnFollows(s, db0, limiter, start, inputs, SizesReserved(s, signer, da), StaysWithin(s, b));
    JobStaysWithinLimits(s, db0, limiter, start, inputs, b);
  }

  function OpeningsBounded(s: Settings, number: NumberContract, gas: nat, da: nat): (State, Input) -> bool {
    (t: State, i: Input) => OpeningBounded(s, t, number, gas, da)
  }

  /**
    With the number-contract builder and no flashtestations, only the contract call has to be bounded, in the
    states the job opens a flashblock in.
   */
  lemma NumberJobStaysWithinLimits(s: Settings, db0: Db, limiter: GasLimiter.Limiter, start: Start, inputs: seq<Input>,
                                   number: NumberContract, gas: nat, da: nat)
    requires WellBehaved(s.env) && UsesNumberBuilder(s, number, None)
    requires Tracks(db0) && db0.bundle == EMPTY_BUNDLE
    requires EveryJobTurn(s, db0, limiter, start, inputs, OpeningsBounded(s, number, gas, da))
    requires Deposited(s, db0, start.attributes).Some? ==>
               BuilderFits(s, Deposited(s, db0, start.attributes).value.0, Allowance(gas, 0, da, 0), start.count)
    ensures
      var st := RunJob(s, db0, limiter, start, inputs).1;
      st.cell.Some? ==> PayloadWithin(s, st.cell.value, ScalarAfter(s, db0, start.attributes))
  {
    var b := Allowance(gas, 0, da, 0);
    assert Follows(OpeningsBounded(s, number, gas, da), StaysWithin(s, b)) by {
      forall t: State, i: Input | 1 <= t.extra.index <= t.extra.count && OpeningBounded(s, t, number, gas, da)
        ensures StaysWithin(s, b)(t, i)
      {
        NumberBuilderIsWithin(s, t, i, number, gas, da);
      }
    }
    EveryJobTurnFollows(s, db0, limiter, start, inputs, OpeningsBounded(s, number, gas, da), StaysWithin(s, b));
    JobStaysWithinLimits(s, db0, limiter, start, inputs, b);
  }
}
