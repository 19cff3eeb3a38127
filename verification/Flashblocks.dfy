/**
  Building one block as a growing sequence of flashblocks: the fallback block, then one flashblock
  per signal, each published as a delta and placed in the payload cell as a full block.
 */
module Flashblocks {
  import opened Prelude
  import opened Evm
  import opened Database
  import opened Execution
  import opened GasLimiter
  import opened BestTxs
  import opened PoolExecutor
  import opened Sequencer
  import opened Sidecar
  import opened BuilderTx
  import opened Sealing

  /** Simulates the builder's own transactions on a copy of the state; `None` is a simulation error. */
  type Simulator = (Position, Db, seq<Tx>, bool) -> Option<seq<Candidate>>

  /** Settings that do not change during a job. */
  datatype Settings = Settings(env: Env, blockGasLimit: nat, parentNumber: nat, hasBeaconRoot: bool,
                               maxDaTx: Option<nat>, maxDaBlock: Option<nat>, maxGasPerTxn: Option<nat>, interop: bool,
                               noTxPool: bool, disableStateRoot: bool, configuredCount: nat, simulate: Simulator)
  {
    function Pool(): Ctx {
      Ctx(env, maxGasPerTxn, interop)
    }

    function Block(): BlockCtx {
      BlockCtx(env, blockGasLimit, parentNumber, hasBeaconRoot)
    }

    predicate WithRoot() {
      !disableStateRoot || noTxPool
    }
  }

  /** `FlashblocksExtraCtx`: which flashblock is next and what the block may have used when it is done. */
  datatype Extra = Extra(index: nat, count: nat, targetGas: nat, targetDa: Option<nat>, targetFootprint: Option<nat>,
                         gasPerBatch: nat, daPerBatch: Option<nat>, footprintPerBatch: Option<nat>)
  {
    function Pos(): Position {
      Position(index, count)
    }
  }

  /** Everything the build loop carries along, plus what the outside world can see of it. */
  datatype State = State(info: Info, db: Db, committed: set<Hash>, limiter: Limiter, extra: Extra,
                         stream: seq<Flashblock>, cell: Option<Payload>)

  /**
    What one turn of the loop is given: a view of the pool, when the flashblock token shows up as
    cancelled, whether the block token is cancelled at the two points where it is looked at, the
    sidecar's answer, and whether publishing and handing over the payload work.
   */
  datatype Input = Input(pool: seq<PoolTx>, live: nat, cancelledAfterPool: bool, poll: Poll,
                         cancelledAfterBuild: bool, publishes: bool, sends: bool)

  datatype Ending = Continue | Stopped | Aborted

  /* One flashblock */

  function Opening(s: Settings, st: State): Added {
    AddCandidates(s.env, st.info, st.db, s.simulate(st.extra.Pos(), st.db, st.info.txs, true), true)
  }

  /** Sets the reservations for bottom-of-block builder transactions aside. */
  function ReservedExtra(e: Extra, cs: seq<Candidate>, scalar: Option<nat>): Extra {
    var da := DaCap(cs, false);
    e.(targetGas := SatSub(e.targetGas, ReservedGas(cs)),
       targetDa := if e.targetDa.Some? then Some(SatSub(e.targetDa.value, da)) else None,
       targetFootprint := if e.targetFootprint.Some? && scalar.Some?
         then Some(SatSub(e.targetFootprint.value, SatMul(da, scalar.value)))
         else e.targetFootprint)
  }

  function BatchLimits(s: Settings, e: Extra): Limits {
    Limits(Min(e.targetGas, s.blockGasLimit), s.maxDaTx, e.targetDa, e.targetFootprint)
  }

  function LimitsOf(s: Settings, st: State): Limits {
    BatchLimits(s, ReservedExtra(st.extra, Opening(s, st).candidates.GetOr([]), Opening(s, st).info.scalar))
  }

  function PoolStart(s: Settings, st: State, i: Input): Machine {
    Machine(Opening(s, st).info, Opening(s, st).db, Best(i.pool, {}, st.extra.index, st.committed), st.limiter)
  }

  function PoolPhase(s: Settings, st: State, i: Input): (Exit, Machine) {
    RunPool(s.Pool(), LimitsOf(s, st), PoolStart(s, st, i), i.live)
  }

  /** Hashes of everything executed since the last sealed flashblock. */
  function NewHashes(info: Info): set<Hash> {
    set k | info.lastIndex <= k < |info.txs| :: info.txs[k].hash
  }

  function SidecarPhase(s: Settings, lim: Limits, info: Info, db: Db, poll: Poll): Result {
    if poll.Received? && poll.txs != [] then RunSidecar(s.Pool(), lim, info, db, poll.txs) else Accepted(info, db)
  }

  /** Where a turn stands after pool and sidecar, before the builder's closing transactions. */
  function BeforeClosing(s: Settings, st: State, i: Input): Result {
    var m := PoolPhase(s, st, i).1;
    SidecarPhase(s, LimitsOf(s, st), m.info, m.db, i.poll)
  }

  function Closing(s: Settings, e: Extra, info: Info, db: Db): Added {
    AddCandidates(s.env, info, db, s.simulate(e.Pos(), db, info.txs, false), false)
  }

  /**
    Targets of the next flashblock. The gas target starts again from the unreserved one; the DA and
    footprint targets keep whatever has been reserved.
   */
  function NextExtra(e: Extra, reserved: Extra): Extra {
    e.(index := e.index + 1,
       targetGas := e.targetGas + e.gasPerBatch,
       targetDa := if reserved.targetDa.Some? && e.daPerBatch.Some?
         then Some(reserved.targetDa.value + e.daPerBatch.value) else reserved.targetDa,
       targetFootprint := if reserved.targetFootprint.Some? && e.footprintPerBatch.Some?
         then Some(reserved.targetFootprint.value + e.footprintPerBatch.value) else reserved.targetFootprint)
  }

  /** Sealing what has been executed and telling the world about it. */
  function SealPhase(s: Settings, st: State, reserved: Extra, i: Input): (Ending, State) {
    if !Sealable(s.Block()) then (Aborted, st)
    else
      var payload := PayloadOf(s.Block(), st.info, st.db, s.WithRoot());
      var delta := DeltaOf(s.Block(), st.info, st.db, s.WithRoot()).(index := st.extra.index, hasBase := false);
      var sealed := st.(info := st.info.(lastIndex := |st.info.txs|), db := st.db.(bundle := EMPTY_BUNDLE));
      if i.cancelledAfterBuild then (Stopped, sealed)
      else if !i.publishes then (Aborted, sealed)
      else
        var published := sealed.(stream := st.stream + [delta]);
        if !i.sends then (Aborted, published)
        else (Continue, published.(cell := Some(payload), extra := NextExtra(st.extra, reserved)))
  }

  /** A flashblock that is ready to be sealed, or the reason why there is none. */
  datatype Draft = NoDraft(verdict: Ending, st: State) | Draft(st: State, reserved: Extra)

  /** Builder transactions for the top, pool, sidecar, builder transactions for the bottom. */
  function ExecutePhases(s: Settings, st: State, i: Input): Draft {
    var opening := Opening(s, st);
    var reserved := ReservedExtra(st.extra, opening.candidates.GetOr([]), opening.info.scalar);
    var (exit, m) := PoolPhase(s, st, i);
    var st1 := st.(info := m.info, db := m.db, limiter := m.limiter);
    if exit == Failed then NoDraft(Aborted, st1)
    else
      var st2 := st1.(committed := st.committed + NewHashes(m.info));
      if i.cancelledAfterPool then NoDraft(Stopped, st2)
      else
        match BeforeClosing(s, st, i)
        case Refused(_) => NoDraft(Aborted, st2)
        case Accepted(info, db) =>
          var closing := Closing(s, st.extra, info, db);
          Draft(st2.(info := closing.info, db := closing.db), reserved)
  }

  /** `build_next_flashblock` */
  function NextFlashblock(s: Settings, st: State, i: Input): (Ending, State) {
    match ExecutePhases(s, st, i)
    case NoDraft(verdict, st') => (verdict, st')
    case Draft(st', reserved) => SealPhase(s, st', reserved, i)
  }

  /* The fallback block */

  /** What the job is started with, besides the settings. `count` is the number of flashblocks the timing allows. */
  datatype Start = Start(attributes: seq<Tx>, count: nat, sends: bool, publishes: bool)

  /** The batch share: as much as goes into the limit once per flashblock, to within one unit per flashblock. */
  function Share(limit: nat, count: nat): (share: nat)
    requires count > 0
    ensures count * share <= limit < count * share + count
  {
    limit / count
  }

  function FirstExtra(s: Settings, count: nat, scalar: Option<nat>): Extra
    requires count > 0
  {
    var gas := Share(s.blockGasLimit, count);
    var da := if s.maxDaBlock.Some? then Some(Share(s.maxDaBlock.value, count)) else None;
    var footprint := if scalar.Some? then Some(gas) else None;
    Extra(1, count, gas, da, footprint, gas, da, footprint)
  }

  const NO_EXTRA := Extra(0, 0, 0, None, None, 0, None, None)

  /** Deposits and sequencer transactions, then the first builder transaction. */
  function Deposited(s: Settings, db0: Db, attributes: seq<Tx>): Option<(Info, Db)> {
    match RunSequencer(s.env, EMPTY_INFO, db0, attributes)
    case Executed(info0, db) =>
      var info := WithScalar(s.env, info0, db);
      if s.noTxPool then Some((info, db))
      else
        var added := AddCandidates(s.env, info, db, s.simulate(Position(0, s.configuredCount), db, info.txs, false),
            false);
        Some((added.info, added.db))
    case _ => None
  }

  /**
    The fallback block, sealed as flashblock 0. Here the payload goes into the cell before the
    flashblock is published. A job that gets no flashblocks at all divides by zero when it computes
    the batch shares.
   */
  function Fallback(s: Settings, db0: Db, limiter: Limiter, start: Start): (Ending, State) {
    var nothing := State(EMPTY_INFO, db0, {}, Refresh(limiter, s.env.number), NO_EXTRA, [], None);
    match Deposited(s, db0, start.attributes)
    case None => (Aborted, nothing)
    case Some((info, db)) => SealFallback(s, nothing.(info := info, db := db), start)
  }

  /** Sealing and showing the fallback block. */
  function SealFallback(s: Settings, st: State, start: Start): (Ending, State) {
    if !Sealable(s.Block()) || !start.sends then (Aborted, st)
    else
      var payload := PayloadOf(s.Block(), st.info, st.db, s.WithRoot());
      var sealed := st.(info := st.info.(lastIndex := |st.info.txs|), db := st.db.(bundle := EMPTY_BUNDLE),
                        cell := Some(payload));
      if s.noTxPool then (Stopped, sealed)
      else if !start.publishes then (Aborted, sealed)
      else
        var published := sealed.(stream := [DeltaOf(s.Block(), st.info, st.db, s.WithRoot())]);
        if start.count == 0 then (Aborted, published)
        else (Continue, published.(extra := FirstExtra(s, start.count, st.info.scalar)))
  }

  /* The build loop */

  /** One input per signal; running out of inputs is the channel being closed. */
  function BuildLoop(s: Settings, st: State, inputs: seq<Input>): (Ending, State)
    decreases |inputs|
  {
    if inputs == [] || st.extra.index > st.extra.count then (Stopped, st)
    else
      var (verdict, st') := NextFlashblock(s, st, inputs[0]);
      if verdict == Continue then BuildLoop(s, st', inputs[1..]) else (verdict, st')
  }

  /** A whole job: the fallback block and then the build loop. */
  function RunJob(s: Settings, db0: Db, limiter: Limiter, start: Start, inputs: seq<Input>): (Ending, State) {
    var (verdict, st) := Fallback(s, db0, limiter, start);
    if verdict == Continue then BuildLoop(s, st, inputs) else (verdict, st)
  }
}
