/** Concrete cases: promises the code breaks, and jobs that meet all the assumptions of the theorems. */
module Witnesses {
  import opened Prelude
  import opened Evm
  import opened Database
  import opened Execution
  import opened Replay
  import opened Overrides
  import opened GasLimiter
  import opened BestTxs
  import opened PoolExecutor
  import opened PoolCompleteness
  import opened Sequencer
  import opened Sidecar
  import opened BuilderTx
  import opened Sealing
  import opened Peer
  import opened Flashblocks
  import opened BuildRuns
  import opened Budgets
  import opened Placement
  import opened AccountMachine

  const GAS: nat := 30_000_000

  /* Peers that refuse what the builder sealed */

  /** The sequencer executes one transaction on an empty state. */
  lemma OneSequenced(env: Env, tx: Tx)
    requires tx.recoverable && tx.kind != Blob && env.transact(map[], tx).Done?
    ensures
      var r := RunSequencer(env, EMPTY_INFO, FreshDb(map[]), [tx]);
      && r.Executed? && r.info.txs == [tx] && Consistent(env, FreshDb(map[]), r.info, r.db)
      && r.info.gas == env.transact(map[], tx).result.gasUsed == GasOf(env, FreshDb(map[]), [tx], 0)
  {
    var db0 := FreshDb(map[]);
    assert [tx][1..] == [] && [tx][..0] == [];
    NothingExecutedIsConsistent(env, db0, EMPTY_INFO);
    SequencerKeepsConsistent(env, db0, EMPTY_INFO, db0, [tx]);
  }

  /**
    A deposit above the per-transaction cap: the builder seals it, a peer with that cap refuses it, one without
    takes it.
   */
  lemma DepositAboveCapIsRefused()
    ensures
      var env, chain := MachineEnv(GAS, 0, 1), MachineChain(0, 1);
      var ctx, db0 := BlockCtx(env, GAS, 0, true), FreshDb(map[]);
      var deposit := Tx(1, Deposit, 3, true, 0, 30_000, 0, 0, 0);
      var r := RunSequencer(env, EMPTY_INFO, db0, [deposit]);
      && r.Executed? && r.info.txs == [deposit]
      && !Accepts(chain, ctx, Some(20_000), db0, PayloadOf(ctx, r.info, r.db, true).header)
      && Accepts(chain, ctx, None, db0, PayloadOf(ctx, r.info, r.db, true).header)
  {
    var env, chain := MachineEnv(GAS, 0, 1), MachineChain(0, 1);
    var ctx, db0 := BlockCtx(env, GAS, 0, true), FreshDb(map[]);
    var deposit := Tx(1, Deposit, 3, true, 0, 30_000, 0, 0, 0);
    OneSequenced(env, deposit);
    MachineChainIsCoherent(GAS, GAS, 0, 1, db0, [deposit]);
    var r := RunSequencer(env, EMPTY_INFO, db0, [deposit]);
    PeerAcceptsIff(chain, ctx, Some(20_000), db0, r.info, r.db, true);
    PeerAcceptsIff(chain, ctx, None, db0, r.info, r.db, true);
  }

  /** A deposit that uses more gas than the block has: the builder seals it, every peer refuses it. */
  lemma OverfullBlockIsRefused()
    ensures
      var env, chain := MachineEnv(20_000, 0, 1), MachineChain(0, 1);
      var ctx, db0 := BlockCtx(env, 20_000, 0, true), FreshDb(map[]);
      var deposit := Tx(1, Deposit, 3, true, 0, 30_000, 0, 0, 0);
      var r := RunSequencer(env, EMPTY_INFO, db0, [deposit]);
      && r.Executed? && r.info.txs == [deposit] && r.info.gas == 21_000
      && !Accepts(chain, ctx, None, db0, PayloadOf(ctx, r.info, r.db, true).header)
  {
    var env, chain := MachineEnv(20_000, 0, 1), MachineChain(0, 1);
    var ctx, db0 := BlockCtx(env, 20_000, 0, true), FreshDb(map[]);
    var deposit := Tx(1, Deposit, 3, true, 0, 30_000, 0, 0, 0);
    OneSequenced(env, deposit);
    MachineChainIsCoherent(20_000, 20_000, 0, 1, db0, [deposit]);
    var r := RunSequencer(env, EMPTY_INFO, db0, [deposit]);
    PeerAcceptsIff(chain, ctx, None, db0, r.info, r.db, true);
  }

  /** An operator's gas limit below a sequencer transaction's: the builder seals it, every peer refuses it. */
  lemma OverrideIsRefused()
    ensures
      var env, chain := MachineEnv(GAS, 0, 1), MachineChain(0, 1);
      var ctx, db0 := BlockCtx(env, 1_000_000, 0, true), FreshDb(map[]);
      var tx := Tx(1, Standard, 3, true, 0, 2_000_000, 0, 0, 0);
      var r := RunSequencer(env, EMPTY_INFO, db0, [tx]);
      && r.Executed? && r.info.txs == [tx]
      && UnderCap(env, None, db0, r.info.txs, 0)
      && !Accepts(chain, ctx, None, db0, PayloadOf(ctx, r.info, r.db, true).header)
  {
    var env, chain := MachineEnv(GAS, 0, 1), MachineChain(0, 1);
    var ctx, db0 := BlockCtx(env, 1_000_000, 0, true), FreshDb(map[]);
    var tx := Tx(1, Standard, 3, true, 0, 2_000_000, 0, 0, 0);
    OneSequenced(env, tx);
    MachineChainIsCoherent(GAS, 1_000_000, 0, 1, db0, [tx]);
    var r := RunSequencer(env, EMPTY_INFO, db0, [tx]);
    PeerAcceptsOverrideIff(chain, ctx, None, db0, r.info, r.db, true);
    assert r.info.txs[0] == tx;
  }

  /** The machine with code that logs the block's gas limit. */
  function LoggingEnv(g: nat): Env {
    MachineEnv(g, 0, 1).(transact := (w: World, tx: Tx) =>
      match Transact(g, 0, w, tx)
      case Done(result, change) => Done(result.(logs := g), change)
      case o => o)
  }

  lemma LoggedGasLimit(g: nat, deposit: Tx)
    requires deposit.kind == Deposit
    ensures
      var r := ExecAll(LoggingEnv(g), FreshDb(map[]), [deposit]);
      r.Some? && |r.value.receipts| == 1 && r.value.receipts[0].logs == g
  {
    assert [deposit][..0] == [];
  }

  lemma LoggingIsCoherent()
    ensures Coherent((g: nat) => LoggingEnv(g), LoggingEnv(GAS))
  {
  }

  /** The peer's receipt says otherwise. */
  lemma LogsDiffer(header: Header, deposit: Tx)
    requires deposit.kind == Deposit && header.txs == [deposit] && |header.receipts| == 1
    requires header.receipts[0].logs == GAS
    ensures !ReplaysAlike(LoggingEnv(20_000_000), None, FreshDb(map[]), header)
  {
    LoggedGasLimit(20_000_000, deposit);
  }

  /** Where code reads the gas limit, an operator's gas limit alone is enough. */
  lemma GasLimitReaderIsRefused()
    ensures
      var chain := (g: nat) => LoggingEnv(g);
      var ctx, db0 := BlockCtx(LoggingEnv(GAS), 20_000_000, 0, true), FreshDb(map[]);
      var deposit := Tx(1, Deposit, 3, true, 0, 30_000, 0, 0, 0);
      var r := RunSequencer(ctx.env, EMPTY_INFO, db0, [deposit]);
      && Coherent(chain, ctx.env) && r.Executed? && FitsGasLimit(r.info.txs, ctx.blockGasLimit)
      && !Accepts(chain, ctx, None, db0, PayloadOf(ctx, r.info, r.db, true).header)
  {
    var chain := (g: nat) => LoggingEnv(g);
    var ctx, db0 := BlockCtx(LoggingEnv(GAS), 20_000_000, 0, true), FreshDb(map[]);
    var deposit := Tx(1, Deposit, 3, true, 0, 30_000, 0, 0, 0);
    LoggingIsCoherent();
    OneSequenced(ctx.env, deposit);
    var r := RunSequencer(ctx.env, EMPTY_INFO, db0, [deposit]);
    var header := PayloadOf(ctx, r.info, r.db, true).header;
    LoggedGasLimit(GAS, deposit);
    LogsDiffer(header, deposit);
    PeerAcceptsIffAlike(chain, ctx, None, db0, header);
  }

  /* Jobs that meet the assumptions */

  /** Settings with the plain builder of key 9 and four flashblocks a block. */
  function PlainSettings(): Settings {
    var env := MachineEnv(GAS, 0, 1);
    Settings(env, GAS, 0, true, None, None, None, false, false, false, 4,
             (pos: Position, db: Db, txs: seq<Tx>, top: bool) => SimulatePlain(env, Some(9), None, pos, Copy(db), txs))
  }

  lemma PlainSettingsArePlain()
    ensures PlainWith(PlainSettings(), 9, None, {})
  {
  }

  lemma BaseGas()
    ensures EstimateGas(Message(1)) == 21_600
  {
    var m := Message(1);
    assert m == [66, 108, 111, 99, 107, 32, 78, 117, 109, 98, 101, 114, 58, 32, 49];
    assert forall k :: 0 <= k < |m| ==> m[k] != 0;
    NoZeroBytes(m);
  }

  lemma {:induction false} NoZeroBytes(bytes: seq<nat>)
    requires forall k :: 0 <= k < |bytes| ==> bytes[k] != 0
    ensures ZeroBytes(bytes) == 0
  {
    if bytes != [] {
      NoZeroBytes(bytes[1..]);
    }
  }

  lemma BaseAlwaysLands(s: Settings, db: Db, a: Address)
    requires s.env == MachineEnv(GAS, 0, 1)
    ensures BaseLands(s.env, db, a)
  {
    BaseGas();
    BaseLandsIffFunded(GAS, 0, 1, db, a);
  }

  /** What the fallback block holds without any attributes. */
  lemma BareFallback(s: Settings)
    requires s == PlainSettings()
    ensures
      var d := Deposited(s, FreshDb(map[]), []);
      d.Some? && d.value.0.gas <= 21_600 && d.value.0.scalar == None
  {
    BaseGas();
    MachineIsWellBehaved(GAS, 0, 1);
    var db0 := FreshDb(map[]);
    PlainPlacement(s.env, 9, Position(0, 4), WithScalar(s.env, EMPTY_INFO, db0), db0, false);
    var base := BaseCandidate(s.env, Some(9), db0)[0];
    assert OutcomeOk(s.env, db0.world, base.signed, s.env.transact(db0.world, base.signed));
  }

  /** In every turn the base transaction lands and is no larger than reserved. */
  lemma PlainTurnsArePossible(s: Settings, st: State, inputs: seq<Input>)
    requires s == PlainSettings()
    ensures EveryTurn(s, st, inputs, LandsInLast(s, 9)) && EveryTurn(s, st, inputs, SizesReserved(s, 9, 100))
  {
    forall t: State, i: Input ensures LandsInLast(s, 9)(t, i) {
      if BeforeClosing(s, t, i).Accepted? {
        BaseAlwaysLands(s, BeforeClosing(s, t, i).db, 9);
      }
    }
    AlwaysEveryTurn(s, st, inputs, LandsInLast(s, 9));
    assert forall t: State, i: Input :: SizesReserved(s, 9, 100)(t, i);
    AlwaysEveryTurn(s, st, inputs, SizesReserved(s, 9, 100));
  }

  lemma PlainBuilderFits(s: Settings)
    requires s == PlainSettings()
    ensures
      var d := Deposited(s, FreshDb(map[]), []);
      d.Some? && BuilderFits(s, d.value.0, Allowance(0, EstimateGas(Message(1)), 0, 100), 4)
  {
    BaseGas();
    BareFallback(s);
  }

  /**
    Every job of the plain builder in which nobody else uses its key meets the assumptions about placement and
    limits.
   */
  lemma PlainJobIsPossible(limiter: Limiter, inputs: seq<Input>)
    requires forall i :: i in inputs ==> Quiet(i, 9)
    ensures
      var s, db0, start := PlainSettings(), FreshDb(map[]), Start([], 4, true, true);
      && WellBehaved(s.env) && Tracks(db0) && PlainWith(s, 9, None, {}) && QuietJob(s, db0, start, inputs, 9)
      && EveryJobTurn(s, db0, limiter, start, inputs, LandsInLast(s, 9))
      && EveryJobTurn(s, db0, limiter, start, inputs, SizesReserved(s, 9, 100))
      && Deposited(s, db0, []).Some?
      && BuilderFits(s, Deposited(s, db0, []).value.0, Allowance(0, EstimateGas(Message(1)), 0, 100), 4)
  {
    var s, db0, start := PlainSettings(), FreshDb(map[]), Start([], 4, true, true);
    PlainSettingsArePlain();
    MachineIsWellBehaved(GAS, 0, 1);
    FreshTracks(map[]);
    PlainBuilderFits(s);
    BaseAlwaysLands(s, db0, 9);
    PlainTurnsArePossible(s, Fallback(s, db0, limiter, start).1, inputs);
  }

  /** Settings with a number contract whose call takes 50,000 gas. */
  function Counter(): NumberContract {
    NumberContract(9, (db: Db) => Some(50_000))
  }

  function NumberSettings(): Settings {
    var env := MachineEnv(GAS, 0, 1);
    Settings(env, GAS, 0, true, None, None, None, false, false, false, 4,
             (pos: Position, db: Db, txs: seq<Tx>, top: bool) =>
               SimulateNumber(env, Counter(), None, pos, Copy(db), txs, top))
  }

  /** The same for the number-contract builder. */
  lemma NumberTurnsArePossible(s: Settings, st: State, inputs: seq<Input>)
    requires s == NumberSettings()
    ensures WellBehaved(s.env) && NumberWith(s, Counter(), None, {})
    ensures EveryTurn(s, st, inputs, LandsAtOpening(s, Counter()))
    ensures EveryTurn(s, st, inputs, OpeningsBounded(s, Counter(), 51_000, 100))
  {
    MachineIsWellBehaved(GAS, 0, 1);
    assert 50_000 * 64 / 63 == 50_793;
    assert forall t: State, i: Input :: LandsAtOpening(s, Counter())(t, i);
    assert forall t: State, i: Input :: OpeningsBounded(s, Counter(), 51_000, 100)(t, i);
    AlwaysEveryTurn(s, st, inputs, LandsAtOpening(s, Counter()));
    AlwaysEveryTurn(s, st, inputs, OpeningsBounded(s, Counter(), 51_000, 100));
  }

  /* Blocks of one flashblock, with one transaction waiting in the pool */

  const WAITING := Tx(7, Standard, 5, true, 0, 21_000, 100, 0, 0)

  /** The handler takes the payload or does not. */
  function WaitingInput(sends: bool): Input {
    Input([PoolTx(WAITING, None, None, None, None, false)], 1, false, SidecarDisabled, false, true, sends)
  }

  /** A builder with nothing of its own to add. */
  function BareSettings(): Settings {
    Settings(MachineEnv(GAS, 0, 1), GAS, 0, true, None, None, None, false, false, false, 1,
             (pos: Position, db: Db, txs: seq<Tx>, top: bool) => Some([]))
  }

  /** The plain builder of key 9, whose simulation fails until the end of the block. */
  function LateSimulation(env: Env, pos: Position, db: Db, txs: seq<Tx>, top: bool): Option<seq<Candidate>> {
    if top || pos.First() then None else SimulatePlain(env, Some(9), None, pos, Copy(db), txs)
  }

  /** It runs in a block with little room. */
  function LateSettings(): Settings {
    var env := MachineEnv(22_000, 0, 1);
    Settings(env, 22_000, 0, true, None, None, None, false, false, false, 1,
             (pos: Position, db: Db, txs: seq<Tx>, top: bool) =>
               LateSimulation(env, pos, db, txs, top))
  }

  /** The job has published an empty fallback block. */
  ghost predicate BareHead(s: Settings, st: State) {
    && st.info == EMPTY_INFO && st.db == FreshDb(map[]) && st.limiter == Disabled && st.committed == {}
    && st.extra == Extra(1, 1, s.blockGasLimit, None, None, s.blockGasLimit, None, None)
  }

  lemma BareDeposited(s: Settings)
    requires s == BareSettings() || s == LateSettings()
    ensures Deposited(s, FreshDb(map[]), []) == Some((EMPTY_INFO, FreshDb(map[])))
  {
    var simulated := s.simulate(Position(0, 1), FreshDb(map[]), [], false);
    assert simulated == (if s == LateSettings() then None else Some([]));
  }

  lemma BareLoopHead(s: Settings, st: State)
    requires s == BareSettings() || s == LateSettings()
    requires st == Fallback(s, FreshDb(map[]), Disabled, Start([], 1, true, true)).1
    ensures Fallback(s, FreshDb(map[]), Disabled, Start([], 1, true, true)).0 == Continue
    ensures LoopHead(s, FreshDb(map[]), st) && BareHead(s, st)
  {
    MachineIsWellBehaved(s.blockGasLimit, 0, 1);
    FreshTracks(map[]);
    BareDeposited(s);
    FallbackReachesLoopHead(s, FreshDb(map[]), Disabled, Start([], 1, true, true));
  }

  function WaitingMachine(): Machine {
    Machine(EMPTY_INFO, FreshDb(map[]), Best(WaitingInput(true).pool, {}, 1, {}), Disabled)
  }

  lemma WaitingFits(c: Ctx, lim: Limits, gas: nat)
    requires c == Ctx(MachineEnv(gas, 0, 1), None, false) && lim == Limits(gas, None, None, None)
    requires 21_000 <= gas <= GAS
    ensures PoolFits(c, lim, WaitingMachine(), FreshDb(map[]), [true])
  {
    var pool := WaitingInput(true).pool;
    assert pool[1..] == [] && [true][1..] == [] && [] + [WAITING] == [WAITING] && [WAITING][..0] == [];
    NothingExecutedIsConsistent(c.env, FreshDb(map[]), EMPTY_INFO);
    assert c.env.transact(map[], WAITING).Done?;
  }

  lemma BarePoolStart(s: Settings, st: State, sends: bool)
    requires (s == BareSettings() || s == LateSettings()) && BareHead(s, st)
    ensures PoolStart(s, st, WaitingInput(sends)) == WaitingMachine()
    ensures LimitsOf(s, st) == Limits(s.blockGasLimit, None, None, None)
  {
  }

  lemma WaitingIsIncluded(s: Settings, st: State, sends: bool)
    requires (s == BareSettings() || s == LateSettings()) && BareHead(s, st)
    ensures
      var (exit, m) := Flashblocks.PoolPhase(s, st, WaitingInput(sends));
      exit == Drained && m.info.txs == [WAITING]
  {
    MachineIsWellBehaved(s.blockGasLimit, 0, 1);
    BarePoolStart(s, st, sends);
    WaitingFits(s.Pool(), LimitsOf(s, st), s.blockGasLimit);
    ReplayablePoolIsIncluded(s.Pool(), LimitsOf(s, st), WaitingMachine(), 1, FreshDb(map[]), [true]);
    var pool := WaitingInput(sends).pool;
    assert pool[1..] == [] && [true][1..] == [] && Kept(pool, [true]) == [WAITING] && [] + [WAITING] == [WAITING];
  }

  /* A hand-over that fails */

  /** The stream ends up one flashblock ahead of the cell. */
  lemma HandOverFailureShows()
    ensures
      var s, i := BareSettings(), WaitingInput(false);
      var st := Fallback(s, FreshDb(map[]), Disabled, Start([], 1, true, true)).1;
      var st' := BuildLoop(s, st, [i]).1;
      && SomeHandOverFails(s, st, [i])
      && |st'.stream| == 2 && st'.stream[1].txs == [WAITING] && st'.cell.Some? && st'.cell.value.header.txs == []
  {
    var s, i, db0 := BareSettings(), WaitingInput(false), FreshDb(map[]);
    var st := Fallback(s, db0, Disabled, Start([], 1, true, true)).1;
    MachineIsWellBehaved(GAS, 0, 1);
    FreshTracks(map[]);
    BareLoopHead(s, st);
    WaitingIsIncluded(s, st, false);
    assert HandOverFails(s, st, i);
    TurnKeepsLoopHead(s, db0, st, i);
    NewTxsArePublished(s, db0, st, i);
  }

  /* A reservation that is missing */

  /** The waiting transaction is counted with the gas the machine charges for it. */
  lemma WaitingGas(s: Settings, st: State)
    requires s == LateSettings() && BareHead(s, st)
    ensures Flashblocks.PoolPhase(s, st, WaitingInput(true)).1.info.gas == 21_000
  {
    MachineIsWellBehaved(22_000, 0, 1);
    BarePoolStart(s, st, true);
    WaitingIsIncluded(s, st, true);
    NothingExecutedIsConsistent(s.env, FreshDb(map[]), EMPTY_INFO);
    PoolKeepsConsistent(s.Pool(), LimitsOf(s, st), WaitingMachine(), 1, FreshDb(map[]));
    assert [WAITING][..0] == [] && [WAITING][0] == WAITING;
  }

  lemma LateClosing(s: Settings, e: Extra, info: Info, db: Db)
    requires s == LateSettings() && e.Pos() == Position(1, 1)
    ensures Closing(s, e, info, db).info.gas == info.gas + 21_000
  {
    BaseGas();
    PlainPlacement(s.env, 9, Position(1, 1), info, db, false);
    BaseLandsIffFunded(22_000, 0, 1, db, 9);
  }

  /**
    An opening simulation that fails reserves nothing, so the pool may fill the block; the base transaction that is
    committed all the same at the end goes over the limit.
   */
  lemma FailedOpeningOverruns()
    ensures
      var s, i := LateSettings(), WaitingInput(true);
      var st := Fallback(s, FreshDb(map[]), Disabled, Start([], 1, true, true)).1;
      var r, d := BeforeClosing(s, st, i), ExecutePhases(s, st, i);
      && Opening(s, st).candidates.None? && r.Accepted? && r.info.gas == 21_000
      && d.Draft? && d.st.info.gas == 42_000 && s.blockGasLimit == 22_000
  {
    var s, i := LateSettings(), WaitingInput(true);
    var st := Fallback(s, FreshDb(map[]), Disabled, Start([], 1, true, true)).1;
    BareLoopHead(s, st);
    WaitingIsIncluded(s, st, true);
    var r := BeforeClosing(s, st, i);
    WaitingGas(s, st);
    LateClosing(s, st.extra, r.info, r.db);
  }
}
