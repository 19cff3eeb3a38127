/** The build loop on the mutable objects it really works on: `build_next_flashblock` and `build_payload`. */
module PayloadBuilder {
  import opened Prelude
  import opened Evm
  import opened Database
  import opened Execution
  import opened Replay
  import opened Overrides
  import opened GasLimiter
  import opened BestTxs
  import opened PoolExecutor
  import opened Sequencer
  import opened Sidecar
  import opened BuilderTx
  import opened Sealing
  import opened Flashblocks
  import opened BuildRuns

  /** The WebSocket stream of flashblocks, as its subscribers see it. */
  class Publisher {
    var stream: seq<Flashblock>

    constructor ()
      ensures stream == []
    {
      stream := [];
    }

    method Publish(fb: Flashblock, works: bool) returns (sent: bool)
      modifies this
      ensures sent == works
      ensures stream == if works then old(stream) + [fb] else old(stream)
    {
      if works {
        stream := stream + [fb];
      }
      return works;
    }
  }

  /** The cell the Engine API reads the payload from. */
  class BlockCell {
    var inner: Option<Payload>

    constructor ()
      ensures inner == None
    {
      inner := None;
    }

    method Set(payload: Payload)
      modifies this
      ensures inner == Some(payload)
    {
      inner := Some(payload);
    }
  }

  ghost function Snapshot(info: ExecutionInfo, db: StateDb, best: BestFlashblocksTxs, limiter: AddressGasLimiter,
                      extra: Extra, ws: Publisher, cell: BlockCell): State
    reads info, db, best, limiter, ws, cell
  {
    State(info.Val(), db.Val(), best.committed, limiter.Val(), extra, ws.stream, cell.inner)
  }

  /** Everything of a flashblock up to sealing; `None` means it is not to be sealed. */
  method ExecuteFlashblock(s: Settings, extra: Extra, info: ExecutionInfo, db: StateDb, best: BestFlashblocksTxs,
                           limiter: AddressGasLimiter, ghost st: State, i: Input)
    returns (verdict: Option<Ending>, reserved: Extra)
    requires FeesCovered(s.env)
    requires st.info == info.Val() && st.db == db.Val() && st.committed == best.committed && st.limiter == limiter.Val()
    requires st.extra == extra
    modifies info, db, best, limiter
    ensures
      var d := ExecutePhases(s, st, i);
      && limiter.Val() == d.st.limiter
      && (verdict.None? <==> d.Draft?)
      && (verdict.Some? ==> d.NoDraft? && verdict.value == d.verdict)
      && (verdict != Some(Aborted) ==>
            info.Val() == d.st.info && db.Val() == d.st.db && best.committed == d.st.committed)
      && (verdict.None? ==> reserved == d.reserved)
  {
    var simulated := s.simulate(extra.Pos(), db.Val(), info.executedTransactions, true);
    var added := CommitCandidates(s.env, info, db, simulated, true);
    reserved := ReservedExtra(extra, added.GetOr([]), info.daFootprintScalar);
    var lim := BatchLimits(s, reserved);
    best.RefreshIterator(i.pool, extra.index);
    var exit := ExecuteBestTransactions(s.Pool(), lim, info, db, best, limiter, i.live);
    PoolKeepsCommitted(s.Pool(), lim, PoolStart(s, st, i), i.live);
    if exit == Failed {
      return Some(Aborted), reserved;
    }
    MarkNew(info, best);
    if i.cancelledAfterPool {
      return Some(Stopped), reserved;
    }
    if i.poll.Received? && i.poll.txs != [] {
      var error := ExecuteSidecarTransactions(s.Pool(), lim, info, db, i.poll.txs);
      if error.Some? {
        return Some(Aborted), reserved;
      }
    }
    var closing := s.simulate(extra.Pos(), db.Val(), info.executedTransactions, false);
    var _ := CommitCandidates(s.env, info, db, closing, false);
    return None, reserved;
  }

  /** Marks everything executed since the last flashblock as committed. */
  method MarkNew(info: ExecutionInfo, best: BestFlashblocksTxs)
    modifies best
    ensures best.committed == old(best.committed) + NewHashes(info.Val())
  {
    var recent := From(info.executedTransactions, info.lastFlashblockIndex);
    var hashes := seq(|recent|, k requires 0 <= k < |recent| => recent[k].hash);
    best.MarkCommitted(hashes);
    HashesAreNew(info.Val(), hashes);
  }

  lemma HashesAreNew(info: Info, hashes: seq<Hash>)
    requires |hashes| == |From(info.txs, info.lastIndex)|
    requires forall k :: 0 <= k < |hashes| ==> hashes[k] == From(info.txs, info.lastIndex)[k].hash
    ensures (set h | h in hashes) == NewHashes(info)
  {
    forall h | h in NewHashes(info) ensures h in hashes {
      var k :| info.lastIndex <= k < |info.txs| && info.txs[k].hash == h;
      assert hashes[k - info.lastIndex] == h;
    }
    forall h | h in hashes ensures h in NewHashes(info) {
      var k :| 0 <= k < |hashes| && hashes[k] == h;
      assert info.txs[info.lastIndex + k].hash == h;
    }
  }

  /** Seals the draft, publishes the delta, hands the payload over and updates the cell. */
  method SealFlashblock(s: Settings, extra: Extra, reserved: Extra, info: ExecutionInfo, db: StateDb, ws: Publisher,
                        cell: BlockCell, ghost st: State, i: Input)
    returns (verdict: Ending, next: Extra)
    requires st.info == info.Val() && st.db == db.Val() && st.extra == extra && st.stream == ws.stream
        && st.cell == cell.inner
    requires info.lastFlashblockIndex <= |info.executedTransactions| == |info.receipts|
    modifies info, db, ws, cell
    ensures
      var (v, st') := SealPhase(s, st, reserved, i);
      && verdict == v && ws.stream == st'.stream && cell.inner == st'.cell
      && (verdict == Continue ==> info.Val() == st'.info && db.Val() == st'.db && next == st'.extra)
  {
    next := extra;
    var built := BuildBlock(s.Block(), info, db, s.WithRoot());
    if built.None? {
      return Aborted, next;
    }
    if i.cancelledAfterBuild {
      return Stopped, next;
    }
    var (payload, delta) := built.value;
    var sent := ws.Publish(delta.(index := extra.index, hasBase := false), i.publishes);
    if !sent || !i.sends {
      return Aborted, next;
    }
    cell.Set(payload);
    next := NextExtra(extra, reserved);
    return Continue, next;
  }

  /** A draft can be sealed: its totals are in lockstep and nothing published is missing from them. */
  lemma DraftIsSealable(s: Settings, db0: Db, st: State, i: Input)
    requires WellBehaved(s.env) && LoopHead(s, db0, st)
    ensures
      var d := ExecutePhases(s, st, i);
      && d.st.stream == st.stream && d.st.cell == st.cell && d.st.extra == st.extra
      && (d.Draft? ==> d.st.info.lastIndex <= |d.st.info.txs| == |d.st.info.receipts|)
  {
    PhasesKeep(s, db0, st, i);
    var d := ExecutePhases(s, st, i);
    if d.Draft? {
      LedgerIsExact(s.env, db0, d.st.info.txs);
    }
  }

  /** One turn of the loop. */
  method BuildNextFlashblock(s: Settings, extra: Extra, info: ExecutionInfo, db: StateDb, best: BestFlashblocksTxs,
                             limiter: AddressGasLimiter, ws: Publisher, cell: BlockCell, i: Input, ghost db0: Db)
    returns (verdict: Ending, next: Extra)
    requires WellBehaved(s.env)
    requires LoopHead(s, db0, Snapshot(info, db, best, limiter, extra, ws, cell))
    modifies info, db, best, limiter, ws, cell
    ensures
      var (v, st) := NextFlashblock(s, old(Snapshot(info, db, best, limiter, extra, ws, cell)), i);
      && verdict == v
      && ws.stream == st.stream && cell.inner == st.cell && limiter.Val() == st.limiter
      && (verdict == Continue ==> Snapshot(info, db, best, limiter, next, ws, cell) == st)
  {
    ghost var st0 := Snapshot(info, db, best, limiter, extra, ws, cell);
    WellBehavedCoversFees(s.env);
    DraftIsSealable(s, db0, st0, i);
    var ended, reserved := ExecuteFlashblock(s, extra, info, db, best, limiter, st0, i);
    if ended.Some? {
      return ended.value, extra;
    }
    verdict, next := SealFlashblock(s, extra, reserved, info, db, ws, cell, ExecutePhases(s, st0, i).st, i);
  }

  /** Deposits, sequencer transactions and the first builder transaction. */
  method ExecuteDeposits(s: Settings, db: StateDb, attributes: seq<Tx>) returns (ok: bool, info: ExecutionInfo)
    modifies db
    ensures fresh(info)
    ensures
      var d := Deposited(s, old(db.Val()), attributes);
      ok == d.Some? && (ok ==> (info.Val(), db.Val()) == d.value)
  {
    ok, info := ExecuteSequencerTransactions(s.env, attributes, db);
    if ok && !s.noTxPool {
      var simulated := s.simulate(Position(0, s.configuredCount), db.Val(), info.executedTransactions, false);
      var _ := CommitCandidates(s.env, info, db, simulated, false);
    }
  }

  /** The fallback block. */
  method BuildFallback(s: Settings, db: StateDb, limiter: AddressGasLimiter, ws: Publisher, cell: BlockCell,
                       start: Start)
    returns (verdict: Ending, info: ExecutionInfo, extra: Extra)
    requires WellBehaved(s.env) && ws.stream == [] && cell.inner == None
    modifies db, limiter, ws, cell
    ensures fresh(info)
    ensures
      var (v, st) := Fallback(s, old(db.Val()), old(limiter.Val()), start);
      && verdict == v
      && ws.stream == st.stream && cell.inner == st.cell && limiter.Val() == st.limiter
      && (verdict == Continue ==> info.Val() == st.info && db.Val() == st.db && extra == st.extra && st.committed == {})
  {
    ghost var db0 := db.Val();
    extra := NO_EXTRA;
    var _ := limiter.RefreshBlock(s.env.number);
    var ok;
    ok, info := ExecuteDeposits(s, db, start.attributes);
    if !ok {
      return Aborted, info, extra;
    }
    DepositedInLockstep(s, db0, start.attributes);
    verdict, extra := SealFallbackBlock(s, info, db, ws, cell, start,
                                        State(info.Val(), db.Val(), {}, limiter.Val(), NO_EXTRA, [], None));
  }

  lemma DepositedInLockstep(s: Settings, db0: Db, attributes: seq<Tx>)
    requires WellBehaved(s.env) && Deposited(s, db0, attributes).Some?
    ensures
      var info := Deposited(s, db0, attributes).value.0;
      info.lastIndex == 0 && |info.txs| == |info.receipts|
  {
    DepositedKeeps(s, db0, attributes);
    LedgerIsExact(s.env, db0, Deposited(s, db0, attributes).value.0.txs);
  }

  /** Seals the fallback block, hands it over, puts it into the cell and publishes it. */
  method SealFallbackBlock(s: Settings, info: ExecutionInfo, db: StateDb, ws: Publisher, cell: BlockCell, start: Start,
                           ghost st: State)
    returns (verdict: Ending, extra: Extra)
    requires info.lastFlashblockIndex == 0 && |info.executedTransactions| == |info.receipts|
    requires st.info == info.Val() && st.db == db.Val() && st.extra == NO_EXTRA
    requires ws.stream == st.stream == [] && cell.inner == st.cell == None
    modifies info, db, ws, cell
    ensures
      var (v, st') := SealFallback(s, st, start);
      && verdict == v && ws.stream == st'.stream && cell.inner == st'.cell
      && (verdict == Continue ==> info.Val() == st'.info && db.Val() == st'.db && extra == st'.extra)
  {
    extra := NO_EXTRA;
    var scalar := info.daFootprintScalar;
    var built := BuildBlock(s.Block(), info, db, s.WithRoot());
    if built.None? || !start.sends {
      return Aborted, extra;
    }
    cell.Set(built.value.0);
    if s.noTxPool {
      return Stopped, extra;
    }
    var sent := ws.Publish(built.value.1, start.publishes);
    if !sent || start.count == 0 {
      return Aborted, extra;
    }
    extra := FirstExtra(s, start.count, scalar);
    return Continue, extra;
  }

  /** The loop: one turn per signal until the channel closes, the count is reached or a turn ends the job. */
  method RunLoop(s: Settings, first: Extra, info: ExecutionInfo, db: StateDb, best: BestFlashblocksTxs,
                 limiter: AddressGasLimiter, ws: Publisher, cell: BlockCell, inputs: seq<Input>, ghost db0: Db)
    returns (verdict: Ending)
    requires WellBehaved(s.env) && Tracks(db0) && db0.bundle == EMPTY_BUNDLE
    requires LoopHead(s, db0, Snapshot(info, db, best, limiter, first, ws, cell))
    modifies info, db, best, limiter, ws, cell
    ensures
      var (v, st) := BuildLoop(s, old(Snapshot(info, db, best, limiter, first, ws, cell)), inputs);
      verdict == v && ws.stream == st.stream && cell.inner == st.cell && limiter.Val() == st.limiter
  {
    var extra := first;
    ghost var st0 := Snapshot(info, db, best, limiter, first, ws, cell);
    for n := 0 to |inputs|
      invariant LoopHead(s, db0, Snapshot(info, db, best, limiter, extra, ws, cell))
      invariant BuildLoop(s, Snapshot(info, db, best, limiter, extra, ws, cell), inputs[n..]) ==
          BuildLoop(s, st0, inputs)
    {
      ghost var st := Snapshot(info, db, best, limiter, extra, ws, cell);
      assert inputs[n..][0] == inputs[n] && inputs[n..][1..] == inputs[n + 1..];
      if extra.index > extra.count {
        return Stopped;
      }
      TurnKeepsLoopHead(s, db0, st, inputs[n]);
      verdict, extra := BuildNextFlashblock(s, extra, info, db, best, limiter, ws, cell, inputs[n], db0);
      if verdict != Continue {
        return;
      }
    }
    return Stopped;
  }

  /** The job reaches the loop and some turn fails to hand its payload over. */
  predicate JobHandOverFails(s: Settings, db0: Db, limiter: Limiter, start: Start, inputs: seq<Input>) {
    var (verdict, st) := Fallback(s, db0, limiter, start);
    verdict == Continue && SomeHandOverFails(s, st, inputs)
  }

  /** What has been published adds up to the block in the cell, without its last flashblock if it is ahead. */
  ghost predicate StreamMatches(stream: seq<Flashblock>, cell: Option<Payload>, ahead: bool) {
    stream == [] || Agree(if ahead then stream[..|stream| - 1] else stream, cell)
  }

  /**
    A whole job. Whatever the pool, the sidecar, the clock and the network do, what has been published
    adds up to the block in the cell, except that one flashblock more is published exactly when handing
    a payload over fails.
   */
  method BuildPayload(s: Settings, db: StateDb, limiter: AddressGasLimiter, ws: Publisher, cell: BlockCell,
                      start: Start, inputs: seq<Input>) returns (verdict: Ending)
    requires WellBehaved(s.env) && Tracks(db.Val()) && db.bundle == EMPTY_BUNDLE
    requires ws.stream == [] && cell.inner == None
    modifies db, limiter, ws, cell
    ensures
      var (v, st) := RunJob(s, old(db.Val()), old(limiter.Val()), start, inputs);
      verdict == v && ws.stream == st.stream && cell.inner == st.cell && limiter.Val() == st.limiter
    ensures StreamMatches(ws.stream, cell.inner, JobHandOverFails(s, old(db.Val()), old(limiter.Val()), start, inputs))
  {
    ghost var db0 := db.Val();
    JobAgrees(s, db0, limiter.Val(), start, inputs);
    FallbackReachesLoopHead(s, db0, limiter.Val(), start);
    var info, extra;
    verdict, info, extra := BuildFallback(s, db, limiter, ws, cell, start);
    if verdict == Continue {
      var best := new BestFlashblocksTxs([]);
      verdict := RunLoop(s, extra, info, db, best, limiter, ws, cell, inputs, db0);
    }
  }

  lemma JobAgrees(s: Settings, db0: Db, limiter: Limiter, start: Start, inputs: seq<Input>)
    requires WellBehaved(s.env) && Tracks(db0) && db0.bundle == EMPTY_BUNDLE
    ensures
      var st := RunJob(s, db0, limiter, start, inputs).1;
      StreamMatches(st.stream, st.cell, JobHandOverFails(s, db0, limiter, start, inputs))
  {
    FallbackReachesLoopHead(s, db0, limiter, start);
    var (verdict, st) := Fallback(s, db0, limiter, start);
    if verdict == Continue {
      RunsAgree(s, db0, st, inputs);
    }
  }
}
