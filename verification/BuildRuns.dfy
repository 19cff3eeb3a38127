/** What holds at every head of the build loop, over every run. */
module BuildRuns {
  import opened Prelude
  import opened Evm
  import opened Database
  import opened Execution
  import opened Replay
  import opened Overrides
  import opened GasLimiter
  import opened BestTxs
  import opened PoolExecutor
  import opened Sequencer
  import opened Sidecar
  import opened BuilderTx
  import opened Sealing
  import opened Flashblocks

  /* How the totals grow through the phases of a flashblock */

  ghost predicate Grows(info: Info, info': Info) {
    && info.txs <= info'.txs
    && info'.lastIndex == info.lastIndex && info'.scalar == info.scalar && info'.blobFields == info.blobFields
  }

  lemma OpeningKeeps(s: Settings, db0: Db, st: State)
    requires WellBehaved(s.env) && Consistent(s.env, db0, st.info, st.db)
    ensures
      var added := Opening(s, st);
      && Consistent(s.env, db0, added.info, added.db) && Grows(st.info, added.info)
      && added.info.fees == st.info.fees
  {
    var simulated := s.simulate(st.extra.Pos(), st.db, st.info.txs, true);
    if simulated.Some? {
      CandidatesKeepConsistent(s.env, db0, st.info, st.db, simulated.value, true, {});
      CandidatesAddAtMost(s.env, st.info, st.db, simulated.value, true, {});
    }
  }

  lemma ClosingKeeps(s: Settings, db0: Db, e: Extra, info: Info, db: Db)
    requires WellBehaved(s.env) && Consistent(s.env, db0, info, db)
    ensures
      var added := Closing(s, e, info, db);
      && Consistent(s.env, db0, added.info, added.db) && Grows(info, added.info)
      && added.info.fees == info.fees
  {
    var simulated := s.simulate(e.Pos(), db, info.txs, false);
    if simulated.Some? {
      CandidatesKeepConsistent(s.env, db0, info, db, simulated.value, false, {});
      CandidatesAddAtMost(s.env, info, db, simulated.value, false, {});
    }
  }

  /** The pool transactions a turn of the loop includes. */
  function TurnPicks(s: Settings, st: State, i: Input): seq<Pick> {
    Picks(s.Pool(), LimitsOf(s, st), PoolStart(s, st, i), i.live)
  }

  lemma PoolKeeps(s: Settings, db0: Db, st: State, i: Input)
    requires WellBehaved(s.env) && Consistent(s.env, db0, st.info, st.db)
    ensures
      var m := PoolPhase(s, st, i).1;
      && Consistent(s.env, db0, m.info, m.db) && Grows(st.info, m.info)
      && m.info.txs == Opening(s, st).info.txs + PickTxs(TurnPicks(s, st, i))
      && m.info.fees == st.info.fees + PickFees(s.env, TurnPicks(s, st, i))
  {
    OpeningKeeps(s, db0, st);
    var start := PoolStart(s, st, i);
    PoolKeepsConsistent(s.Pool(), LimitsOf(s, st), start, i.live, db0);
    PoolRecordsPicks(s.Pool(), LimitsOf(s, st), start, i.live);
    RecordPicksAppends(s.env, start.info, TurnPicks(s, st, i));
  }

  lemma SidecarKeeps(s: Settings, db0: Db, lim: Limits, info: Info, db: Db, poll: Poll)
    requires Consistent(s.env, db0, info, db) && SidecarPhase(s, lim, info, db, poll).Accepted?
    ensures
      var r := SidecarPhase(s, lim, info, db, poll);
      && Consistent(s.env, db0, r.info, r.db) && Grows(info, r.info)
      && r.info.fees == info.fees
  {
    if poll.Received? && poll.txs != [] {
      SidecarKeepsConsistent(s.Pool(), lim, db0, info, db, poll.txs);
      RequiredAreAllOrNothing(s.Pool(), lim, info, db, poll.txs);
      BestEffortAppendsLanded(s.Pool(), lim, info, db, poll.txs);
    }
  }

  /** All phases together; only the fees of pool transactions are collected. */
  lemma PhasesKeep(s: Settings, db0: Db, st: State, i: Input)
    requires WellBehaved(s.env) && Consistent(s.env, db0, st.info, st.db)
    ensures
      var d := ExecutePhases(s, st, i);
      && d.st.stream == st.stream && d.st.cell == st.cell && d.st.extra == st.extra
      && (d.Draft? ==>
            && Consistent(s.env, db0, d.st.info, d.st.db)
            && Grows(st.info, d.st.info)
            && d.st.info.fees == st.info.fees + PickFees(s.env, TurnPicks(s, st, i)))
  {
    PoolKeeps(s, db0, st, i);
    var m := PoolPhase(s, st, i).1;
    var r := BeforeClosing(s, st, i);
    if r.Accepted? {
      SidecarKeeps(s, db0, LimitsOf(s, st), m.info, m.db, i.poll);
      ClosingKeeps(s, db0, st.extra, r.info, r.db);
    }
  }

  /* Stream and cell */

  /** The transactions of a stream of flashblocks, in order. */
  function Deltas(stream: seq<Flashblock>): seq<Tx> {
    if stream == [] then [] else Deltas(stream[..|stream| - 1]) + stream[|stream| - 1].txs
  }

  function DeltaReceipts(stream: seq<Flashblock>): seq<Receipt> {
    if stream == [] then [] else DeltaReceipts(stream[..|stream| - 1]) + stream[|stream| - 1].receipts
  }

  /** Indices 0, 1, 2, ... without gaps; only flashblock 0 carries the base. */
  ghost predicate Numbered(stream: seq<Flashblock>) {
    forall k :: 0 <= k < |stream| ==> stream[k].index == k && (stream[k].hasBase <==> k == 0)
  }

  /** The stream adds up to the block with this header, which is also the one its last flashblock announces. */
  ghost predicate AddsUp(stream: seq<Flashblock>, header: Header) {
    && stream != [] && stream[|stream| - 1].header == header
    && Deltas(stream) == header.txs
    && DeltaReceipts(stream) == header.receipts
  }

  /** Everything published adds up to the block in the cell. */
  ghost predicate Agree(stream: seq<Flashblock>, cell: Option<Payload>) {
    Numbered(stream) && cell.Some? && AddsUp(stream, cell.value.header)
  }

  /** The stream agrees with the cell and is as long as the index says, but for one flashblock if it is ahead. */
  ghost predicate InStep(st: State, ahead: bool) {
    if ahead then |st.stream| == st.extra.index + 1 && Agree(st.stream[..st.extra.index], st.cell)
    else |st.stream| == st.extra.index && Agree(st.stream, st.cell)
  }

  /** The turn gets as far as publishing its flashblock, but handing the payload over fails. */
  predicate HandOverFails(s: Settings, st: State, i: Input) {
    ExecutePhases(s, st, i).Draft? && Sealable(s.Block()) && !i.cancelledAfterBuild && i.publishes && !i.sends
  }

  /** The state at a head of the build loop. */
  ghost predicate LoopHead(s: Settings, db0: Db, st: State) {
    && Consistent(s.env, db0, st.info, st.db)
    && st.db.bundle == EMPTY_BUNDLE
    && st.info.lastIndex == |st.info.txs|
    && st.info.blobFields == None && (st.info.scalar.Some? <==> s.env.jovian)
    && |st.stream| == st.extra.index >= 1
    && Agree(st.stream, st.cell)
    && st.cell == Some(PayloadOf(s.Block(), st.info, st.db, s.WithRoot()))
  }

  lemma DeltasOfAppend(stream: seq<Flashblock>, fb: Flashblock)
    ensures Deltas(stream + [fb]) == Deltas(stream) + fb.txs
    ensures DeltaReceipts(stream + [fb]) == DeltaReceipts(stream) + fb.receipts
  {
    assert (stream + [fb])[..|stream|] == stream;
  }

  lemma NumberedAppend(stream: seq<Flashblock>, fb: Flashblock)
    requires Numbered(stream) && fb.index == |stream| && (fb.hasBase <==> stream == [])
    ensures Numbered(stream + [fb])
  {
  }

  lemma ReceiptsExtend(env: Env, db0: Db, info: Info, db: Db, info': Info, db': Db)
    requires Replays(env, db0, info, db) && Replays(env, db0, info', db') && info.txs <= info'.txs
    ensures |info.receipts| == |info.txs| <= |info'.receipts|
    ensures info.receipts + info'.receipts[|info.txs|..] == info'.receipts
  {
    var n := |info.txs|;
    assert info'.txs[..n] == info.txs;
    ReceiptsOfPrefix(env, db0, info'.txs, n);
    assert info'.receipts[..n] == info.receipts;
  }

  /** The published delta is exactly what is new since the previous flashblock. */
  lemma DeltaCompletesStream(s: Settings, db0: Db, head: State, info: Info, db: Db)
    requires LoopHead(s, db0, head) && Grows(head.info, info) && Consistent(s.env, db0, info, db)
    ensures
      var delta := DeltaOf(s.Block(), info, db, s.WithRoot()).(index := head.extra.index, hasBase := false);
      Numbered(head.stream + [delta])
          && AddsUp(head.stream + [delta], PayloadOf(s.Block(), info, db, s.WithRoot()).header)
  {
    var delta := DeltaOf(s.Block(), info, db, s.WithRoot()).(index := head.extra.index, hasBase := false);
    DeltasOfAppend(head.stream, delta);
    NumberedAppend(head.stream, delta);
    var n := |head.info.txs|;
    assert info.txs[n..] == delta.txs && head.info.txs + delta.txs == info.txs;
    assert head.info.receipts + delta.receipts == info.receipts by {
      ReceiptsExtend(s.env, db0, head.info, head.db, info, db);
    }
  }

  lemma SealKeepsAgreement(s: Settings, db0: Db, head: State, st: State, reserved: Extra, i: Input)
    requires LoopHead(s, db0, head)
    requires Consistent(s.env, db0, st.info, st.db) && Grows(head.info, st.info)
    requires st.db.bundle == EMPTY_BUNDLE
    requires st.stream == head.stream && st.cell == head.cell && st.extra == head.extra
    ensures
      var (verdict, st') := SealPhase(s, st, reserved, i);
      && (verdict == Continue ==>
            && LoopHead(s, db0, st') && st'.info == st.info.(lastIndex := |st.info.txs|)
            && st'.extra == NextExtra(st.extra, reserved))
      && InStep(st', Sealable(s.Block()) && !i.cancelledAfterBuild && i.publishes && !i.sends)
      && (verdict != Continue ==> st'.cell == st.cell)
  {
    DeltaCompletesStream(s, db0, head, st.info, st.db);
    var (_, st') := SealPhase(s, st, reserved, i);
    assert st'.stream != st.stream ==> st'.stream[..|st.stream|] == st.stream;
  }

  /**
    Every turn of the loop that goes on leads to another loop head whose block extends the previous
    one. A turn that ends the job leaves stream and cell agreeing, unless its hand-over fails: then, and
    only then, the stream is ahead, by exactly this flashblock.
   */
  lemma TurnKeepsLoopHead(s: Settings, db0: Db, st: State, i: Input)
    requires WellBehaved(s.env) && Tracks(db0) && db0.bundle == EMPTY_BUNDLE && LoopHead(s, db0, st)
    ensures
      var (verdict, st') := NextFlashblock(s, st, i);
      && (verdict == Continue ==>
            && LoopHead(s, db0, st')
            && st.info.txs <= st'.info.txs && st'.info.scalar == st.info.scalar
            && st'.info.fees == st.info.fees + PickFees(s.env, TurnPicks(s, st, i)))
      && InStep(st', HandOverFails(s, st, i))
      && (HandOverFails(s, st, i) ==> verdict == Aborted)
      && (verdict != Continue ==> st'.cell == st.cell)
      && (i.cancelledAfterPool || i.cancelledAfterBuild ==> st'.stream == st.stream && st'.cell == st.cell)
  {
    PhasesKeep(s, db0, st, i);
    var d := ExecutePhases(s, st, i);
    if d.Draft? {
      ReplayTracks(s.env, db0, d.st.info.txs);
      SealKeepsAgreement(s, db0, st, d.st, d.reserved, i);
    }
  }

  lemma DepositedKeeps(s: Settings, db0: Db, attributes: seq<Tx>)
    requires WellBehaved(s.env) && Deposited(s, db0, attributes).Some?
    ensures
      var (info, db) := Deposited(s, db0, attributes).value;
      && Consistent(s.env, db0, info, db)
      && info.lastIndex == 0 && info.fees == 0 && info.blobFields == None
      && info.scalar == (if s.env.jovian then Some(s.env.scalarOf(WorldAfter(s.env, db0, attributes))) else None)
  {
    NothingExecutedIsConsistent(s.env, db0, EMPTY_INFO);
    SequencerKeepsConsistent(s.env, db0, EMPTY_INFO, db0, attributes);
    SequencerIsExact(s.env, db0, attributes);
    var r := RunSequencer(s.env, EMPTY_INFO, db0, attributes);
    var info := WithScalar(s.env, r.info, r.db);
    var simulated := s.simulate(Position(0, s.configuredCount), r.db, info.txs, false);
    if simulated.Some? {
      CandidatesKeepConsistent(s.env, db0, info, r.db, simulated.value, false, {});
      CandidatesAddAtMost(s.env, info, r.db, simulated.value, false, {});
    }
  }

  lemma FirstDeltaIsWholeBlock(s: Settings, info: Info, db: Db)
    requires info.lastIndex == 0
    ensures
      var delta := DeltaOf(s.Block(), info, db, s.WithRoot());
      Numbered([delta]) && AddsUp([delta], PayloadOf(s.Block(), info, db, s.WithRoot()).header)
  {
    var delta := DeltaOf(s.Block(), info, db, s.WithRoot());
    DeltasOfAppend([], delta);
    assert [] + [delta] == [delta];
  }

  /** The job starts at a loop head unless it ends in the fallback block. */
  lemma FallbackReachesLoopHead(s: Settings, db0: Db, limiter: Limiter, start: Start)
    requires WellBehaved(s.env) && Tracks(db0) && db0.bundle == EMPTY_BUNDLE
    ensures
      var (verdict, st) := Fallback(s, db0, limiter, start);
      && (verdict == Continue ==>
            && LoopHead(s, db0, st) && st.info.fees == 0 && st.extra.index == 1
            && (s.env.jovian ==> st.info.scalar == Some(s.env.scalarOf(WorldAfter(s.env, db0, start.attributes)))))
      && (st.stream != [] ==> Agree(st.stream, st.cell))
  {
    var d := Deposited(s, db0, start.attributes);
    if d.Some? {
      DepositedKeeps(s, db0, start.attributes);
      ReplayTracks(s.env, db0, d.value.0.txs);
      FirstDeltaIsWholeBlock(s, d.value.0, d.value.1);
    }
  }

  /* Whole runs */

  /** A payload sealed from a state that replays from `db0`. */
  ghost predicate SealedFrom(s: Settings, db0: Db, payload: Payload) {
    exists info: Info, db: Db :: Consistent(s.env, db0, info, db)
        && payload == PayloadOf(s.Block(), info, db, s.WithRoot())
  }

  /** Some turn of the run fails to hand its payload over; it is the last one. */
  predicate SomeHandOverFails(s: Settings, st: State, inputs: seq<Input>)
    decreases |inputs|
  {
    && inputs != [] && st.extra.index <= st.extra.count
    && (HandOverFails(s, st, inputs[0])
        || (var (verdict, st') := NextFlashblock(s, st, inputs[0]);
            verdict == Continue && SomeHandOverFails(s, st', inputs[1..])))
  }

  /**
    Over every run of the loop: the stream stays numbered and adds up to the block in the cell, unless
    a hand-over fails: then, and only then, it is ahead, by exactly one flashblock. The block in the
    cell extends the one the run started with and is always one that replays.
   */
  lemma {:induction false} RunsAgree(s: Settings, db0: Db, st: State, inputs: seq<Input>)
    requires WellBehaved(s.env) && Tracks(db0) && db0.bundle == EMPTY_BUNDLE && LoopHead(s, db0, st)
    ensures
      var st' := BuildLoop(s, st, inputs).1;
      && InStep(st', SomeHandOverFails(s, st, inputs))
      && st'.cell.Some? && st.cell.value.header.txs <= st'.cell.value.header.txs
      && SealedFrom(s, db0, st'.cell.value)
    decreases |inputs|
  {
    if inputs != [] && st.extra.index <= st.extra.count {
      TurnKeepsLoopHead(s, db0, st, inputs[0]);
      var (verdict, st') := NextFlashblock(s, st, inputs[0]);
      if verdict == Continue {
        RunsAgree(s, db0, st', inputs[1..]);
      }
    }
  }

  /** A turn moves the index by one if it is completed, and the rest of the targets' frame not at all. */
  lemma TurnIndex(s: Settings, st: State, i: Input)
    ensures
      var (verdict, st') := NextFlashblock(s, st, i);
      && st'.extra.index == st.extra.index + (if verdict == Continue then 1 else 0)
      && st'.extra.count == st.extra.count && st'.extra.gasPerBatch == st.extra.gasPerBatch
      && st'.extra.daPerBatch == st.extra.daPerBatch && st'.extra.footprintPerBatch == st.extra.footprintPerBatch
      && st'.extra.targetGas == st.extra.targetGas + (if verdict == Continue then st.extra.gasPerBatch else 0)
      && (HandOverFails(s, st, i) ==> verdict != Continue)
  {
  }

  lemma {:induction false} IndexStaysInRange(s: Settings, st: State, inputs: seq<Input>)
    requires st.extra.index <= st.extra.count + 1
    ensures
      var e := BuildLoop(s, st, inputs).1.extra;
      && e.count == st.extra.count && e.index <= e.count + 1
      && (SomeHandOverFails(s, st, inputs) ==> e.index <= e.count)
    decreases |inputs|
  {
    if inputs != [] && st.extra.index <= st.extra.count {
      TurnIndex(s, st, inputs[0]);
      var (verdict, st') := NextFlashblock(s, st, inputs[0]);
      if verdict == Continue {
        IndexStaysInRange(s, st', inputs[1..]);
      }
    }
  }

  /**
    The loop ends by itself: it completes at most one flashblock per remaining index, so a job never
    publishes more than count + 1 flashblocks.
   */
  lemma AtMostCountFlashblocks(s: Settings, db0: Db, st: State, inputs: seq<Input>)
    requires WellBehaved(s.env) && Tracks(db0) && db0.bundle == EMPTY_BUNDLE && LoopHead(s, db0, st)
    requires st.extra.index <= st.extra.count + 1
    ensures |BuildLoop(s, st, inputs).1.stream| <= st.extra.count + 1
  {
    RunsAgree(s, db0, st, inputs);
    IndexStaysInRange(s, st, inputs);
  }

  /** How a turn ends, in the order things can go wrong. */
  lemma TurnEndsExactly(s: Settings, st: State, i: Input)
    ensures
      NextFlashblock(s, st, i).0 ==
      if PoolPhase(s, st, i).0 == Failed then Aborted
      else if i.cancelledAfterPool then Stopped
      else if BeforeClosing(s, st, i).Refused? || s.env.number != s.parentNumber + 1 || !s.hasBeaconRoot then Aborted
      else if i.cancelledAfterBuild then Stopped
      else if i.publishes && i.sends then Continue
      else Aborted
  {
  }

  /** How the fallback block ends. Once it is sealed and handed over it is in the cell, whatever happens next. */
  lemma FallbackEndsExactly(s: Settings, db0: Db, limiter: Limiter, start: Start)
    ensures
      var (verdict, st) := Fallback(s, db0, limiter, start);
      var sealed := && (forall i :: 0 <= i < |start.attributes| ==> Tolerated(s.env, db0, start.attributes, i))
                    && s.env.number == s.parentNumber + 1 && s.hasBeaconRoot && start.sends;
      && (st.cell.Some? <==> sealed) && (st.stream != [] <==> sealed && !s.noTxPool && start.publishes)
      && verdict == if !sealed then Aborted
                    else if s.noTxPool then Stopped
                    else if !start.publishes || start.count == 0 then Aborted
                    else Continue
  {
    SequencerIsExact(s.env, db0, start.attributes);
  }

  /** Every turn a run takes has a property of its state and input. */
  ghost predicate EveryTurn(s: Settings, st: State, inputs: seq<Input>, good: (State, Input) -> bool)
    decreases |inputs|
  {
    inputs != [] && st.extra.index <= st.extra.count ==>
      && good(st, inputs[0])
      && (var (verdict, st') := NextFlashblock(s, st, inputs[0]);
          verdict == Continue ==> EveryTurn(s, st', inputs[1..], good))
  }

  lemma {:induction false} AlwaysEveryTurn(s: Settings, st: State, inputs: seq<Input>, good: (State, Input) -> bool)
    requires forall t: State, i: Input :: good(t, i)
    ensures EveryTurn(s, st, inputs, good)
    decreases |inputs|
  {
    if inputs != [] {
      AlwaysEveryTurn(s, NextFlashblock(s, st, inputs[0]).1, inputs[1..], good);
    }
  }

  ghost predicate EveryJobTurn(s: Settings, db0: Db, limiter: Limiter, start: Start, inputs: seq<Input>,
                               good: (State, Input) -> bool)
  {
    var (verdict, st) := Fallback(s, db0, limiter, start);
    verdict == Continue ==> EveryTurn(s, st, inputs, good)
  }

  /** The pool transactions included by each turn of a run. */
  function PickLog(s: Settings, st: State, inputs: seq<Input>): seq<seq<Pick>>
    decreases |inputs|
  {
    if inputs == [] || st.extra.index > st.extra.count then []
    else
      var (verdict, st') := NextFlashblock(s, st, inputs[0]);
      [TurnPicks(s, st, inputs[0])] + if verdict == Continue then PickLog(s, st', inputs[1..]) else []
  }

  /** Nothing goes wrong in this turn and nobody cancels the block. */
  ghost predicate Smooth(i: Input) {
    && !i.cancelledAfterPool && !i.cancelledAfterBuild && i.publishes && i.sends
    && (i.poll.Received? ==> forall k :: 0 <= k < |i.poll.txs| ==> !i.poll.txs[k].required)
  }

  /** The EVM does not fail on a pool transaction of this turn. */
  predicate PoolWorks(s: Settings, st: State, i: Input) {
    !MeetsFatal(s.Pool(), LimitsOf(s, st), PoolStart(s, st, i), i.live)
  }

  lemma SmoothTurnContinues(s: Settings, st: State, i: Input)
    requires PoolWorks(s, st, i) && Sealable(s.Block()) && Smooth(i)
    ensures NextFlashblock(s, st, i).0 == Continue
    ensures NextFlashblock(s, st, i).1.extra.index == st.extra.index + 1
    ensures NextFlashblock(s, st, i).1.extra.count == st.extra.count
    ensures |NextFlashblock(s, st, i).1.stream| == |st.stream| + 1
  {
    PoolCompletes(s.Pool(), LimitsOf(s, st), PoolStart(s, st, i), i.live);
    var m := PoolPhase(s, st, i).1;
    if i.poll.Received? && i.poll.txs != [] {
      RequiredAreAllOrNothing(s.Pool(), LimitsOf(s, st), m.info, m.db, i.poll.txs);
    }
  }

  function PoolsWork(s: Settings): (State, Input) -> bool {
    (t: State, i: Input) => PoolWorks(s, t, i)
  }

  /** An undisturbed run that gets enough signals publishes every planned flashblock and then stops. */
  lemma {:induction false} UndisturbedRunIsComplete(s: Settings, st: State, inputs: seq<Input>)
    requires EveryTurn(s, st, inputs, PoolsWork(s)) && Sealable(s.Block())
    requires forall i :: i in inputs ==> Smooth(i)
    requires |st.stream| == st.extra.index <= st.extra.count + 1 <= st.extra.index + |inputs|
    ensures
      var (verdict, st') := BuildLoop(s, st, inputs);
      verdict == Stopped && |st'.stream| == st.extra.count + 1
    decreases |inputs|
  {
    if st.extra.index <= st.extra.count {
      assert inputs[0] in inputs;
      SmoothTurnContinues(s, st, inputs[0]);
      UndisturbedRunIsComplete(s, NextFlashblock(s, st, inputs[0]).1, inputs[1..]);
    }
  }

  /** A run keeps the batch shares, and the gas target is always exactly the flashblock's index times its share. */
  lemma {:induction false} GasTargetIsExact(s: Settings, st: State, inputs: seq<Input>)
    requires st.extra.targetGas == st.extra.index * st.extra.gasPerBatch
    ensures
      var e := BuildLoop(s, st, inputs).1.extra;
      && e.targetGas == e.index * e.gasPerBatch && e.count == st.extra.count && e.gasPerBatch == st.extra.gasPerBatch
      && e.daPerBatch == st.extra.daPerBatch && e.footprintPerBatch == st.extra.footprintPerBatch
    decreases |inputs|
  {
    if inputs != [] && st.extra.index <= st.extra.count {
      TurnIndex(s, st, inputs[0]);
      var (verdict, st') := NextFlashblock(s, st, inputs[0]);
      MulSucc(st.extra.index, st.extra.gasPerBatch);
      if verdict == Continue {
        GasTargetIsExact(s, st', inputs[1..]);
      }
    }
  }

  /** `share` is what each of `count` flashblocks gets of a limit, to within one unit. */
  ghost predicate FairShare(limit: nat, count: nat, share: nat) {
    count * share <= limit < count * share + count
  }

  /** Gas, DA and, after Jovian, footprint are divided evenly among the flashblocks of the block. */
  ghost predicate SharesAreFair(s: Settings, e: Extra) {
    && FairShare(s.blockGasLimit, e.count, e.gasPerBatch)
    && (if s.maxDaBlock.Some? then e.daPerBatch.Some? && FairShare(s.maxDaBlock.value, e.count, e.daPerBatch.value)
        else e.daPerBatch == None)
    && e.footprintPerBatch == if s.env.jovian then Some(e.gasPerBatch) else None
  }

  /**
    Over every job that gets to its loop: the limits are divided evenly among the planned flashblocks, flashblock i may
    fill the block up to i shares of gas, and the last one up to the gas limit, to within one unit per flashblock.
   */
  lemma JobTargetsAreExact(s: Settings, db0: Db, limiter: Limiter, start: Start, inputs: seq<Input>)
    requires WellBehaved(s.env) && Tracks(db0) && db0.bundle == EMPTY_BUNDLE
    requires Fallback(s, db0, limiter, start).0 == Continue
    ensures
      var e := RunJob(s, db0, limiter, start, inputs).1.extra;
      && e.count == start.count && SharesAreFair(s, e) && e.targetGas == e.index * e.gasPerBatch
      && (e.index == e.count ==> s.blockGasLimit - e.count < e.targetGas <= s.blockGasLimit)
  {
    FallbackReachesLoopHead(s, db0, limiter, start);
    var st := Fallback(s, db0, limiter, start).1;
    FirstSharesAreFair(s, start.count, st.info.scalar);
    GasTargetIsExact(s, st, inputs);
  }

  lemma FirstSharesAreFair(s: Settings, count: nat, scalar: Option<nat>)
    requires count > 0 && (scalar.Some? <==> s.env.jovian)
    ensures SharesAreFair(s, FirstExtra(s, count, scalar))
  {
  }

  /* Pool transactions over a run */

  predicate Avoids(picks: seq<Pick>, hashes: set<Hash>) {
    forall k :: k in picks ==> k.p.tx.hash !in hashes
  }

  lemma NewHashesCoverPicks(opening: Info, picks: seq<Pick>, info: Info)
    requires info.txs == opening.txs + PickTxs(picks) && info.lastIndex <= |opening.txs|
    ensures forall k :: k in picks ==> k.p.tx.hash in NewHashes(info)
  {
    forall k | k in picks ensures k.p.tx.hash in NewHashes(info) {
      var n :| 0 <= n < |picks| && picks[n] == k;
      var at := |opening.txs| + n;
      assert info.txs[at] == PickTxs(picks)[n] == k.p.tx;
      assert info.lastIndex <= at < |info.txs|;
    }
  }

  /** Every pool transaction a turn includes comes from the pool and is admissible in this very flashblock. */
  lemma TurnPicksAreAdmissible(s: Settings, st: State, i: Input)
    ensures forall k :: k in TurnPicks(s, st, i) ==>
              k.p in i.pool && Admissible(s.Pool(), s.maxDaTx, Best(i.pool, {}, st.extra.index, st.committed), k)
    ensures Avoids(TurnPicks(s, st, i), st.committed)
  {
    PicksAreAdmissible(s.Pool(), LimitsOf(s, st), PoolStart(s, st, i), i.live);
  }

  /** A turn marks everything it includes. */
  lemma TurnMarksPicks(s: Settings, db0: Db, st: State, i: Input)
    requires WellBehaved(s.env) && LoopHead(s, db0, st)
    ensures
      var (verdict, st') := NextFlashblock(s, st, i);
      verdict == Continue ==>
        && st.committed <= st'.committed
        && forall k :: k in TurnPicks(s, st, i) ==> k.p.tx.hash in st'.committed
  {
    PoolKeeps(s, db0, st, i);
    OpeningKeeps(s, db0, st);
    NewHashesCoverPicks(Opening(s, st).info, TurnPicks(s, st, i), PoolPhase(s, st, i).1.info);
  }

  function HashesOf(txs: seq<Tx>): set<Hash> {
    set k | 0 <= k < |txs| :: txs[k].hash
  }

  /** A completed turn marks exactly its opening builder transactions and the pool transactions it includes. */
  lemma TurnMarksExactly(s: Settings, db0: Db, st: State, i: Input)
    requires WellBehaved(s.env) && LoopHead(s, db0, st) && NextFlashblock(s, st, i).0 == Continue
    ensures
      var opening := Opening(s, st).info.txs;
      && st.info.txs <= opening
      && NextFlashblock(s, st, i).1.committed ==
         st.committed + HashesOf(opening[|st.info.txs|..]) + HashesOf(PickTxs(TurnPicks(s, st, i)))
  {
    PoolKeeps(s, db0, st, i);
    OpeningKeeps(s, db0, st);
    var m := PoolPhase(s, st, i).1;
    NewHashesSplit(m.info, Opening(s, st).info.txs, PickTxs(TurnPicks(s, st, i)));
    assert NextFlashblock(s, st, i).1.committed == st.committed + NewHashes(m.info);
  }

  lemma NewHashesSplit(info: Info, opening: seq<Tx>, picked: seq<Tx>)
    requires info.txs == opening + picked && info.lastIndex <= |opening|
    ensures NewHashes(info) == HashesOf(opening[info.lastIndex..]) + HashesOf(picked)
  {
    var n := info.lastIndex;
    forall h | h in NewHashes(info) ensures h in HashesOf(opening[n..]) + HashesOf(picked) {
      var k :| n <= k < |info.txs| && info.txs[k].hash == h;
      if k < |opening| {
        assert opening[n..][k - n].hash == h;
      } else {
        assert picked[k - |opening|].hash == h;
      }
    }
    forall h | h in HashesOf(opening[n..]) ensures h in NewHashes(info) {
      var k :| 0 <= k < |opening| - n && opening[n..][k].hash == h;
      assert info.txs[n + k].hash == h;
    }
    forall h | h in HashesOf(picked) ensures h in NewHashes(info) {
      var k :| 0 <= k < |picked| && picked[k].hash == h;
      assert info.txs[|opening| + k].hash == h;
    }
  }

  /** No pool transaction is included twice: not by two flashblocks, and not if it was marked before the run. */
  ghost predicate NoneTwice(log: seq<seq<Pick>>, hashes: set<Hash>) {
    && (forall n :: 0 <= n < |log| ==> Avoids(log[n], hashes))
    && (forall m, n, j: Pick, k: Pick :: 0 <= m < n < |log| && j in log[m] && k in log[n] ==>
          j.p.tx.hash != k.p.tx.hash)
  }

  lemma NoneTwiceCons(first: seq<Pick>, log: seq<seq<Pick>>, before: set<Hash>, after: set<Hash>)
    requires Avoids(first, before) && before <= after && NoneTwice(log, after)
    requires forall k :: k in first ==> k.p.tx.hash in after
    ensures NoneTwice([first] + log, before)
  {
    var all := [first] + log;
    forall m, n, j: Pick, k: Pick | 0 <= m < n < |all| && j in all[m] && k in all[n]
        ensures j.p.tx.hash != k.p.tx.hash {
      assert all[n] == log[n - 1] && Avoids(log[n - 1], after);
      if m > 0 {
        assert all[m] == log[m - 1];
      }
    }
    forall n | 0 <= n < |all| ensures Avoids(all[n], before) {
      if n > 0 {
        assert all[n] == log[n - 1] && Avoids(log[n - 1], after);
      }
    }
  }

  /** A pool transaction executed in one flashblock is never executed in a later flashblock of the same block. */
  lemma {:induction false} NoPoolTransactionTwice(s: Settings, db0: Db, st: State, inputs: seq<Input>)
    requires WellBehaved(s.env) && Tracks(db0) && db0.bundle == EMPTY_BUNDLE && LoopHead(s, db0, st)
    ensures NoneTwice(PickLog(s, st, inputs), st.committed)
    decreases |inputs|
  {
    if inputs != [] && st.extra.index <= st.extra.count {
      TurnPicksAreAdmissible(s, st, inputs[0]);
      TurnMarksPicks(s, db0, st, inputs[0]);
      var (verdict, st') := NextFlashblock(s, st, inputs[0]);
      if verdict == Continue {
        TurnKeepsLoopHead(s, db0, st, inputs[0]);
        NoPoolTransactionTwice(s, db0, st', inputs[1..]);
        NoneTwiceCons(TurnPicks(s, st, inputs[0]), PickLog(s, st', inputs[1..]), st.committed, st'.committed);
      } else {
        NoneTwiceCons(TurnPicks(s, st, inputs[0]), [], st.committed,
            st.committed + set k | k in TurnPicks(s, st, inputs[0]) :: k.p.tx.hash);
      }
    }
  }

  /** Fees of the turns that were completed. */
  function FeesEarned(s: Settings, st: State, inputs: seq<Input>): nat
    decreases |inputs|
  {
    if inputs == [] || st.extra.index > st.extra.count then 0
    else
      var (verdict, st') := NextFlashblock(s, st, inputs[0]);
      if verdict == Continue then PickFees(s.env, TurnPicks(s, st, inputs[0])) + FeesEarned(s, st', inputs[1..]) else 0
  }

  /** The payload's fees are the tips of the pool transactions it includes, and nothing else. */
  lemma {:induction false} FeesAreTipsOfPicks(s: Settings, db0: Db, st: State, inputs: seq<Input>)
    requires WellBehaved(s.env) && Tracks(db0) && db0.bundle == EMPTY_BUNDLE && LoopHead(s, db0, st)
    ensures
      var st' := BuildLoop(s, st, inputs).1;
      st'.cell.Some? && st'.cell.value.fees == st.cell.value.fees + FeesEarned(s, st, inputs)
    decreases |inputs|
  {
    if inputs != [] && st.extra.index <= st.extra.count {
      TurnKeepsLoopHead(s, db0, st, inputs[0]);
      var (verdict, st') := NextFlashblock(s, st, inputs[0]);
      if verdict == Continue {
        FeesAreTipsOfPicks(s, db0, st', inputs[1..]);
      }
    }
  }

  /* Rate limiting over runs */

  function LogGas(log: seq<seq<Pick>>, a: Address): nat {
    if log == [] then 0 else PickGas(log[0], a) + LogGas(log[1..], a)
  }

  lemma TurnIsCharged(s: Settings, st: State, i: Input, a: Address)
    requires st.limiter.Enabled? && Valid(st.limiter)
    ensures
      var st' := NextFlashblock(s, st, i).1;
      && st'.limiter.Enabled? && Valid(st'.limiter) && st'.limiter.config == st.limiter.config
      && PickGas(TurnPicks(s, st, i), a) + Available(st'.limiter, a) <= Available(st.limiter, a)
  {
    PicksAreCharged(s.Pool(), LimitsOf(s, st), PoolStart(s, st, i), i.live, a);
    assert NextFlashblock(s, st, i).1.limiter == PoolPhase(s, st, i).1.limiter;
  }

  lemma {:induction false} RunIsCharged(s: Settings, st: State, inputs: seq<Input>, a: Address)
    requires st.limiter.Enabled? && Valid(st.limiter)
    ensures
      var st' := BuildLoop(s, st, inputs).1;
      && st'.limiter.Enabled? && Valid(st'.limiter) && st'.limiter.config == st.limiter.config
      && LogGas(PickLog(s, st, inputs), a) + Available(st'.limiter, a) <= Available(st.limiter, a)
    decreases |inputs|
  {
    if inputs != [] && st.extra.index <= st.extra.count {
      TurnIsCharged(s, st, inputs[0], a);
      var (verdict, st') := NextFlashblock(s, st, inputs[0]);
      var later := if verdict == Continue then PickLog(s, st', inputs[1..]) else [];
      assert ([TurnPicks(s, st, inputs[0])] + later)[1..] == later;
      if verdict == Continue {
        RunIsCharged(s, st', inputs[1..], a);
      }
    }
  }

  /** One block-building job with everything it was given. */
  datatype Job = Job(s: Settings, db0: Db, start: Start, inputs: seq<Input>)

  function LimiterAfter(l: Limiter, job: Job): Limiter {
    RunJob(job.s, job.db0, l, job.start, job.inputs).1.limiter
  }

  /** Pool gas of one address executed by a job. */
  function JobGas(l: Limiter, job: Job, a: Address): nat {
    var (verdict, st) := Fallback(job.s, job.db0, l, job.start);
    if verdict == Continue then LogGas(PickLog(job.s, st, job.inputs), a) else 0
  }

  function TotalGas(l: Limiter, jobs: seq<Job>, a: Address): nat
    decreases |jobs|
  {
    if jobs == [] then 0 else JobGas(l, jobs[0], a) + TotalGas(LimiterAfter(l, jobs[0]), jobs[1..], a)
  }

  /** A job starts with every address refilled, up to its cap, and its turns change the limiter only by charging. */
  lemma JobStartsRefilled(l: Limiter, job: Job, a: Address)
    requires l.Enabled? && Valid(l)
    ensures
      var l' := Fallback(job.s, job.db0, l, job.start).1.limiter;
      && l'.Enabled? && l'.config == l.config
      && Available(l', a) == Min(l.config.maxGasPerAddress, Available(l, a) + l.config.refillRatePerBlock)
  {
    RefreshRefinesTotal(l, job.s.env.number);
    assert Fallback(job.s, job.db0, l, job.start).1.limiter == Refresh(l, job.s.env.number);
  }

  lemma JobIsCharged(l: Limiter, job: Job, a: Address)
    requires l.Enabled? && Valid(l)
    ensures
      var l' := LimiterAfter(l, job);
      && l'.Enabled? && Valid(l') && l'.config == l.config
      && JobGas(l, job, a) + Available(l', a) <= Available(l, a) + l.config.refillRatePerBlock
  {
    RefreshRefinesTotal(l, job.s.env.number);
    var (verdict, st) := Fallback(job.s, job.db0, l, job.start);
    assert st.limiter == Refresh(l, job.s.env.number);
    if verdict == Continue {
      RunIsCharged(job.s, st, job.inputs, a);
    }
  }

  lemma Accumulates(first: nat, later: nat, before: nat, after: nat, n: nat, rate: nat)
    requires first + after <= before + rate && later <= after + n * rate
    ensures first + later <= before + (n + 1) * rate
  {
    MulSucc(n, rate);
  }

  /**
    Over any sequence of jobs, the pool gas an address gets executed is at most what it had available
    at the start plus one refill per job -- max_gas + r * refill for a new limiter.
   */
  lemma {:induction false} PoolGasIsRateLimited(l: Limiter, jobs: seq<Job>, a: Address)
    requires l.Enabled? && Valid(l)
    ensures TotalGas(l, jobs, a) <= Available(l, a) + |jobs| * l.config.refillRatePerBlock
    decreases |jobs|
  {
    if jobs != [] {
      JobIsCharged(l, jobs[0], a);
      var l', rest := LimiterAfter(l, jobs[0]), jobs[1..];
      PoolGasIsRateLimited(l', rest, a);
      Accumulates(JobGas(l, jobs[0], a), TotalGas(l', rest, a), Available(l, a), Available(l', a), |rest|,
                  l.config.refillRatePerBlock);
    }
  }
}
