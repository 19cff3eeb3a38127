/** Where the builder's own transactions end up, flashblock by flashblock. */
module Placement {
  import opened Prelude
  import opened Evm
  import opened Database
  import opened Execution
  import opened Replay
  import opened Overrides
  import opened GasLimiter
  import opened PoolExecutor
  import opened Sequencer
  import opened Sidecar
  import opened BuilderTx
  import opened Sealing
  import opened Flashblocks
  import opened BuildRuns
  import opened Budgets

  /** Number of transactions of `txs` sent by `a`. */
  function CountBy(txs: seq<Tx>, a: Address): nat {
    if txs == [] then 0 else (if txs[0].signer == a then 1 else 0) + CountBy(txs[1..], a)
  }

  lemma {:induction false} CountByConcat(x: seq<Tx>, y: seq<Tx>, a: Address)
    ensures CountBy(x + y, a) == CountBy(x, a) + CountBy(y, a)
    decreases |x|
  {
    if x == [] {
      assert x + y == y;
    } else {
      CountByConcat(x[1..], y, a);
      assert (x + y)[1..] == x[1..] + y;
    }
  }

  lemma {:induction false} NoneBy(txs: seq<Tx>, a: Address)
    requires forall tx :: tx in txs ==> tx.signer != a
    ensures CountBy(txs, a) == 0
    decreases |txs|
  {
    if txs != [] {
      NoneBy(txs[1..], a);
    }
  }

  /** Nobody else uses the builder's key in this turn. */
  ghost predicate Quiet(i: Input, a: Address) {
    && (forall p :: p in i.pool ==> p.tx.signer != a)
    && (i.poll.Received? ==>
          forall e :: e in i.poll.txs ==> e.decoded.Some? ==> e.decoded.value.signer != a)
  }

  lemma {:induction false} SelectFrom(exts: seq<External>, mask: seq<bool>, tx: Tx)
    requires |exts| == |mask| && tx in Select(exts, mask)
    ensures exists e :: e in exts && e.decoded == Some(tx)
    decreases |exts|
  {
    if exts != [] {
      if mask[0] && exts[0].decoded == Some(tx) {
        assert exts[0] in exts;
      } else {
        SelectFrom(exts[1..], mask[1..], tx);
        var e :| e in exts[1..] && e.decoded == Some(tx);
        assert e in exts;
      }
    }
  }

  lemma QuietPool(s: Settings, db0: Db, st: State, i: Input, a: Address)
    requires WellBehaved(s.env) && Consistent(s.env, db0, st.info, st.db) && Quiet(i, a)
    ensures
      var m := PoolPhase(s, st, i).1;
      Opening(s, st).info.txs <= m.info.txs && CountBy(m.info.txs, a) == CountBy(Opening(s, st).info.txs, a)
  {
    PoolKeeps(s, db0, st, i);
    TurnPicksAreAdmissible(s, st, i);
    var picks := TurnPicks(s, st, i);
    forall tx | tx in PickTxs(picks) ensures tx.signer != a {
      var k :| 0 <= k < |picks| && PickTxs(picks)[k] == tx;
      assert picks[k] in picks;
    }
    NoneBy(PickTxs(picks), a);
    CountByConcat(Opening(s, st).info.txs, PickTxs(picks), a);
  }

  lemma QuietSidecar(s: Settings, lim: Limits, info: Info, db: Db, i: Input, a: Address)
    requires Quiet(i, a) && SidecarPhase(s, lim, info, db, i.poll).Accepted?
    ensures
      var r := SidecarPhase(s, lim, info, db, i.poll).info;
      info.txs <= r.txs && CountBy(r.txs, a) == CountBy(info.txs, a)
  {
    if i.poll.Received? && i.poll.txs != [] {
      RequiredAreAllOrNothing(s.Pool(), lim, info, db, i.poll.txs);
      BestEffortAppendsLanded(s.Pool(), lim, info, db, i.poll.txs);
      var mask := BestEffort(s.Pool(), lim, info, db, i.poll.txs).0;
      forall tx | tx in Select(i.poll.txs, mask) ensures tx.signer != a {
        SelectFrom(i.poll.txs, mask, tx);
      }
      NoneBy(Select(i.poll.txs, mask), a);
      CountByConcat(info.txs, Select(i.poll.txs, mask), a);
    }
  }

  /** What a quiet turn adds between the two passes of the builder is not the builder's. */
  lemma QuietTurnAddsNothing(s: Settings, db0: Db, st: State, i: Input, a: Address)
    requires WellBehaved(s.env) && Consistent(s.env, db0, st.info, st.db) && Quiet(i, a)
    requires ExecutePhases(s, st, i).Draft?
    ensures
      var r := BeforeClosing(s, st, i);
      && r.Accepted? && Opening(s, st).info.txs <= r.info.txs
      && CountBy(r.info.txs, a) == CountBy(Opening(s, st).info.txs, a)
  {
    QuietPool(s, db0, st, i, a);
    var m := PoolPhase(s, st, i).1;
    QuietSidecar(s, LimitsOf(s, st), m.info, m.db, i, a);
  }

  /** Everything a turn executes, which is what it publishes if it is completed. */
  function NewTxs(s: Settings, st: State, i: Input): seq<Tx> {
    From(ExecutePhases(s, st, i).st.info.txs, |st.info.txs|)
  }

  /** A turn publishes nothing, or exactly one flashblock holding everything it executed. */
  lemma NewTxsArePublished(s: Settings, db0: Db, st: State, i: Input)
    requires WellBehaved(s.env) && LoopHead(s, db0, st)
    ensures
      var (verdict, st') := NextFlashblock(s, st, i);
      && (st'.stream == st.stream
          || (ExecutePhases(s, st, i).Draft? && |st'.stream| == |st.stream| + 1
              && st'.stream[..|st.stream|] == st.stream
              && st'.stream[|st.stream|].txs == NewTxs(s, st, i)))
      && (verdict == Continue ==> st'.extra.index == st.extra.index + 1 && st'.extra.count == st.extra.count)
  {
    PhasesKeep(s, db0, st, i);
  }

  lemma NewTxsComplete(s: Settings, db0: Db, st: State, i: Input)
    requires WellBehaved(s.env) && LoopHead(s, db0, st) && ExecutePhases(s, st, i).Draft?
    ensures st.info.txs <= ExecutePhases(s, st, i).st.info.txs
    ensures NewTxs(s, st, i) == ExecutePhases(s, st, i).st.info.txs[|st.info.txs|..]
  {
    PhasesKeep(s, db0, st, i);
  }

  /* Where in a flashblock the builder's transaction is */

  /** `count` transactions of `a`, then at most transactions of `keys`, whosever they are. */
  ghost predicate Tailed(txs: seq<Tx>, a: Address, count: nat, keys: set<Address>) {
    exists n :: 0 <= n <= |txs| && CountBy(txs[..n], a) == count && forall k :: n <= k < |txs| ==> txs[k].signer in keys
  }

  /** The one transaction of `a` comes first; at the end there may be transactions of `keys`. */
  ghost predicate Opens(txs: seq<Tx>, a: Address, keys: set<Address>) {
    txs != [] && txs[0].signer == a && Tailed(txs, a, 1, keys)
  }

  /** The one transaction of `a` comes last, but for transactions of `keys`. */
  ghost predicate Closes(txs: seq<Tx>, a: Address, keys: set<Address>) {
    exists n :: 0 <= n < |txs| && txs[n].signer == a && CountBy(txs[..n], a) == 0
                && forall k :: n < k < |txs| ==> txs[k].signer in keys
  }

  lemma NoTail(txs: seq<Tx>, n: nat, keys: set<Address>)
    requires n <= |txs| && forall k :: n <= k < |txs| ==> txs[k].signer in keys
    ensures n == |txs| || keys != {}
  {
    if n < |txs| {
      assert txs[n].signer in keys;
    }
  }

  /** Without any keys there is no tail: exactly one transaction of `a`, and it is the first or the last. */
  lemma ExactlyOne(txs: seq<Tx>, a: Address)
    ensures Opens(txs, a, {}) ==> CountBy(txs, a) == 1
    ensures Closes(txs, a, {}) ==> CountBy(txs, a) == 1 && txs[|txs| - 1].signer == a
  {
    if Opens(txs, a, {}) {
      var n :| 0 <= n <= |txs| && CountBy(txs[..n], a) == 1 && forall k :: n <= k < |txs| ==> txs[k].signer in {};
      NoTail(txs, n, {});
      assert txs[..n] == txs;
    }
    if Closes(txs, a, {}) {
      var n :| 0 <= n < |txs| && txs[n].signer == a && CountBy(txs[..n], a) == 0
        && forall k :: n < k < |txs| ==> txs[k].signer in {};
      NoTail(txs, n + 1, {});
      assert txs == txs[..n] + [txs[n]];
      CountByConcat(txs[..n], [txs[n]], a);
    }
  }

  /** A list that grows by `count` transactions of `a` and then by transactions of `keys`. */
  lemma GrowsTailed(before: seq<Tx>, mid: seq<Tx>, all: seq<Tx>, a: Address, count: nat, keys: set<Address>)
    requires before <= mid && CountBy(mid, a) == CountBy(before, a) + count && ExtendedBy(mid, all, keys)
    ensures Tailed(all[|before|..], a, count, keys)
  {
    var added, n := all[|before|..], |mid| - |before|;
    assert added[..n] == mid[|before|..] && mid == before + mid[|before|..];
    CountByConcat(before, mid[|before|..], a);
    assert forall k :: n <= k < |added| ==> added[k] == all[|before| + k];
  }

  /** A list that grows by no transaction of `a`, then by one, and then by transactions of `keys`. */
  lemma GrowsClosed(before: seq<Tx>, mid: seq<Tx>, tx: Tx, all: seq<Tx>, a: Address, keys: set<Address>)
    requires before <= mid && CountBy(mid, a) == CountBy(before, a) && ExtendedBy(mid + [tx], all, keys)
    requires tx.signer == a
    ensures Closes(all[|before|..], a, keys)
  {
    var added, n := all[|before|..], |mid| - |before|;
    assert all[|mid|] == (mid + [tx])[|mid|] && mid <= all;
    assert added[n] == tx && added[..n] == mid[|before|..] && mid == before + mid[|before|..];
    CountByConcat(before, mid[|before|..], a);
    assert forall k :: n < k < |added| ==> added[k] == all[|before| + k];
  }

  /* The plain builder */

  /** The base transaction lands if it is the next transaction. */
  predicate BaseLands(env: Env, db: Db, a: Address) {
    Lands(env, db.world, BaseCandidate(env, Some(a), db)[0].signed)
  }

  /** It lands at the end of this turn. */
  predicate BaseLandsAtEnd(s: Settings, st: State, i: Input, a: Address) {
    var r := BeforeClosing(s, st, i);
    r.Accepted? && BaseLands(s.env, r.db, a)
  }

  /** The plain builder signs with `a`, flashtestations with `keys`, which may include `a`. */
  ghost predicate PlainWith(s: Settings, a: Address, flash: Option<Flashtest>, keys: set<Address>) {
    UsesPlainBuilder(s, a, flash) && AttestedBy(flash, keys)
  }

  lemma PlainPasses(s: Settings, e: Extra, info: Info, db: Db, a: Address, flash: Option<Flashtest>,
                    keys: set<Address>)
    requires PlainWith(s, a, flash, keys) && 1 <= e.index <= e.count
    ensures AddCandidates(s.env, info, db, s.simulate(e.Pos(), db, info.txs, true), true).info == info
    ensures
      var base := BaseCandidate(s.env, Some(a), db)[0].signed;
      var lands := e.Pos().Last() && BaseLands(s.env, db, a);
      && base.signer == a
      && ExtendedBy(info.txs + if lands then [base] else [], Closing(s, e, info, db).info.txs, KeysAt(e.Pos(), keys))
  {
    PlainAdds(s.env, a, flash, keys, e.Pos(), info, db, true);
    PlainAdds(s.env, a, flash, keys, e.Pos(), info, db, false);
    assert info.txs + [] == info.txs;
  }

  /**
    Its flashblocks: only the last one holds a base transaction, exactly if it lands at the end of it, and it
    closes that flashblock but for flashtestations.
   */
  lemma PlainTurn(s: Settings, db0: Db, st: State, i: Input, a: Address, flash: Option<Flashtest>, keys: set<Address>)
    requires WellBehaved(s.env) && LoopHead(s, db0, st) && PlainWith(s, a, flash, keys) && Quiet(i, a)
    requires 1 <= st.extra.index <= st.extra.count && ExecutePhases(s, st, i).Draft?
    ensures
      if st.extra.Pos().Last() && BaseLandsAtEnd(s, st, i, a) then Closes(NewTxs(s, st, i), a, keys)
      else Tailed(NewTxs(s, st, i), a, 0, KeysAt(st.extra.Pos(), keys))
  {
    PlainPasses(s, st.extra, st.info, st.db, a, flash, keys);
    QuietTurnAddsNothing(s, db0, st, i, a);
    var r, all := BeforeClosing(s, st, i), ExecutePhases(s, st, i).st.info.txs;
    PlainPasses(s, st.extra, r.info, r.db, a, flash, keys);
    NewTxsComplete(s, db0, st, i);
    if st.extra.Pos().Last() && BaseLandsAtEnd(s, st, i, a) {
      GrowsClosed(st.info.txs, r.info.txs, BaseCandidate(s.env, Some(a), r.db)[0].signed, all, a, keys);
    } else {
      assert r.info.txs + [] == r.info.txs;
      GrowsTailed(st.info.txs, r.info.txs, all, a, 0, KeysAt(st.extra.Pos(), keys));
    }
  }

  /* The number-contract builder */

  /** Its opening transaction lands if it is the next transaction. */
  predicate TopLands(env: Env, db: Db, number: NumberContract) {
    Lands(env, db.world, TopCandidate(env, number, Copy(db))[0].signed)
  }

  /** The number-contract builder signs with its key, flashtestations with `keys`, which may include it. */
  ghost predicate NumberWith(s: Settings, number: NumberContract, flash: Option<Flashtest>, keys: set<Address>) {
    UsesNumberBuilder(s, number, flash) && AttestedBy(flash, keys)
  }

  lemma NumberOpening(s: Settings, st: State, number: NumberContract, flash: Option<Flashtest>, keys: set<Address>)
    requires NumberWith(s, number, flash, keys) && 1 <= st.extra.index <= st.extra.count
    ensures
      var top := [TopCandidate(s.env, number, Copy(st.db))[0].signed];
      var added := if TopLands(s.env, st.db, number) then top else [];
      && Opening(s, st).info.txs == st.info.txs + added
      && CountBy(Opening(s, st).info.txs, number.signer) == CountBy(st.info.txs, number.signer) + |added|
  {
    NumberAdds(s.env, number, flash, keys, st.extra.Pos(), st.info, st.db, true);
    CountByConcat(st.info.txs, [TopCandidate(s.env, number, Copy(st.db))[0].signed], number.signer);
    assert st.info.txs + [] == st.info.txs;
  }

  /** A turn adds what its opening adds, nothing else of the builder's, and flashtestations at the end. */
  lemma NumberTurnGrows(s: Settings, db0: Db, st: State, i: Input, number: NumberContract, flash: Option<Flashtest>,
                        keys: set<Address>)
    requires WellBehaved(s.env) && LoopHead(s, db0, st)
    requires NumberWith(s, number, flash, keys) && Quiet(i, number.signer)
    requires 1 <= st.extra.index <= st.extra.count && ExecutePhases(s, st, i).Draft?
    ensures
      var r, all := BeforeClosing(s, st, i), ExecutePhases(s, st, i).st.info.txs;
      && Opening(s, st).info.txs <= r.info.txs <= all
      && CountBy(r.info.txs, number.signer) == CountBy(Opening(s, st).info.txs, number.signer)
      && ExtendedBy(r.info.txs, all, KeysAt(st.extra.Pos(), keys))
  {
    QuietTurnAddsNothing(s, db0, st, i, number.signer);
    var r := BeforeClosing(s, st, i);
    NumberAdds(s.env, number, flash, keys, st.extra.Pos(), r.info, r.db, false);
  }

  /** Its flashblocks: each opens with one builder transaction, exactly if it lands, and holds no other. */
  lemma NumberTurn(s: Settings, db0: Db, st: State, i: Input, number: NumberContract, flash: Option<Flashtest>,
                   keys: set<Address>)
    requires WellBehaved(s.env) && LoopHead(s, db0, st)
    requires NumberWith(s, number, flash, keys) && Quiet(i, number.signer)
    requires 1 <= st.extra.index <= st.extra.count && ExecutePhases(s, st, i).Draft?
    ensures
      if TopLands(s.env, st.db, number) then Opens(NewTxs(s, st, i), number.signer, KeysAt(st.extra.Pos(), keys))
      else Tailed(NewTxs(s, st, i), number.signer, 0, KeysAt(st.extra.Pos(), keys))
  {
    NumberTurnGrows(s, db0, st, i, number, flash, keys);
    NumberOpening(s, st, number, flash, keys);
    NewTxsComplete(s, db0, st, i);
    var r, all := BeforeClosing(s, st, i), ExecutePhases(s, st, i).st.info.txs;
    var count := if TopLands(s.env, st.db, number) then 1 else 0;
    GrowsTailed(st.info.txs, r.info.txs, all, number.signer, count, KeysAt(st.extra.Pos(), keys));
    if count == 1 {
      assert all[|st.info.txs|] == Opening(s, st).info.txs[|st.info.txs|];
    }
  }

  /* The fallback block */

  /** One of the two builders signs with `a`. */
  ghost predicate SignsWith(s: Settings, a: Address) {
    || (exists flash: Option<Flashtest> :: UsesPlainBuilder(s, a, flash))
    || (exists number: NumberContract, flash: Option<Flashtest> ::
          number.signer == a && UsesNumberBuilder(s, number, flash))
  }

  /**
    Either builder adds its base transaction to the fallback block if it lands after the deposits, and nothing
    else.
   */
  lemma FallbackAdds(s: Settings, info: Info, db: Db, a: Address)
    requires s.configuredCount >= 1 && SignsWith(s, a)
    ensures
      var base := BaseCandidate(s.env, Some(a), db)[0];
      var added := AddCandidates(s.env, info, db, s.simulate(Position(0, s.configuredCount), db, info.txs, false),
          false);
      added.info == Placed(s.env, info, db, base).0
  {
    var pos := Position(0, s.configuredCount);
    if flash: Option<Flashtest> :| UsesPlainBuilder(s, a, flash) {
      PlainPlacement(s.env, a, pos, info, db, false);
      assert s.simulate(pos, db, info.txs, false) == SimulatePlain(s.env, Some(a), None, pos, Copy(db), info.txs);
    } else {
      var number: NumberContract, flash: Option<Flashtest> :|
        number.signer == a && UsesNumberBuilder(s, number, flash);
      NumberPlacement(s.env, number, pos, info, db, false);
      assert s.simulate(pos, db, info.txs, false) ==
          SimulateNumber(s.env, number, None, pos, Copy(db), info.txs, false);
    }
  }

  /**
    Either builder closes the fallback block with one transaction of its own, exactly if it lands after the
    deposits.
   */
  lemma FallbackHoldsOne(s: Settings, db0: Db, attributes: seq<Tx>, a: Address)
    requires !s.noTxPool && s.configuredCount >= 1 && SignsWith(s, a)
    requires RunSequencer(s.env, EMPTY_INFO, db0, attributes).Executed?
    requires forall tx :: tx in attributes ==> tx.signer != a
    ensures
      var txs := Deposited(s, db0, attributes).value.0.txs;
      if BaseLands(s.env, RunSequencer(s.env, EMPTY_INFO, db0, attributes).db, a) then Closes(txs, a, {})
      else CountBy(txs, a) == 0
  {
    var r := RunSequencer(s.env, EMPTY_INFO, db0, attributes);
    var info := WithScalar(s.env, r.info, r.db);
    SequencerAddsOnly(s.env, EMPTY_INFO, db0, attributes, a);
    FallbackAdds(s, info, r.db, a);
    var base := BaseCandidate(s.env, Some(a), r.db)[0].signed;
    CountByConcat(info.txs, [base], a);
    if BaseLands(s.env, r.db, a) {
      assert (info.txs + [base])[0..] == info.txs + [base];
      GrowsClosed([], info.txs, base, info.txs + [base], a, {});
    }
  }

  lemma {:induction false} SequencerAddsOnly(env: Env, info: Info, db: Db, txs: seq<Tx>, a: Address)
    requires RunSequencer(env, info, db, txs).Executed?
    requires forall tx :: tx in txs ==> tx.signer != a
    ensures CountBy(RunSequencer(env, info, db, txs).info.txs, a) == CountBy(info.txs, a)
    decreases |txs|
  {
    if txs != [] {
      match env.transact(db.world, txs[0])
      case Done(result, change) =>
        CountByConcat(info.txs, [txs[0]], a);
        SequencerAddsOnly(env, Sequenced(env, info, db, txs[0], result), Commit(db, change), txs[1..], a);
      case Invalid(_) => SequencerAddsOnly(env, info, db, txs[1..], a);
      case Fatal =>
    }
  }

  /* Whole jobs */

  /** Flashblock k of the stream is as `shape` says. */
  ghost predicate Shaped(stream: seq<Flashblock>, shape: (nat, seq<Tx>) -> bool) {
    forall k :: 0 <= k < |stream| ==> shape(k, stream[k].txs)
  }

  lemma AppendShaped(stream: seq<Flashblock>, fb: Flashblock, shape: (nat, seq<Tx>) -> bool)
    requires Shaped(stream, shape) && shape(|stream|, fb.txs)
    ensures Shaped(stream + [fb], shape)
  {
  }

  lemma TurnShaped(s: Settings, db0: Db, st: State, i: Input, shape: (nat, seq<Tx>) -> bool)
    requires WellBehaved(s.env) && LoopHead(s, db0, st) && Shaped(st.stream, shape)
    requires ExecutePhases(s, st, i).Draft? ==> shape(st.extra.index, NewTxs(s, st, i))
    ensures Shaped(NextFlashblock(s, st, i).1.stream, shape)
  {
    NewTxsArePublished(s, db0, st, i);
    var stream := NextFlashblock(s, st, i).1.stream;
    if stream != st.stream {
      assert stream == st.stream + [stream[|st.stream|]];
      AppendShaped(st.stream, stream[|st.stream|], shape);
    }
  }

  /** A turn at a loop head of a block of `count` flashblocks that gets as far as sealing. */
  ghost predicate QuietTurn(s: Settings, db0: Db, st: State, i: Input, a: Address, count: nat,
                            good: (State, Input) -> bool)
  {
    && LoopHead(s, db0, st) && Quiet(i, a) && good(st, i)
    && st.extra.count == count && st.extra.index <= count && ExecutePhases(s, st, i).Draft?
  }

  /** Turns of this kind add flashblocks of this shape. */
  ghost predicate TurnsShaped(s: Settings, db0: Db, a: Address, count: nat, good: (State, Input) -> bool,
                              shape: (nat, seq<Tx>) -> bool)
  {
    forall t: State, i: Input {:trigger QuietTurn(s, db0, t, i, a, count, good)} ::
      QuietTurn(s, db0, t, i, a, count, good) ==> shape(t.extra.index, NewTxs(s, t, i))
  }

  lemma {:induction false} RunShaped(s: Settings, db0: Db, st: State, inputs: seq<Input>, a: Address,
                                     good: (State, Input) -> bool, shape: (nat, seq<Tx>) -> bool)
    requires WellBehaved(s.env) && Tracks(db0) && db0.bundle == EMPTY_BUNDLE
    requires LoopHead(s, db0, st) && Shaped(st.stream, shape)
    requires (forall i :: i in inputs ==> Quiet(i, a)) && EveryTurn(s, st, inputs, good)
    requires TurnsShaped(s, db0, a, st.extra.count, good, shape)
    ensures Shaped(BuildLoop(s, st, inputs).1.stream, shape)
    decreases |inputs|
  {
    if inputs != [] && st.extra.index <= st.extra.count {
      var i := inputs[0];
      assert i in inputs;
      assert ExecutePhases(s, st, i).Draft? ==> QuietTurn(s, db0, st, i, a, st.extra.count, good);
      TurnShaped(s, db0, st, i, shape);
      NewTxsArePublished(s, db0, st, i);
      TurnKeepsLoopHead(s, db0, st, i);
      var (verdict, st') := NextFlashblock(s, st, i);
      if verdict == Continue {
        RunShaped(s, db0, st', inputs[1..], a, good, shape);
      }
    }
  }

  /** Nobody but the builder uses its key in the job, and its transaction lands after the deposits. */
  ghost predicate QuietJob(s: Settings, db0: Db, start: Start, inputs: seq<Input>, a: Address) {
    && (forall tx :: tx in start.attributes ==> tx.signer != a)
    && (forall i :: i in inputs ==> Quiet(i, a))
    && (var r := RunSequencer(s.env, EMPTY_INFO, db0, start.attributes); r.Executed? ==> BaseLands(s.env, r.db, a))
  }

  lemma FallbackShaped(s: Settings, db0: Db, limiter: Limiter, start: Start, inputs: seq<Input>, a: Address,
                       shape: (nat, seq<Tx>) -> bool)
    requires WellBehaved(s.env) && s.configuredCount >= 1 && QuietJob(s, db0, start, inputs, a) && SignsWith(s, a)
    requires forall txs: seq<Tx> :: Closes(txs, a, {}) ==> shape(0, txs)
    ensures Shaped(Fallback(s, db0, limiter, start).1.stream, shape)
  {
    if Deposited(s, db0, start.attributes).Some? && !s.noTxPool {
      FallbackHoldsOne(s, db0, start.attributes, a);
      DepositedKeeps(s, db0, start.attributes);
    }
  }

  /** A job whose fallback block and turns are as they should be is so throughout. */
  lemma JobShaped(s: Settings, db0: Db, limiter: Limiter, start: Start, inputs: seq<Input>, a: Address,
                  good: (State, Input) -> bool, shape: (nat, seq<Tx>) -> bool)
    requires WellBehaved(s.env) && Tracks(db0) && db0.bundle == EMPTY_BUNDLE && QuietJob(s, db0, start, inputs, a)
    requires Shaped(Fallback(s, db0, limiter, start).1.stream, shape)
    requires TurnsShaped(s, db0, a, start.count, good, shape)
    requires EveryJobTurn(s, db0, limiter, start, inputs, good)
    ensures Shaped(RunJob(s, db0, limiter, start, inputs).1.stream, shape)
  {
    var (verdict, st) := Fallback(s, db0, limiter, start);
    if verdict == Continue {
      FallbackReachesLoopHead(s, db0, limiter, start);
      RunShaped(s, db0, st, inputs, a, good, shape);
    }
  }

  /** The base transaction lands at the end of the last flashblock. */
  function LandsInLast(s: Settings, a: Address): (State, Input) -> bool {
    (t: State, i: Input) =>
      t.extra.Pos().Last() && BeforeClosing(s, t, i).Accepted? ==> BaseLandsAtEnd(s, t, i, a)
  }

  /** The base transaction closes flashblock 0 and the last one, but for flashtestations; no other holds one. */
  ghost predicate PlainShape(k: nat, txs: seq<Tx>, count: nat, a: Address, keys: set<Address>) {
    if k == 0 then Closes(txs, a, {})
    else if k == count then Closes(txs, a, keys)
    else Tailed(txs, a, 0, {})
  }

  lemma PlainTurnsShaped(s: Settings, db0: Db, count: nat, a: Address, flash: Option<Flashtest>, keys: set<Address>,
                         shape: (nat, seq<Tx>) -> bool)
    requires WellBehaved(s.env) && PlainWith(s, a, flash, keys)
    requires forall k: nat, txs: seq<Tx> :: shape(k, txs) == PlainShape(k, txs, count, a, keys)
    ensures TurnsShaped(s, db0, a, count, LandsInLast(s, a), shape)
  {
    forall t: State, i: Input | QuietTurn(s, db0, t, i, a, count, LandsInLast(s, a))
      ensures shape(t.extra.index, NewTxs(s, t, i))
    {
      PlainTurn(s, db0, t, i, a, flash, keys);
    }
  }

  /**
    A job with the plain builder, as long as its transaction lands after the deposits and at the end of
    the last flashblock: one builder transaction closes flashblock 0, one closes the last flashblock, followed
    there by flashtestations at most, and none is in between.
   */
  lemma PlainJob(s: Settings, db0: Db, limiter: Limiter, start: Start, inputs: seq<Input>, a: Address,
                 flash: Option<Flashtest>, keys: set<Address>)
    requires WellBehaved(s.env) && Tracks(db0) && db0.bundle == EMPTY_BUNDLE
    requires s.configuredCount >= 1 && PlainWith(s, a, flash, keys) && QuietJob(s, db0, start, inputs, a)
    requires EveryJobTurn(s, db0, limiter, start, inputs, LandsInLast(s, a))
    ensures
      var stream := RunJob(s, db0, limiter, start, inputs).1.stream;
      forall k :: 0 <= k < |stream| ==> PlainShape(k, stream[k].txs, start.count, a, keys)
  {
    var shape := (k: nat, txs: seq<Tx>) => PlainShape(k, txs, start.count, a, keys);
    FallbackShaped(s, db0, limiter, start, inputs, a, shape);
    PlainTurnsShaped(s, db0, start.count, a, flash, keys, shape);
    JobShaped(s, db0, limiter, start, inputs, a, LandsInLast(s, a), shape);
    var stream := RunJob(s, db0, limiter, start, inputs).1.stream;
    assert forall k :: 0 <= k < |stream| ==> shape(k, stream[k].txs);
  }

  /** The opening transaction lands at the beginning of every flashblock. */
  function LandsAtOpening(s: Settings, number: NumberContract): (State, Input) -> bool {
    (t: State, i: Input) => TopLands(s.env, t.db, number)
  }

  /** The builder's transaction closes flashblock 0 and opens every other one. */
  ghost predicate NumberShape(k: nat, txs: seq<Tx>, count: nat, a: Address, keys: set<Address>) {
    if k == 0 then Closes(txs, a, {}) else Opens(txs, a, if k == count then keys else {})
  }

  lemma NumberTurnsShaped(s: Settings, db0: Db, count: nat, number: NumberContract, flash: Option<Flashtest>,
                          keys: set<Address>, shape: (nat, seq<Tx>) -> bool)
    requires WellBehaved(s.env) && NumberWith(s, number, flash, keys)
    requires forall k: nat, txs: seq<Tx> :: shape(k, txs) == NumberShape(k, txs, count, number.signer, keys)
    ensures TurnsShaped(s, db0, number.signer, count, LandsAtOpening(s, number), shape)
  {
    forall t: State, i: Input | QuietTurn(s, db0, t, i, number.signer, count, LandsAtOpening(s, number))
      ensures shape(t.extra.index, NewTxs(s, t, i))
    {
      NumberTurn(s, db0, t, i, number, flash, keys);
    }
  }

  /**
    A job with the number-contract builder, as long as its transaction lands after the deposits and at the
    beginning of every flashblock: exactly one builder transaction in every flashblock, closing the first and opening
    every other, apart from flashtestations at the end of the last.
   */
  lemma NumberJob(s: Settings, db0: Db, limiter: Limiter, start: Start, inputs: seq<Input>, number: NumberContract,
                  flash: Option<Flashtest>, keys: set<Address>)
    requires WellBehaved(s.env) && Tracks(db0) && db0.bundle == EMPTY_BUNDLE
    requires s.configuredCount >= 1 && NumberWith(s, number, flash, keys)
    requires QuietJob(s, db0, start, inputs, number.signer)
    requires EveryJobTurn(s, db0, limiter, start, inputs, LandsAtOpening(s, number))
    ensures
      var stream := RunJob(s, db0, limiter, start, inputs).1.stream;
      forall k :: 0 <= k < |stream| ==> NumberShape(k, stream[k].txs, start.count, number.signer, keys)
  {
    var shape := (k: nat, txs: seq<Tx>) => NumberShape(k, txs, start.count, number.signer, keys);
    FallbackShaped(s, db0, limiter, start, inputs, number.signer, shape);
    NumberTurnsShaped(s, db0, start.count, number, flash, keys, shape);
    JobShaped(s, db0, limiter, start, inputs, number.signer, LandsAtOpening(s, number), shape);
    var stream := RunJob(s, db0, limiter, start, inputs).1.stream;
    assert forall k :: 0 <= k < |stream| ==> shape(k, stream[k].txs);
  }
}
