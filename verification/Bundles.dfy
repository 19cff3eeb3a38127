/** Bundles submitted over RPC: validating them and what they are promised once they are in the pool. */
module Bundles {
  import opened Prelude
  import opened Evm
  import opened Execution
  import opened GasLimiter
  import opened BestTxs
  import opened PoolExecutor
  import opened Flashblocks
  import opened BuildRuns

  const MAX_BLOCK_RANGE_BLOCKS: nat := 10

  /** `txs` holds the result of decoding and recovering each raw transaction. */
  datatype Bundle = Bundle(txs: seq<Option<Recovered>>, reverting: Option<set<Hash>>,
                           blockMin: Option<nat>, blockMax: Option<nat>, flashMin: Option<nat>, flashMax: Option<nat>,
                           timeMin: Option<nat>, timeMax: Option<nat>)

  datatype Error =
    | MinGreaterThanMax(min: nat, max: nat)
    | MaxBlockInPast(max: nat, current: nat)
    | MaxBlockTooHigh(max: nat, current: nat, maxAllowed: nat)
    | MinTooHighForDefaultRange(min: nat, maxAllowed: nat)
    | FlashblockMinGreaterThanMax(min: nat, max: nat)
    | WrongTransactionCount
    | Undecodable

  datatype Checked<T> = Valid(value: T) | Rejected(error: Error)

  function CheckFlashRange(b: Bundle, blockMax: nat): Checked<Conditional> {
    if b.flashMin.Some? && b.flashMax.Some? && b.flashMin.value > b.flashMax.value then
      Rejected(FlashblockMinGreaterThanMax(b.flashMin.value, b.flashMax.value))
    else
      Valid(Conditional(b.blockMin, Some(blockMax), b.timeMin, b.timeMax))
  }

  /** `Bundle::conditional`: validates the ranges against the current head and fills in the default maximum. */
  function ConditionalOf(b: Bundle, head: nat): Checked<Conditional> {
    var allowed := WrapAdd(head, MAX_BLOCK_RANGE_BLOCKS);
    if b.blockMax.Some? then
      var max := b.blockMax.value;
      if b.blockMin.Some? && b.blockMin.value > max then Rejected(MinGreaterThanMax(b.blockMin.value, max))
      else if max <= head then Rejected(MaxBlockInPast(max, head))
      else if max > allowed then Rejected(MaxBlockTooHigh(max, head, allowed))
      else CheckFlashRange(b, max)
    else if b.blockMin.Some? && b.blockMin.value > allowed then
      Rejected(MinTooHighForDefaultRange(b.blockMin.value, allowed))
    else
      CheckFlashRange(b, allowed)
  }

  /** `send_bundle`: the pool transaction a bundle turns into. */
  function Submit(b: Bundle, head: nat): Checked<PoolTx> {
    if |b.txs| != 1 then Rejected(WrongTransactionCount)
    else
      match ConditionalOf(b, head)
      case Rejected(e) => Rejected(e)
      case Valid(c) =>
        if b.txs[0].None? then Rejected(Undecodable)
        else Valid(PoolTx(b.txs[0].value, Some(b.reverting.GetOr({})), b.flashMin, b.flashMax, Some(c), false))
  }

  /** The last block a bundle may be included in. */
  function LastBlock(b: Bundle, head: nat): nat {
    b.blockMax.GetOr(head + MAX_BLOCK_RANGE_BLOCKS)
  }

  /** What a bundle must look like to be taken at a given head. */
  predicate Acceptable(b: Bundle, head: nat) {
    && |b.txs| == 1 && b.txs[0].Some?
    && head < LastBlock(b, head) <= head + MAX_BLOCK_RANGE_BLOCKS
    && (b.blockMin.Some? ==> b.blockMin.value <= LastBlock(b, head))
    && (b.flashMin.Some? && b.flashMax.Some? ==> b.flashMin.value <= b.flashMax.value)
  }

  /** Away from the end of the 64-bit range, submission accepts exactly the acceptable bundles. */
  lemma SubmitAcceptsExactly(b: Bundle, head: nat)
    requires head + MAX_BLOCK_RANGE_BLOCKS <= U64_MAX
    ensures Submit(b, head).Valid? <==> Acceptable(b, head)
  {
  }

  /** What a submission is refused for: the first check it fails. */
  predicate Explains(b: Bundle, head: nat, e: Error) {
    var min, max, last := b.blockMin, b.blockMax, head + MAX_BLOCK_RANGE_BLOCKS;
    match e
    case WrongTransactionCount => |b.txs| != 1
    case MinGreaterThanMax(lo, hi) => |b.txs| == 1 && min == Some(lo) && max == Some(hi) && hi < lo
    case MaxBlockInPast(hi, now) =>
      |b.txs| == 1 && max == Some(hi) && hi <= head == now && (min.Some? ==> min.value <= hi)
    case MaxBlockTooHigh(hi, now, allowed) =>
      |b.txs| == 1 && max == Some(hi) && head == now && allowed == last < hi && (min.Some? ==> min.value <= hi)
    case MinTooHighForDefaultRange(lo, allowed) =>
      |b.txs| == 1 && max.None? && min == Some(lo) && allowed == last < lo
    case FlashblockMinGreaterThanMax(lo, hi) =>
      && |b.txs| == 1 && b.flashMin == Some(lo) && b.flashMax == Some(hi) && hi < lo
      && head < LastBlock(b, head) <= last && (min.Some? ==> min.value <= LastBlock(b, head))
    case Undecodable =>
      && |b.txs| == 1 && b.txs[0].None?
      && head < LastBlock(b, head) <= last && (min.Some? ==> min.value <= LastBlock(b, head))
      && (b.flashMin.Some? && b.flashMax.Some? ==> b.flashMin.value <= b.flashMax.value)
  }

  lemma RefusalsAreExplained(b: Bundle, head: nat)
    requires head + MAX_BLOCK_RANGE_BLOCKS <= U64_MAX && Submit(b, head).Rejected?
    ensures Explains(b, head, Submit(b, head).error)
  {
  }

  /**
    The pool transaction of an accepted bundle asks for exactly what the bundle declares: its transaction, the blocks
    from its minimum to its last block, its time and flashblock ranges; and it may revert exactly if its hash is
    listed.
   */
  lemma SubmissionIsExact(b: Bundle, head: nat, number: nat, time: nat)
    requires head + MAX_BLOCK_RANGE_BLOCKS <= U64_MAX && Submit(b, head).Valid?
    ensures
      var p := Submit(b, head).value;
      && Some(p.tx) == b.txs[0] && p.flashMin == b.flashMin && p.flashMax == b.flashMax && !p.interopExpired
      && p.conditional.Some? && p.reverting.Some?
      && (Matches(p.conditional.value, number, time) <==>
            && (b.blockMin.Some? ==> b.blockMin.value <= number) && number <= LastBlock(b, head)
            && (b.timeMin.Some? ==> b.timeMin.value <= time) && (b.timeMax.Some? ==> time <= b.timeMax.value))
      && (p.tx.hash in p.reverting.value <==> b.reverting.Some? && p.tx.hash in b.reverting.value)
  {
  }

  /** Some block in (head, head + 10] satisfies the block conditions. */
  ghost predicate Includable(p: PoolTx, head: nat) {
    p.conditional.Some? &&
    exists n :: head < n <= head + MAX_BLOCK_RANGE_BLOCKS
        && Within(p.conditional.value.blockMin, p.conditional.value.blockMax, n)
  }

  /**
    Every bundle accepted at a head has a block in the next ten it can go into, if and only if the
    window does not run over the end of the 64-bit range.
   */
  lemma AcceptedBundlesAreIncludable(head: nat)
    requires head <= U64_MAX
    ensures (forall b: Bundle :: Submit(b, head).Valid? ==> Includable(Submit(b, head).value, head))
       <==> head + MAX_BLOCK_RANGE_BLOCKS <= U64_MAX
  {
    if head + MAX_BLOCK_RANGE_BLOCKS <= U64_MAX {
      forall b: Bundle | Submit(b, head).Valid? ensures Includable(Submit(b, head).value, head) {
        SubmitAcceptsExactly(b, head);
        var c := Submit(b, head).value.conditional.value;
        assert Within(c.blockMin, c.blockMax, LastBlock(b, head));
      }
    } else {
      var b := Bundle([Some(Tx(0, Standard, 0, true, 0, 0, 0, 0, 0))], None, None, None, None, None, None, None);
      WrapsOnce(head, MAX_BLOCK_RANGE_BLOCKS);
      assert Submit(b, head).Valid?;
      assert !Includable(Submit(b, head).value, head);
    }
  }

  /**
    End to end: whenever the flashblocks builder includes an accepted bundle from the pool, the block
    number, the timestamp and the flashblock index are all inside the declared ranges, the block comes no
    later than ten after the head at submission, and a failed receipt means the hash was listed as allowed to revert.
   */
  lemma IncludedBundlesAreHonoured(s: Settings, st: State, i: Input, k: Pick, b: Bundle, head: nat)
    requires Submit(b, head) == Valid(k.p) && head + MAX_BLOCK_RANGE_BLOCKS <= U64_MAX
    requires k in TurnPicks(s, st, i)
    ensures Within(b.blockMin, b.blockMax, s.env.number) && s.env.number <= head + MAX_BLOCK_RANGE_BLOCKS
    ensures Within(b.timeMin, b.timeMax, s.env.timestamp)
    ensures Within(b.flashMin, b.flashMax, st.extra.index)
    ensures !k.result.success ==> b.reverting.Some? && k.p.tx.hash in b.reverting.value
  {
    TurnPicksAreAdmissible(s, st, i);
    SubmitAcceptsExactly(b, head);
  }

  /**
    Conversely, a bundle whose turn comes in its ranges lands, reverted or not, if its hash is listed: the step that
    executes it includes it, limits and rate limiter permitting.
   */
  lemma ListedRevertLands(c: Ctx, lim: Limits, m: Machine, b: Bundle, head: nat)
    requires m.best.Next().0.Some? && Submit(b, head) == Valid(m.best.Next().0.value)
    requires head + MAX_BLOCK_RANGE_BLOCKS <= U64_MAX
    requires
      var p := m.best.Next().0.value;
      var o := c.env.transact(m.db.world, p.tx);
      && Within(b.blockMin, Some(LastBlock(b, head)), c.env.number) && Within(b.timeMin, b.timeMax, c.env.timestamp)
      && p.tx.kind == Standard && OverLimits(m.info, lim, p.tx.daSize, p.tx.gasLimit).None?
      && o.Done? && (o.result.success || (b.reverting.Some? && p.tx.hash in b.reverting.value))
      && (m.limiter.Enabled? ==> o.result.gasUsed <= Available(m.limiter, p.tx.signer))
      && (c.maxGasPerTxn.Some? ==> o.result.gasUsed <= c.maxGasPerTxn.value)
    ensures Appends(c, m, m.best.Next().0.value, PoolStep(c, lim, m, false))
  {
    SubmissionIsExact(b, head, c.env.number, c.env.timestamp);
    StepIsExact(c, lim, m, false);
  }
}
