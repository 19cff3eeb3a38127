/** Sealing the block built so far: `build_block`, and the one-shot merge of the standard builder. */
module Sealing {
  import opened Prelude
  import opened Evm
  import opened Database
  import opened Execution
  import opened Replay
  import opened Overrides

  /** What sealing needs besides the totals and the database. */
  datatype BlockCtx = BlockCtx(env: Env, blockGasLimit: nat, parentNumber: nat, hasBeaconRoot: bool)

  /**
    The header fields that depend on what was executed. Transaction and receipt roots are stood for
    by the lists they commit to, so two headers are equal exactly when the block hashes are.
   */
  datatype Header = Header(number: nat, gasLimit: nat, gasUsed: nat, txs: seq<Tx>, receipts: seq<Receipt>,
                           stateRoot: nat, excessBlobGas: Option<nat>, blobGasUsed: Option<nat>)

  datatype Payload = Payload(header: Header, senders: seq<Address>, fees: nat, bundle: Bundle)

  /** One message of the flashblock stream: what is new since the previous one. */
  datatype Flashblock = Flashblock(index: nat, hasBase: bool, txs: seq<Tx>, receipts: seq<Receipt>,
                                   balances: map<Address, nat>, header: Header)

  /** Excess blob gas and blob gas used of the header. */
  function BlobFields(env: Env, info: Info): (Option<nat>, Option<nat>) {
    if info.blobFields.Some? then info.blobFields.value
    else if env.jovian then (Some(0), Some(WrapMul(info.da, info.scalar.GetOr(0))))
    else if env.ecotone then (Some(0), Some(0))
    else (None, None)
  }

  function HeaderOf(ctx: BlockCtx, info: Info, db: Db, bundle: Bundle, withRoot: bool): Header {
    var blob := BlobFields(ctx.env, info);
    Header(ctx.parentNumber + 1, ctx.blockGasLimit, info.gas, info.txs, info.receipts,
           if withRoot then ctx.env.rootOf(db.parent, bundle.state) else 0, blob.0, blob.1)
  }

  function BalancesOf(bundle: Bundle): map<Address, nat> {
    map a | a in bundle.state && bundle.state[a].info.Some? :: bundle.state[a].info.value.balance
  }

  predicate Sealable(ctx: BlockCtx) {
    ctx.env.number == ctx.parentNumber + 1 && ctx.hasBeaconRoot
  }

  function PayloadOf(ctx: BlockCtx, info: Info, db: Db, withRoot: bool): Payload {
    var bundle := MergeTransitions(db).bundle;
    Payload(HeaderOf(ctx, info, db, bundle, withRoot), info.senders, info.fees, bundle)
  }

  function DeltaOf(ctx: BlockCtx, info: Info, db: Db, withRoot: bool): Flashblock {
    var bundle := MergeTransitions(db).bundle;
    Flashblock(0, true, From(info.txs, info.lastIndex), From(info.receipts, info.lastIndex), BalancesOf(bundle),
               HeaderOf(ctx, info, db, bundle, withRoot))
  }

  /**
    Seals everything executed since the block started. The transitions are merged into the bundle for
    sealing, and put back afterwards together with an empty bundle.
   */
  method BuildBlock(ctx: BlockCtx, info: ExecutionInfo, db: StateDb, withRoot: bool)
    returns (built: Option<(Payload, Flashblock)>)
    requires info.lastFlashblockIndex <= |info.executedTransactions| == |info.receipts|
    modifies info, db
    ensures built.Some? <==> Sealable(ctx)
    ensures built.Some? ==>
              && built.value.0 == PayloadOf(ctx, old(info.Val()), old(db.Val()), withRoot)
              && built.value.1 == DeltaOf(ctx, old(info.Val()), old(db.Val()), withRoot)
              && info.Val() == old(info.Val()).(lastIndex := |old(info.executedTransactions)|)
              && db.Val() == old(db.Val()).(bundle := EMPTY_BUNDLE)
  {
    var untouched := db.transitions;
    db.Merge();
    if ctx.env.number != ctx.parentNumber + 1 {
      return None;
    }
    var stateRoot := if withRoot then ctx.env.rootOf(db.parent, db.bundle.state) else 0;
    var (excess, used) := BlobFields(ctx.env, info.Val());
    var header := Header(ctx.parentNumber + 1, ctx.blockGasLimit, info.cumulativeGasUsed, info.executedTransactions,
                         info.receipts, stateRoot, excess, used);
    var newTxs := info.executedTransactions[info.lastFlashblockIndex..];
    var newReceipts := info.receipts[info.lastFlashblockIndex..];
    info.lastFlashblockIndex := |info.executedTransactions|;
    if !ctx.hasBeaconRoot {
      return None;
    }
    var delta := Flashblock(0, true, newTxs, newReceipts, BalancesOf(db.bundle), header);
    var bundle := db.TakeBundle();
    db.transitions := untouched;
    return Some((Payload(header, info.executedSenders, info.totalFees, bundle), delta));
  }

  /* One merge, whatever the number of flashblocks */

  /** What a builder that merges once, at the very end, obtains from a list of transactions. */
  function OneShotBundle(env: Env, db0: Db, txs: seq<Tx>): Option<Bundle> {
    match ExecAll(env, db0, txs)
    case None => None
    case Some(r) => Some(MergeInto(EMPTY_BUNDLE, r.db.transitions))
  }

  /**
    Any payload sealed from a consistent state carries exactly the bundle of a one-shot build of the
    same transactions -- one merge, one revert entry -- however many flashblocks were sealed before it.
   */
  lemma SealedBundleIsOneShot(ctx: BlockCtx, db0: Db, info: Info, db: Db, withRoot: bool)
    requires WellBehaved(ctx.env) && Tracks(db0) && db0.bundle == EMPTY_BUNDLE
    requires Consistent(ctx.env, db0, info, db)
    ensures OneShotBundle(ctx.env, db0, info.txs) == Some(PayloadOf(ctx, info, db, withRoot).bundle)
    ensures |PayloadOf(ctx, info, db, withRoot).bundle.reverts| == 1
    ensures db.(bundle := EMPTY_BUNDLE) == db
  {
    ReplayTracks(ctx.env, db0, info.txs);
  }

  /** Without putting the transitions back, the next flashblock would lose everything sealed before it. */
  lemma ForgettingTransitionsLosesState()
    ensures
      var parent: World := map[];
      var first := Commit(FreshDb(parent), map[1 := Updated(AccountInfo(5, 0, 0), map[])]);
      var forgetful := MergeTransitions(first).(bundle := EMPTY_BUNDLE);
      var second := Commit(forgetful, map[2 := Updated(AccountInfo(6, 0, 0), map[])]);
      1 in second.world && 1 !in MergeTransitions(second).bundle.state
  {
  }

  lemma MergedBalancesAreCurrent(db: Db)
    requires Tracks(db) && db.bundle == EMPTY_BUNDLE
    ensures
      var balances := BalancesOf(MergeTransitions(db).bundle);
      && (forall a :: a in balances ==> a in db.world && balances[a] == db.world[a].info.balance)
      && (forall a :: a in db.world && a !in balances ==> InfoAt(db.parent, a) == InfoAt(db.world, a))
  {
    var bundle := MergeTransitions(db).bundle;
    forall a ensures a in bundle.state ==> bundle.state[a].info == InfoAt(db.world, a)
      ensures a in db.world && a !in bundle.state ==> InfoAt(db.parent, a) == InfoAt(db.world, a)
    {
      assert TracksAt(db, a);
    }
  }

  /** The balances published with a flashblock are the current balances of every account changed in the block. */
  lemma PublishedBalancesAreCurrent(ctx: BlockCtx, db0: Db, info: Info, db: Db, withRoot: bool)
    requires WellBehaved(ctx.env) && Tracks(db0) && db0.bundle == EMPTY_BUNDLE
    requires Consistent(ctx.env, db0, info, db)
    ensures
      var balances := DeltaOf(ctx, info, db, withRoot).balances;
      && (forall a :: a in balances ==> a in db.world && balances[a] == db.world[a].info.balance)
      && (forall a :: a in db.world && a !in balances ==> InfoAt(db0.parent, a) == InfoAt(db.world, a))
  {
    ReplayTracks(ctx.env, db0, info.txs);
    MergedBalancesAreCurrent(db);
  }

  /** Jovian blocks report the DA footprint as blob gas; it is exact while the product fits in 64 bits. */
  lemma BlobGasIsFootprint(env: Env, info: Info)
    requires env.jovian && info.blobFields.None? && info.scalar.Some?
    requires info.da * info.scalar.value <= U64_MAX
    ensures BlobFields(env, info) == (Some(0), Some(info.da * info.scalar.value))
  {
  }
}
