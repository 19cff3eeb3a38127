/** Transactions from the compose sidecar: polling for them and executing them. */
module Sidecar {
  import opened Prelude
  import opened Evm
  import opened Database
  import opened Execution
  import opened Replay
  import opened PoolExecutor

  /** `decoded` is the result of decoding the raw bytes. */
  datatype External = External(decoded: Option<Tx>, required: bool)

  datatype Error =
    | DecodeError
    | SignatureRecoveryFailed
    | InvalidTransactionType
    | LimitsExceeded
    | ExecutionFailed
    | TransactionReverted

  datatype Attempt = Landed(result: ExecResult, change: Change) | Missed(error: Error)

  /** What happens to one external transaction on its own. */
  function Try(c: Ctx, lim: Limits, info: Info, w: World, ext: External): Attempt {
    if ext.decoded.None? then Missed(DecodeError)
    else
      var tx := ext.decoded.value;
      if !tx.recoverable then Missed(SignatureRecoveryFailed)
      else if tx.kind != Standard then Missed(InvalidTransactionType)
      else if OverLimits(info, lim, tx.daSize, tx.gasLimit).Some? then Missed(LimitsExceeded)
      else
        match c.env.transact(w, tx)
        case Done(result, change) => if result.success then Landed(result, change) else Missed(TransactionReverted)
        case _ => Missed(ExecutionFailed)
  }

  function Land(c: Ctx, info: Info, tx: Tx, result: ExecResult): Info {
    Recorded(info, c.env, tx, result, None, tx.daSize, 0)
  }

  datatype Result = Accepted(info: Info, db: Db) | Refused(error: Error)

  /** The first required transaction that misses fails the whole batch; optional ones are skipped. */
  function RunSidecar(c: Ctx, lim: Limits, info: Info, db: Db, exts: seq<External>): Result
    decreases |exts|
  {
    if exts == [] then Accepted(info, db)
    else
      match Try(c, lim, info, db.world, exts[0])
      case Landed(result, change) =>
        RunSidecar(c, lim, Land(c, info, exts[0].decoded.value, result), Commit(db, change), exts[1..])
      case Missed(error) =>
        if exts[0].required then Refused(error) else RunSidecar(c, lim, info, db, exts[1..])
  }

  /** `Refused` leaves the totals and the database as they were when the failing transaction was reached. */
  method ExecuteSidecarTransactions(c: Ctx, lim: Limits, info: ExecutionInfo, db: StateDb, exts: seq<External>)
    returns (error: Option<Error>)
    modifies info, db
    ensures
      var r := RunSidecar(c, lim, old(info.Val()), old(db.Val()), exts);
      && (error.None? ==> r == Accepted(info.Val(), db.Val()))
      && (error.Some? ==> r == Refused(error.value))
  {
    for i := 0 to |exts|
      invariant RunSidecar(c, lim, info.Val(), db.Val(), exts[i..]) ==
                RunSidecar(c, lim, old(info.Val()), old(db.Val()), exts)
    {
      var ext := exts[i];
      assert exts[i..][0] == ext && exts[i..][1..] == exts[i + 1..];
      if ext.decoded.None? {
        if ext.required { return Some(DecodeError); }
        continue;
      }
      var tx := ext.decoded.value;
      if !tx.recoverable {
        if ext.required { return Some(SignatureRecoveryFailed); }
        continue;
      }
      if tx.kind != Standard {
        if ext.required { return Some(InvalidTransactionType); }
        continue;
      }
      if OverLimits(info.Val(), lim, tx.daSize, tx.gasLimit).Some? {
        if ext.required { return Some(LimitsExceeded); }
        continue;
      }
      var outcome := c.env.transact(db.world, tx);
      if !outcome.Done? {
        if ext.required { return Some(ExecutionFailed); }
        continue;
      }
      if !outcome.result.success {
        if ext.required { return Some(TransactionReverted); }
        continue;
      }
      info.Record(c.env, tx, outcome.result, None, tx.daSize, 0);
      db.CommitChange(outcome.change);
    }
    assert exts[|exts|..] == [];
    return None;
  }

  /* All or nothing */

  /** Best effort: the same pass with every transaction treated as optional, and which ones landed. */
  function BestEffort(c: Ctx, lim: Limits, info: Info, db: Db, exts: seq<External>): (r: (seq<bool>, Info, Db))
    ensures |r.0| == |exts|
    decreases |exts|
  {
    if exts == [] then ([], info, db)
    else
      match Try(c, lim, info, db.world, exts[0])
      case Landed(result, change) =>
        var (mask, info', db') := BestEffort(c, lim, Land(c, info, exts[0].decoded.value, result), Commit(db, change),
            exts[1..]);
        ([true] + mask, info', db')
      case Missed(_) =>
        var (mask, info', db') := BestEffort(c, lim, info, db, exts[1..]);
        ([false] + mask, info', db')
  }

  /** The transactions of a batch selected by a mask, in order. */
  function Select(exts: seq<External>, mask: seq<bool>): seq<Tx>
    requires |exts| == |mask|
    decreases |exts|
  {
    if exts == [] then []
    else (if mask[0] && exts[0].decoded.Some? then [exts[0].decoded.value] else []) + Select(exts[1..], mask[1..])
  }

  lemma SelectCons(exts: seq<External>, first: bool, rest: seq<bool>)
    requires |exts| == |rest| + 1
    ensures Select(exts, [first] + rest) ==
            (if first && exts[0].decoded.Some? then [exts[0].decoded.value] else []) + Select(exts[1..], rest)
  {
    assert ([first] + rest)[1..] == rest;
  }

  lemma {:induction false} BestEffortKeepsRest(c: Ctx, lim: Limits, info: Info, db: Db, exts: seq<External>)
    ensures
      var info' := BestEffort(c, lim, info, db, exts).1;
      && info'.fees == info.fees && info'.lastIndex == info.lastIndex
      && info'.scalar == info.scalar && info'.blobFields == info.blobFields
    decreases |exts|
  {
    if exts != [] {
      match Try(c, lim, info, db.world, exts[0])
      case Landed(result, change) =>
        BestEffortKeepsRest(c, lim, Land(c, info, exts[0].decoded.value, result), Commit(db, change), exts[1..]);
      case Missed(_) => BestEffortKeepsRest(c, lim, info, db, exts[1..]);
    }
  }

  /** The first transaction of a best-effort pass. */
  lemma BestEffortFirst(c: Ctx, lim: Limits, info: Info, db: Db, exts: seq<External>)
    returns (landed: bool, info1: Info, db1: Db)
    requires exts != []
    ensures
      var (mask, info', db') := BestEffort(c, lim, info1, db1, exts[1..]);
      BestEffort(c, lim, info, db, exts) == ([landed] + mask, info', db')
    ensures landed ==> exts[0].decoded.Some? && info1.txs == info.txs + [exts[0].decoded.value]
    ensures !landed ==> info1 == info
  {
    match Try(c, lim, info, db.world, exts[0])
    case Landed(result, change) =>
      landed, info1, db1 := true, Land(c, info, exts[0].decoded.value, result), Commit(db, change);
    case Missed(_) => landed, info1, db1 := false, info, db;
  }

  lemma SelectFirst(info: Info, info1: Info, exts: seq<External>, landed: bool, rest: seq<bool>)
    requires |exts| == |rest| + 1
    requires landed ==> exts[0].decoded.Some? && info1.txs == info.txs + [exts[0].decoded.value]
    requires !landed ==> info1 == info
    ensures info1.txs + Select(exts[1..], rest) == info.txs + Select(exts, [landed] + rest)
  {
    SelectCons(exts, landed, rest);
    var later := Select(exts[1..], rest);
    if landed {
      var tx := exts[0].decoded.value;
      assert info.txs + [tx] + later == info.txs + ([tx] + later);
    } else {
      assert [] + later == later;
    }
  }

  lemma {:induction false} BestEffortAppends(c: Ctx, lim: Limits, info: Info, db: Db, exts: seq<External>)
    ensures
      var (mask, info', _) := BestEffort(c, lim, info, db, exts);
      info'.txs == info.txs + Select(exts, mask)
    decreases |exts|
  {
    if exts != [] {
      var landed, info1, db1 := BestEffortFirst(c, lim, info, db, exts);
      BestEffortAppends(c, lim, info1, db1, exts[1..]);
      SelectFirst(info, info1, exts, landed, BestEffort(c, lim, info1, db1, exts[1..]).0);
    }
  }

  /** Best effort appends, in order, exactly the transactions that landed, and earns no fees. */
  lemma BestEffortAppendsLanded(c: Ctx, lim: Limits, info: Info, db: Db, exts: seq<External>)
    ensures
      var (mask, info', _) := BestEffort(c, lim, info, db, exts);
      && info'.txs == info.txs + Select(exts, mask)
      && info'.fees == info.fees && info'.lastIndex == info.lastIndex
      && info'.scalar == info.scalar && info'.blobFields == info.blobFields
  {
    BestEffortAppends(c, lim, info, db, exts);
    BestEffortKeepsRest(c, lim, info, db, exts);
  }

  /* Which transactions land, and why others do not */

  /** Decodable, recoverable, of the ordinary kind, within the limits, and executed successfully in this state. */
  predicate LandsHere(c: Ctx, lim: Limits, info: Info, w: World, ext: External) {
    && ext.decoded.Some? && ext.decoded.value.recoverable && ext.decoded.value.kind == Standard
    && OverLimits(info, lim, ext.decoded.value.daSize, ext.decoded.value.gasLimit).None?
    && c.env.transact(w, ext.decoded.value).Done? && c.env.transact(w, ext.decoded.value).result.success
  }

  /** The error names the first thing that is wrong. */
  predicate Explains(c: Ctx, lim: Limits, info: Info, w: World, ext: External, error: Error) {
    match error
    case DecodeError => ext.decoded.None?
    case SignatureRecoveryFailed => ext.decoded.Some? && !ext.decoded.value.recoverable
    case InvalidTransactionType =>
      ext.decoded.Some? && ext.decoded.value.recoverable && ext.decoded.value.kind != Standard
    case LimitsExceeded =>
      && ext.decoded.Some? && ext.decoded.value.recoverable && ext.decoded.value.kind == Standard
      && OverLimits(info, lim, ext.decoded.value.daSize, ext.decoded.value.gasLimit).Some?
    case ExecutionFailed =>
      && ext.decoded.Some? && ext.decoded.value.recoverable && ext.decoded.value.kind == Standard
      && OverLimits(info, lim, ext.decoded.value.daSize, ext.decoded.value.gasLimit).None?
      && !c.env.transact(w, ext.decoded.value).Done?
    case TransactionReverted =>
      && ext.decoded.Some? && ext.decoded.value.recoverable && ext.decoded.value.kind == Standard
      && OverLimits(info, lim, ext.decoded.value.daSize, ext.decoded.value.gasLimit).None?
      && c.env.transact(w, ext.decoded.value).Done? && !c.env.transact(w, ext.decoded.value).result.success
  }

  lemma TryIsExact(c: Ctx, lim: Limits, info: Info, w: World, ext: External)
    ensures
      var t := Try(c, lim, info, w, ext);
      && (t.Landed? <==> LandsHere(c, lim, info, w, ext))
      && (t.Landed? ==> c.env.transact(w, ext.decoded.value) == Done(t.result, t.change))
      && (t.Missed? ==> Explains(c, lim, info, w, ext, t.error))
  {
  }

  /** Each transaction of a best-effort pass lands exactly if it does so after the ones before it. */
  lemma {:induction false} LandingIsExact(c: Ctx, lim: Limits, info: Info, db: Db, exts: seq<External>, i: nat)
    requires i < |exts|
    ensures
      var (_, info', db') := BestEffort(c, lim, info, db, exts[..i]);
      BestEffort(c, lim, info, db, exts).0[i] <==> LandsHere(c, lim, info', db'.world, exts[i])
    decreases i
  {
    TryIsExact(c, lim, info, db.world, exts[0]);
    if i == 0 {
      assert exts[..0] == [];
    } else {
      TailOfPrefix(exts, i);
      match Try(c, lim, info, db.world, exts[0])
      case Landed(result, change) =>
        LandingIsExact(c, lim, Land(c, info, exts[0].decoded.value, result), Commit(db, change), exts[1..], i - 1);
      case Missed(_) => LandingIsExact(c, lim, info, db, exts[1..], i - 1);
    }
  }

  /** A refusal at transaction i: a required one that does not land, after required ones that do. */
  ghost predicate RefusedAt(c: Ctx, lim: Limits, info: Info, db: Db, exts: seq<External>, i: nat, error: Error) {
    && i < |exts| && exts[i].required
    && (forall k :: 0 <= k < i && exts[k].required ==> BestEffort(c, lim, info, db, exts).0[k])
    && (var (_, info', db') := BestEffort(c, lim, info, db, exts[..i]);
        Explains(c, lim, info', db'.world, exts[i], error))
  }

  /** A refusal in the rest of a batch is one in the batch. */
  lemma RefusedLater(c: Ctx, lim: Limits, info: Info, db: Db, info1: Info, db1: Db, exts: seq<External>, landed: bool,
                     i: nat, error: Error)
    requires exts != [] && (exts[0].required ==> landed) && RefusedAt(c, lim, info1, db1, exts[1..], i, error)
    requires
      var (mask, info', db') := BestEffort(c, lim, info1, db1, exts[1..]);
      BestEffort(c, lim, info, db, exts) == ([landed] + mask, info', db')
    requires
      var (mask, info', db') := BestEffort(c, lim, info1, db1, exts[1..][..i]);
      BestEffort(c, lim, info, db, exts[..i + 1]) == ([landed] + mask, info', db')
    ensures RefusedAt(c, lim, info, db, exts, i + 1, error)
  {
    var mask := BestEffort(c, lim, info, db, exts).0;
    forall k | 0 <= k < i + 1 && exts[k].required ensures mask[k] {
      if k > 0 {
        assert exts[1..][k - 1] == exts[k] && BestEffort(c, lim, info1, db1, exts[1..]).0[k - 1];
      }
    }
  }

  /** A refused batch names the first required transaction that does not land, and what is wrong with it. */
  lemma {:induction false} RefusalIsExplained(c: Ctx, lim: Limits, info: Info, db: Db, exts: seq<External>)
    returns (i: nat)
    requires RunSidecar(c, lim, info, db, exts).Refused?
    ensures RefusedAt(c, lim, info, db, exts, i, RunSidecar(c, lim, info, db, exts).error)
    decreases |exts|
  {
    TryIsExact(c, lim, info, db.world, exts[0]);
    var t := Try(c, lim, info, db.world, exts[0]);
    if t.Missed? && exts[0].required {
      i := 0;
      assert exts[..0] == [];
    } else {
      var info1, db1 := info, db;
      if t.Landed? {
        info1, db1 := Land(c, info, exts[0].decoded.value, t.result), Commit(db, t.change);
      }
      var n := RefusalIsExplained(c, lim, info1, db1, exts[1..]);
      TailOfPrefix(exts, n + 1);
      RefusedLater(c, lim, info, db, info1, db1, exts, t.Landed?, n, RunSidecar(c, lim, info, db, exts).error);
      i := n + 1;
    }
  }

  /** Nothing that lands is larger than a transaction may be. */
  lemma {:induction false} LandedAreSmall(c: Ctx, lim: Limits, info: Info, db: Db, exts: seq<External>)
    ensures
      var info' := BestEffort(c, lim, info, db, exts).1;
      && info.txs <= info'.txs
      && (lim.txDa.Some? ==> forall k :: |info.txs| <= k < |info'.txs| ==> info'.txs[k].daSize <= lim.txDa.value)
    decreases |exts|
  {
    if exts != [] {
      match Try(c, lim, info, db.world, exts[0])
      case Landed(result, change) =>
        var info1 := Land(c, info, exts[0].decoded.value, result);
        LandedAreSmall(c, lim, info1, Commit(db, change), exts[1..]);
        assert info.txs <= info1.txs && info1.txs[|info.txs|] == exts[0].decoded.value;
      case Missed(_) => LandedAreSmall(c, lim, info, db, exts[1..]);
    }
  }

  /** No sidecar transaction lands reverted. */
  lemma {:induction false} LandedSucceed(c: Ctx, lim: Limits, info: Info, db: Db, exts: seq<External>)
    ensures
      var info' := BestEffort(c, lim, info, db, exts).1;
      && info.receipts <= info'.receipts
      && forall i :: |info.receipts| <= i < |info'.receipts| ==> info'.receipts[i].success
    decreases |exts|
  {
    if exts != [] {
      match Try(c, lim, info, db.world, exts[0])
      case Landed(result, change) =>
        var info1 := Land(c, info, exts[0].decoded.value, result);
        LandedSucceed(c, lim, info1, Commit(db, change), exts[1..]);
        assert info.receipts <= info1.receipts && info1.receipts[|info.receipts|].success;
      case Missed(_) => LandedSucceed(c, lim, info, db, exts[1..]);
    }
  }

  /**
    A batch is accepted if and only if every required transaction lands in a best-effort pass, and
    then it has exactly the effect of that pass.
   */
  lemma {:induction false} RequiredAreAllOrNothing(c: Ctx, lim: Limits, info: Info, db: Db, exts: seq<External>)
    ensures
      var (mask, info', db') := BestEffort(c, lim, info, db, exts);
      var r := RunSidecar(c, lim, info, db, exts);
      && (r.Accepted? <==> forall i :: 0 <= i < |exts| && exts[i].required ==> mask[i])
      && (r.Accepted? ==> r == Accepted(info', db'))
    decreases |exts|
  {
    if exts != [] {
      var (mask, _, _) := BestEffort(c, lim, info, db, exts);
      var rest := exts[1..];
      match Try(c, lim, info, db.world, exts[0])
      case Landed(result, change) =>
        var info1 := Land(c, info, exts[0].decoded.value, result);
        RequiredAreAllOrNothing(c, lim, info1, Commit(db, change), rest);
        ShiftMask(exts, mask, BestEffort(c, lim, info1, Commit(db, change), rest).0);
      case Missed(_) =>
        RequiredAreAllOrNothing(c, lim, info, db, rest);
        ShiftMask(exts, mask, BestEffort(c, lim, info, db, rest).0);
    }
  }

  lemma ShiftMask(exts: seq<External>, mask: seq<bool>, rest: seq<bool>)
    requires exts != [] && |exts| == |mask| && mask[1..] == rest
    ensures (forall i :: 0 <= i < |exts| && exts[i].required ==> mask[i])
       <==> (exts[0].required ==> mask[0]) && forall i :: 0 <= i < |exts[1..]| && exts[1..][i].required ==> rest[i]
  {
    if (exts[0].required ==> mask[0]) && forall i :: 0 <= i < |exts[1..]| && exts[1..][i].required ==> rest[i] {
      forall i | 0 <= i < |exts| && exts[i].required ensures mask[i] {
        if i > 0 {
          assert exts[1..][i - 1] == exts[i] && rest[i - 1] == mask[i];
        }
      }
    }
  }

  lemma {:induction false} SidecarKeepsConsistent(c: Ctx, lim: Limits, db0: Db, info: Info, db: Db, exts: seq<External>)
    requires Consistent(c.env, db0, info, db)
    requires RunSidecar(c, lim, info, db, exts).Accepted?
    ensures
      var r := RunSidecar(c, lim, info, db, exts);
      Consistent(c.env, db0, r.info, r.db)
    decreases |exts|
  {
    if exts != [] {
      match Try(c, lim, info, db.world, exts[0])
      case Landed(result, change) =>
        RecordKeepsConsistent(c.env, db0, info, db, exts[0].decoded.value, None, 0);
        SidecarKeepsConsistent(c, lim, db0, Land(c, info, exts[0].decoded.value, result), Commit(db, change),
            exts[1..]);
      case Missed(_) => SidecarKeepsConsistent(c, lim, db0, info, db, exts[1..]);
    }
  }

  lemma {:induction false} SidecarRespectsLimits(c: Ctx, lim: Limits, info: Info, db: Db, exts: seq<External>)
    requires WellBehaved(c.env) && NoWrap(c.env, lim, info)
    requires RunSidecar(c, lim, info, db, exts).Accepted?
    ensures Respects(lim, info, RunSidecar(c, lim, info, db, exts).info)
    decreases |exts|
  {
    if exts != [] {
      match Try(c, lim, info, db.world, exts[0])
      case Landed(result, change) =>
        var tx := exts[0].decoded.value;
        IncludedRespects(c.env, lim, info, db.world, tx, None, 0);
        SidecarRespectsLimits(c, lim, Land(c, info, tx, result), Commit(db, change), exts[1..]);
        RespectsTrans(lim, info, Land(c, info, tx, result), RunSidecar(c, lim, info, db, exts).info);
      case Missed(_) => SidecarRespectsLimits(c, lim, info, db, exts[1..]);
    }
  }

  /* Polling */

  /** One HTTP reply. */
  datatype Reply = HttpError | Reply(hold: bool, txs: seq<External>)

  datatype Poll = SidecarDisabled | Received(txs: seq<External>) | PollError | HoldTimeout

  /**
    Polls until the sidecar stops holding. `replies(k)` is the answer to the k-th request; at most
    maxRetries + 1 requests are made.
   */
  method PollTransactions(enabled: bool, maxRetries: nat, replies: nat -> Reply) returns (poll: Poll, requests: nat)
    ensures !enabled ==> poll == SidecarDisabled && requests == 0
    ensures enabled ==> 1 <= requests <= maxRetries + 1
    ensures enabled ==> forall k :: 0 <= k < requests - 1 ==> replies(k).Reply? && replies(k).hold
    ensures enabled ==>
              match replies(requests - 1)
              case HttpError => poll == PollError
              case Reply(hold, txs) => if hold then poll == HoldTimeout && requests == maxRetries + 1
                  else poll == Received(txs)
  {
    if !enabled {
      return SidecarDisabled, 0;
    }
    requests := 0;
    while true
      invariant requests <= maxRetries
      invariant forall k :: 0 <= k < requests ==> replies(k).Reply? && replies(k).hold
      decreases maxRetries - requests
    {
      var reply := replies(requests);
      requests := requests + 1;
      if reply.HttpError? {
        return PollError, requests;
      }
      if !reply.hold {
        return Received(reply.txs), requests;
      }
      if requests > maxRetries {
        return HoldTimeout, requests;
      }
    }
  }
}
