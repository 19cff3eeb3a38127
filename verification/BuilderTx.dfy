/** The builder's own transactions: simulating them on a copy of the state and committing the ones that belong here. */
module BuilderTx {
  import opened Prelude
  import opened Evm
  import opened Database
  import opened Execution
  import opened Replay

  /** A simulated builder transaction: `gasUsed` is what the simulation reported and is what gets reserved. */
  datatype Candidate = Candidate(gasUsed: nat, signed: Signed, top: bool)

  /** Where in the block we are; flashblock 0 is the fallback block. */
  datatype Position = Position(index: nat, count: nat) {
    predicate First() { index == 0 }
    predicate Last() { index == count }
  }

  /* Committing candidates */

  datatype Added = Added(candidates: Option<seq<Candidate>>, info: Info, db: Db)

  /**
    Commits the candidates meant for this end of the block. A transaction with too low a nonce is
    skipped; any other invalid or reverting one also blocks its signer. `None` is an EVM failure,
    which keeps whatever was committed before it.
   */
  function RunCandidates(env: Env, info: Info, db: Db, cs: seq<Candidate>, top: bool, blocked: set<Address>)
    : (bool, Info, Db)
    decreases |cs|
  {
    if cs == [] then (true, info, db)
    else
      var tx := cs[0].signed;
      if cs[0].top != top || tx.signer in blocked then RunCandidates(env, info, db, cs[1..], top, blocked)
      else
        match env.transact(db.world, tx)
        case Fatal => (false, info, db)
        case Invalid(nonceTooLow) =>
          RunCandidates(env, info, db, cs[1..], top, if nonceTooLow then blocked else blocked + {tx.signer})
        case Done(result, change) =>
          if !result.success then RunCandidates(env, info, db, cs[1..], top, blocked + {tx.signer})
          else RunCandidates(env, Built(env, info, tx, result), Commit(db, change), cs[1..], top, blocked)
  }

  function Built(env: Env, info: Info, tx: Tx, result: ExecResult): Info {
    Recorded(info, env, tx, result, None, tx.daSize, 0)
  }

  /** `add_builder_txs` for a builder whose simulation produced `simulated`. */
  function AddCandidates(env: Env, info: Info, db: Db, simulated: Option<seq<Candidate>>, top: bool): Added {
    if simulated.None? then Added(None, info, db)
    else
      var (ok, info', db') := RunCandidates(env, info, db, simulated.value, top, {});
      Added(if ok then simulated else None, info', db')
  }

  method CommitCandidates(env: Env, info: ExecutionInfo, db: StateDb, simulated: Option<seq<Candidate>>, top: bool)
    returns (candidates: Option<seq<Candidate>>)
    modifies info, db
    ensures Added(candidates, info.Val(), db.Val()) ==
        AddCandidates(env, old(info.Val()), old(db.Val()), simulated, top)
  {
    if simulated.None? {
      return None;
    }
    var cs := simulated.value;
    var blocked: set<Address> := {};
    for i := 0 to |cs|
      invariant RunCandidates(env, info.Val(), db.Val(), cs[i..], top, blocked) ==
                RunCandidates(env, old(info.Val()), old(db.Val()), cs, top, {})
    {
      var tx := cs[i].signed;
      assert cs[i..][0] == cs[i] && cs[i..][1..] == cs[i + 1..];
      if cs[i].top != top || tx.signer in blocked {
        continue;
      }
      var outcome := env.transact(db.world, tx);
      if outcome.Fatal? {
        return None;
      }
      if outcome.Invalid? {
        if !outcome.nonceTooLow {
          blocked := blocked + {tx.signer};
        }
        continue;
      }
      if !outcome.result.success {
        blocked := blocked + {tx.signer};
        continue;
      }
      info.Record(env, tx, outcome.result, None, tx.daSize, 0);
      db.CommitChange(outcome.change);
    }
    assert cs[|cs|..] == [];
    return simulated;
  }

  /** Builder transactions replay like any other, even when the pass ends in an EVM failure. */
  lemma {:induction false} CandidatesKeepConsistent(env: Env, db0: Db, info: Info, db: Db, cs: seq<Candidate>,
                                                    top: bool, blocked: set<Address>)
    requires Consistent(env, db0, info, db)
    ensures
      var (_, info', db') := RunCandidates(env, info, db, cs, top, blocked);
      Consistent(env, db0, info', db')
    decreases |cs|
  {
    if cs != [] {
      var tx := cs[0].signed;
      if cs[0].top != top || tx.signer in blocked {
        CandidatesKeepConsistent(env, db0, info, db, cs[1..], top, blocked);
      } else {
        match env.transact(db.world, tx)
        case Fatal =>
        case Invalid(low) =>
          CandidatesKeepConsistent(env, db0, info, db, cs[1..], top, if low then blocked else blocked + {tx.signer});
        case Done(result, change) =>
          if result.success {
            RecordKeepsConsistent(env, db0, info, db, tx, None, 0);
            CandidatesKeepConsistent(env, db0, Built(env, info, tx, result), Commit(db, change), cs[1..], top, blocked);
          } else {
            CandidatesKeepConsistent(env, db0, info, db, cs[1..], top, blocked + {tx.signer});
          }
      }
    }
  }

  /** Gas limits of the candidates meant for one end of the block. */
  function GasCap(cs: seq<Candidate>, top: bool): nat {
    if cs == [] then 0 else (if cs[0].top == top then cs[0].signed.gasLimit else 0) + GasCap(cs[1..], top)
  }

  function DaCap(cs: seq<Candidate>, top: bool): nat {
    if cs == [] then 0 else (if cs[0].top == top then cs[0].signed.daSize else 0) + DaCap(cs[1..], top)
  }

  /** Gas reserved for the candidates still to be committed at the bottom of the block. */
  function ReservedGas(cs: seq<Candidate>): nat {
    if cs == [] then 0 else (if !cs[0].top then cs[0].gasUsed else 0) + ReservedGas(cs[1..])
  }

  /** Caps and reservations are sums over the candidates of one end of the block; reservations are for the bottom. */
  lemma {:induction false} CapsAddUp(cs: seq<Candidate>, c: Candidate, top: bool)
    ensures GasCap([], top) == DaCap([], top) == ReservedGas([]) == 0
    ensures GasCap(cs + [c], top) == GasCap(cs, top) + if c.top == top then c.signed.gasLimit else 0
    ensures DaCap(cs + [c], top) == DaCap(cs, top) + if c.top == top then c.signed.daSize else 0
    ensures ReservedGas(cs + [c]) == ReservedGas(cs) + if c.top then 0 else c.gasUsed
    decreases |cs|
  {
    if cs == [] {
      assert cs + [c] == [c] && [c][1..] == [];
    } else {
      CapsAddUp(cs[1..], c, top);
      assert (cs + [c])[1..] == cs[1..] + [c];
    }
  }

  /** Unchecked as they are, builder transactions add at most their own gas limits and sizes, and no fees. */
  lemma {:induction false} CandidatesAddAtMost(env: Env, info: Info, db: Db, cs: seq<Candidate>, top: bool,
                                               blocked: set<Address>)
    requires WellBehaved(env)
    ensures
      var (_, info', _) := RunCandidates(env, info, db, cs, top, blocked);
      && info'.gas <= info.gas + GasCap(cs, top)
      && info'.da <= info.da + DaCap(cs, top)
      && info.txs <= info'.txs
      && info'.fees == info.fees && info'.lastIndex == info.lastIndex
      && info'.scalar == info.scalar && info'.blobFields == info.blobFields
    decreases |cs|
  {
    if cs != [] {
      var tx := cs[0].signed;
      if cs[0].top != top || tx.signer in blocked {
        CandidatesAddAtMost(env, info, db, cs[1..], top, blocked);
      } else {
        match env.transact(db.world, tx)
        case Fatal =>
        case Invalid(low) =>
          CandidatesAddAtMost(env, info, db, cs[1..], top, if low then blocked else blocked + {tx.signer});
        case Done(result, change) =>
          assert OutcomeOk(env, db.world, tx, env.transact(db.world, tx));
          if result.success {
            CandidatesAddAtMost(env, Built(env, info, tx, result), Commit(db, change), cs[1..], top, blocked);
          } else {
            CandidatesAddAtMost(env, info, db, cs[1..], top, blocked + {tx.signer});
          }
      }
    }
  }

  /**
    A signer that is blocked -- after an invalid or reverting transaction -- gets nothing more committed in the
    pass.
   */
  lemma {:induction false} BlockedSignersCommitNothing(env: Env, info: Info, db: Db, cs: seq<Candidate>, top: bool,
                                                       blocked: set<Address>)
    ensures
      var info' := RunCandidates(env, info, db, cs, top, blocked).1;
      && info.txs <= info'.txs
      && forall k :: |info.txs| <= k < |info'.txs| ==> info'.txs[k].signer !in blocked
    decreases |cs|
  {
    if cs != [] {
      var tx := cs[0].signed;
      if cs[0].top != top || tx.signer in blocked {
        BlockedSignersCommitNothing(env, info, db, cs[1..], top, blocked);
      } else {
        match env.transact(db.world, tx)
        case Fatal =>
        case Invalid(low) =>
          BlockedSignersCommitNothing(env, info, db, cs[1..], top, if low then blocked else blocked + {tx.signer});
        case Done(result, change) =>
          if result.success {
            var info1 := Built(env, info, tx, result);
            BlockedSignersCommitNothing(env, info1, Commit(db, change), cs[1..], top, blocked);
            assert info.txs <= info1.txs && info1.txs[|info.txs|] == tx;
          } else {
            BlockedSignersCommitNothing(env, info, db, cs[1..], top, blocked + {tx.signer});
          }
      }
    }
  }

  /* Which candidates are committed */

  /** The signers blocked by the end of a pass. */
  function BlockedAfter(env: Env, info: Info, db: Db, cs: seq<Candidate>, top: bool, blocked: set<Address>)
    : set<Address>
    decreases |cs|
  {
    if cs == [] then blocked
    else
      var tx := cs[0].signed;
      if cs[0].top != top || tx.signer in blocked then BlockedAfter(env, info, db, cs[1..], top, blocked)
      else
        match env.transact(db.world, tx)
        case Fatal => blocked
        case Invalid(low) =>
          BlockedAfter(env, info, db, cs[1..], top, if low then blocked else blocked + {tx.signer})
        case Done(result, change) =>
          if !result.success then BlockedAfter(env, info, db, cs[1..], top, blocked + {tx.signer})
          else BlockedAfter(env, Built(env, info, tx, result), Commit(db, change), cs[1..], top, blocked)
  }

  /** One more candidate is one more step from where the pass has got to. */
  lemma {:induction false} PassOneMore(env: Env, info: Info, db: Db, cs: seq<Candidate>, c: Candidate, top: bool,
                                       blocked: set<Address>)
    ensures
      var (ok, info', db') := RunCandidates(env, info, db, cs, top, blocked);
      var blocked' := BlockedAfter(env, info, db, cs, top, blocked);
      && RunCandidates(env, info, db, cs + [c], top, blocked) ==
         (if ok then RunCandidates(env, info', db', [c], top, blocked') else (false, info', db'))
      && (ok ==> BlockedAfter(env, info, db, cs + [c], top, blocked) ==
                 BlockedAfter(env, info', db', [c], top, blocked'))
    decreases |cs|
  {
    if cs == [] {
      assert cs + [c] == [c];
    } else {
      assert (cs + [c])[1..] == cs[1..] + [c] && (cs + [c])[0] == cs[0];
      var tx := cs[0].signed;
      if cs[0].top != top || tx.signer in blocked {
        PassOneMore(env, info, db, cs[1..], c, top, blocked);
      } else {
        match env.transact(db.world, tx)
        case Fatal =>
        case Invalid(low) =>
          PassOneMore(env, info, db, cs[1..], c, top, if low then blocked else blocked + {tx.signer});
        case Done(result, change) =>
          if result.success {
            PassOneMore(env, Built(env, info, tx, result), Commit(db, change), cs[1..], c, top, blocked);
          } else {
            PassOneMore(env, info, db, cs[1..], c, top, blocked + {tx.signer});
          }
      }
    }
  }

  /** Where a pass is when it gets to candidate k. */
  function Reached(env: Env, info: Info, db: Db, cs: seq<Candidate>, top: bool, k: nat): (bool, Info, Db)
    requires k <= |cs|
  {
    RunCandidates(env, info, db, cs[..k], top, {})
  }

  /** In the state the pass reaches it in, candidate i reverts, or is invalid for another reason than a used nonce. */
  predicate CostsSigner(env: Env, info: Info, db: Db, cs: seq<Candidate>, top: bool, i: nat)
    requires i < |cs|
  {
    var o := env.transact(Reached(env, info, db, cs, top, i).2.world, cs[i].signed);
    cs[i].top == top && (o == Invalid(false) || (o.Done? && !o.result.success))
  }

  lemma OneBlocks(env: Env, info: Info, db: Db, c: Candidate, top: bool, blocked: set<Address>)
    ensures
      var o, signer := env.transact(db.world, c.signed), c.signed.signer;
      var costs := c.top == top && (o == Invalid(false) || (o.Done? && !o.result.success));
      BlockedAfter(env, info, db, [c], top, blocked) == blocked + if costs then {signer} else {}
  {
    assert [c][1..] == [];
  }

  /** A signer is blocked exactly if an earlier candidate of theirs cost them the rest of the pass. */
  lemma {:induction false} BlockedIsExact(env: Env, info: Info, db: Db, cs: seq<Candidate>, top: bool, k: nat)
    requires k <= |cs| && Reached(env, info, db, cs, top, k).0
    ensures forall a :: a in BlockedAfter(env, info, db, cs[..k], top, {}) <==>
              exists i :: 0 <= i < k && cs[i].signed.signer == a && CostsSigner(env, info, db, cs, top, i)
  {
    if k == 0 {
      assert cs[..0] == [];
    } else {
      var (ok, info', db') := Reached(env, info, db, cs, top, k - 1);
      assert cs[..k] == cs[..k - 1] + [cs[k - 1]];
      PassOneMore(env, info, db, cs[..k - 1], cs[k - 1], top, {});
      BlockedIsExact(env, info, db, cs, top, k - 1);
      OneBlocks(env, info', db', cs[k - 1], top, BlockedAfter(env, info, db, cs[..k - 1], top, {}));
    }
  }

  lemma OneCommits(env: Env, info: Info, db: Db, c: Candidate, top: bool, blocked: set<Address>)
    ensures
      var o := env.transact(db.world, c.signed);
      RunCandidates(env, info, db, [c], top, blocked) ==
      if c.top != top || c.signed.signer in blocked || o.Invalid? || (o.Done? && !o.result.success)
      then (true, info, db)
      else if o.Fatal? then (false, info, db)
      else (true, Recorded(info, env, c.signed, o.result, None, c.signed.daSize, 0), Commit(db, o.change))
  {
    assert [c][1..] == [];
  }

  /**
    Candidate k of a pass that has not failed: it is committed exactly if it is meant for this end of the block, no
    earlier candidate cost its signer the rest of the pass, and it succeeds in the state the pass has reached. An
    EVM failure ends the pass; anything else leaves the state as it is.
   */
  lemma PassIsExact(env: Env, info: Info, db: Db, cs: seq<Candidate>, top: bool, k: nat)
    requires k < |cs| && Reached(env, info, db, cs, top, k).0
    ensures
      var (_, info', db') := Reached(env, info, db, cs, top, k);
      var c, o := cs[k], env.transact(db'.world, cs[k].signed);
      var blocked := exists i :: 0 <= i < k && cs[i].signed.signer == c.signed.signer
                                 && CostsSigner(env, info, db, cs, top, i);
      Reached(env, info, db, cs, top, k + 1) ==
      if c.top != top || blocked || o.Invalid? || (o.Done? && !o.result.success) then (true, info', db')
      else if o.Fatal? then (false, info', db')
      else (true, Recorded(info', env, c.signed, o.result, None, c.signed.daSize, 0), Commit(db', o.change))
  {
    var (_, info', db') := Reached(env, info, db, cs, top, k);
    assert cs[..k + 1] == cs[..k] + [cs[k]];
    PassOneMore(env, info, db, cs[..k], cs[k], top, {});
    BlockedIsExact(env, info, db, cs, top, k);
    OneCommits(env, info', db', cs[k], top, BlockedAfter(env, info, db, cs[..k], top, {}));
  }

  /* The base builder transaction */

  function Digits(n: nat): seq<nat> {
    if n < 10 then [48 + n] else Digits(n / 10) + [48 + n % 10]
  }

  /** "Block Number: n" in ASCII. */
  function Message(number: nat): seq<nat> {
    [66, 108, 111, 99, 107, 32, 78, 117, 109, 98, 101, 114, 58, 32] + Digits(number)
  }

  /** The number a string of decimal digits stands for. */
  function Reads(digits: seq<nat>): int {
    if digits == [] then 0 else 10 * Reads(digits[..|digits| - 1]) + digits[|digits| - 1] - 48
  }

  lemma {:induction false} DigitsReadBack(n: nat)
    ensures Reads(Digits(n)) == n
    ensures forall k :: 0 <= k < |Digits(n)| ==> 48 <= Digits(n)[k] <= 57
  {
    if n < 10 {
      assert Digits(n)[..0] == [];
    } else {
      DigitsReadBack(n / 10);
      assert Digits(n)[..|Digits(n)| - 1] == Digits(n / 10);
    }
  }

  function ZeroBytes(bytes: seq<nat>): (z: nat)
    ensures z <= |bytes|
  {
    if bytes == [] then 0 else (if bytes[0] == 0 then 1 else 0) + ZeroBytes(bytes[1..])
  }

  const FLOOR_PER_TOKEN: nat := 10

  /** Intrinsic gas of a transaction carrying `bytes`; the EIP-7623 floor always wins. */
  function EstimateGas(bytes: seq<nat>): (gas: nat)
    ensures gas == 21_000 + 10 * ZeroBytes(bytes) + 40 * (|bytes| - ZeroBytes(bytes))
  {
    var zero := ZeroBytes(bytes);
    var nonzero := |bytes| - zero;
    var floor := 21_000 + (zero + nonzero * 4) * FLOOR_PER_TOKEN;
    Max(zero * 4 + nonzero * 16 + 21_000, floor)
  }

  function Sign(env: Env, signer: Address, nonce: nat, gasLimit: nat): Signed {
    Tx(env.hashOf(signer, nonce, gasLimit), Standard, signer, true, nonce, gasLimit,
       env.daOf(signer, nonce, gasLimit), env.baseFee, 0)
  }

  /** The base transaction: its gas limit is exactly the gas reserved for it. */
  function BaseCandidate(env: Env, signer: Option<Address>, db: Db): seq<Candidate> {
    if signer.None? then []
    else
      var gas := EstimateGas(Message(env.number));
      [Candidate(gas, Sign(env, signer.value, NonceAt(db.world, signer.value), gas), false)]
  }

  /* The two builders of the flashblocks mode */

  /**
    Flashtestation transactions, all meant for the bottom of the block; `None` is a simulation failure,
    which is logged and ignored. They are given the transactions executed so far to prove.
   */
  datatype Flashtest = Flashtest(simulate: (Db, seq<Tx>) -> Option<seq<Candidate>>)

  function FlashCandidates(flash: Option<Flashtest>, db: Db, txs: seq<Tx>): seq<Candidate> {
    if flash.None? then [] else flash.value.simulate(db, txs).GetOr([])
  }

  /** `commit_txs` on the simulation state: any transaction that does not execute is an error. */
  function CommitAll(env: Env, db: Db, txs: seq<Tx>): Option<Db>
    decreases |txs|
  {
    if txs == [] then Some(db)
    else
      match env.transact(db.world, txs[0])
      case Done(_, change) => CommitAll(env, Commit(db, change), txs[1..])
      case _ => None
  }

  method CommitTxs(env: Env, db: StateDb, txs: seq<Tx>) returns (ok: bool)
    modifies db
    ensures ok == CommitAll(env, old(db.Val()), txs).Some?
    ensures ok ==> CommitAll(env, old(db.Val()), txs) == Some(db.Val())
  {
    for i := 0 to |txs|
      invariant CommitAll(env, db.Val(), txs[i..]) == CommitAll(env, old(db.Val()), txs)
    {
      assert txs[i..][0] == txs[i] && txs[i..][1..] == txs[i + 1..];
      var outcome := env.transact(db.world, txs[i]);
      if !outcome.Done? {
        return false;
      }
      db.CommitChange(outcome.change);
    }
    assert txs[|txs|..] == [];
    return true;
  }

  function SignedOf(cs: seq<Candidate>): seq<Tx> {
    seq(|cs|, i requires 0 <= i < |cs| => cs[i].signed)
  }

  /** Flashtestation candidates simulated after `first` have been committed to the simulation state. */
  function Attest(env: Env, flash: Option<Flashtest>, db: Db, first: seq<Candidate>, txs: seq<Tx>)
    : Option<seq<Candidate>>
  {
    if flash.None? then Some([])
    else
      match CommitAll(env, db, SignedOf(first))
      case None => None
      case Some(db') => Some(FlashCandidates(flash, db', txs))
  }

  /** `FlashblocksBuilderTx`: a base transaction in the fallback block and one at the end of the block. */
  function SimulatePlain(env: Env, signer: Option<Address>, flash: Option<Flashtest>, pos: Position, db: Db,
                         txs: seq<Tx>)
    : Option<seq<Candidate>>
  {
    var base := BaseCandidate(env, signer, db);
    var opening := if pos.First() then base else [];
    if !pos.Last() then Some(opening)
    else
      match Attest(env, flash, db, base, txs)
      case None => None
      case Some(attested) => Some(opening + base + attested)
  }

  /** Runs on a copy of the builder's state, which is thrown away. */
  method SimulatePlainTxs(env: Env, signer: Option<Address>, flash: Option<Flashtest>, pos: Position,
                          db: StateDb, info: ExecutionInfo) returns (candidates: Option<seq<Candidate>>)
    ensures candidates == SimulatePlain(env, signer, flash, pos, Copy(db.Val()), info.executedTransactions)
  {
    var simulation := new StateDb.Simulation(db);
    var builderTxs: seq<Candidate> := [];
    if pos.First() {
      builderTxs := BaseCandidate(env, signer, simulation.Val());
    }
    if pos.Last() {
      var base := BaseCandidate(env, signer, simulation.Val());
      builderTxs := builderTxs + base;
      assert builderTxs + [] == builderTxs;
      if flash.Some? {
        var ok := CommitTxs(env, simulation, SignedOf(base));
        if !ok {
          return None;
        }
        builderTxs := builderTxs + FlashCandidates(flash, simulation.Val(), info.executedTransactions);
      }
    }
    return Some(builderTxs);
  }

  /** The simulation state: the same world, with no transitions of its own. */
  function Copy(db: Db): Db {
    db.(transitions := map[], bundle := EMPTY_BUNDLE)
  }

  /** The contract that counts flashblocks: `increment` is the gas its call uses, `None` if simulating it fails. */
  datatype NumberContract = NumberContract(signer: Address, increment: Db -> Option<nat>)

  /**
    One transaction at the top of every flashblock after the fallback: the contract call or, failing that, a
    base transaction.
   */
  function TopCandidate(env: Env, number: NumberContract, db: Db): seq<Candidate> {
    match number.increment(db)
    case Some(gas) => [Candidate(gas, Sign(env, number.signer, NonceAt(db.world, number.signer), gas * 64 / 63), true)]
    case None =>
      var base := BaseCandidate(env, Some(number.signer), db);
      [base[0].(top := true)]
  }

  /** What the base transaction looks like: the signer's next one, just enough gas, no tip, for the bottom. */
  lemma BaseCandidateIsExact(env: Env, signer: Address, db: Db)
    ensures
      var cs, gas := BaseCandidate(env, Some(signer), db), EstimateGas(Message(env.number));
      && |cs| == 1 && !cs[0].top && cs[0].gasUsed == cs[0].signed.gasLimit == gas
      && cs[0].signed.signer == signer && cs[0].signed.nonce == NonceAt(db.world, signer)
      && cs[0].signed.maxFee == env.baseFee && cs[0].signed.maxTip == 0
    ensures BaseCandidate(env, None, db) == []
  {
  }

  /**
    What opens a flashblock of the number-contract builder: a call with a 64th more gas than simulated, rounded down
    or, if the simulation fails, the base transaction.
   */
  lemma TopCandidateIsExact(env: Env, number: NumberContract, db: Db)
    ensures
      var cs := TopCandidate(env, number, db);
      && |cs| == 1 && cs[0].top
      && cs[0].signed.signer == number.signer && cs[0].signed.nonce == NonceAt(db.world, number.signer)
      && match number.increment(db)
         case Some(gas) =>
           && cs[0].gasUsed == gas
           && 63 * cs[0].signed.gasLimit <= 64 * gas < 63 * cs[0].signed.gasLimit + 63
         case None => cs[0] == BaseCandidate(env, Some(number.signer), db)[0].(top := true)
  {
  }

  function ForEnd(cs: seq<Candidate>, top: bool): seq<Candidate> {
    if cs == [] then [] else (if cs[0].top == top then [cs[0]] else []) + ForEnd(cs[1..], top)
  }

  /** `FlashblocksNumberBuilderTx` */
  function SimulateNumber(env: Env, number: NumberContract, flash: Option<Flashtest>, pos: Position, db: Db,
                          txs: seq<Tx>, top: bool): Option<seq<Candidate>>
  {
    var opening := if pos.First() then BaseCandidate(env, Some(number.signer), db) else TopCandidate(env, number, db);
    if !pos.Last() then Some(opening)
    else
      match Attest(env, flash, db, ForEnd(opening, top), txs)
      case None => None
      case Some(attested) => Some(opening + attested)
  }

  method SimulateNumberTxs(env: Env, number: NumberContract, flash: Option<Flashtest>, pos: Position,
                           db: StateDb, info: ExecutionInfo, top: bool) returns (candidates: Option<seq<Candidate>>)
    ensures candidates == SimulateNumber(env, number, flash, pos, Copy(db.Val()), info.executedTransactions, top)
  {
    var simulation := new StateDb.Simulation(db);
    var builderTxs: seq<Candidate> := [];
    if pos.First() {
      builderTxs := BaseCandidate(env, Some(number.signer), simulation.Val());
    } else {
      builderTxs := TopCandidate(env, number, simulation.Val());
    }
    assert builderTxs + [] == builderTxs;
    if pos.Last() && flash.Some? {
      var ok := CommitTxs(env, simulation, SignedOf(ForEnd(builderTxs, top)));
      if !ok {
        return None;
      }
      builderTxs := builderTxs + FlashCandidates(flash, simulation.Val(), info.executedTransactions);
    }
    return Some(builderTxs);
  }

  /* Simulation and commitment agree */

  /** Every candidate goes through, one after the other. */
  ghost predicate AllSucceed(env: Env, db: Db, cs: seq<Candidate>)
    decreases |cs|
  {
    cs == [] ||
    (var o := env.transact(db.world, cs[0].signed);
     o.Done? && o.result.success && AllSucceed(env, Commit(db, o.change), cs[1..]))
  }

  /**
    What `commit_txs` does to the simulation state is what the commit pass will have done when it gets
    to the transactions simulated after it: same world, so the nonces signed there are current.
   */
  lemma {:induction false} SimulationMatchesCommitment(env: Env, info: Info, db: Db, copy: Db, cs: seq<Candidate>,
                                                       later: seq<Candidate>, top: bool)
    requires copy.world == db.world && AllSucceed(env, db, cs)
    requires forall k :: 0 <= k < |cs| ==> cs[k].top == top
    ensures
      var simulated := CommitAll(env, copy, SignedOf(cs));
      && simulated.Some?
      && exists info': Info, db': Db ::
           && RunCandidates(env, info, db, cs + later, top, {}) == RunCandidates(env, info', db', later, top, {})
           && db'.world == simulated.value.world && info'.txs == info.txs + SignedOf(cs)
    decreases |cs|
  {
    if cs == [] {
      assert cs + later == later && info.txs + SignedOf(cs) == info.txs;
    } else {
      var o := env.transact(db.world, cs[0].signed);
      assert (cs + later)[1..] == cs[1..] + later;
      assert SignedOf(cs)[1..] == SignedOf(cs[1..]);
      var info1, db1 := Built(env, info, cs[0].signed, o.result), Commit(db, o.change);
      SimulationMatchesCommitment(env, info1, db1, Commit(copy, o.change), cs[1..], later, top);
      var info', db' :|
        && RunCandidates(env, info1, db1, cs[1..] + later, top, {}) == RunCandidates(env, info', db', later, top, {})
        && db'.world == CommitAll(env, Commit(copy, o.change), SignedOf(cs[1..])).value.world
        && info'.txs == info1.txs + SignedOf(cs[1..]);
      assert info1.txs + SignedOf(cs[1..]) == info.txs + SignedOf(cs);
      assert RunCandidates(env, info, db, cs + later, top, {}) == RunCandidates(env, info', db', later, top, {});
    }
  }

  /* Placement */

  /** The transaction executes and succeeds in this world. */
  predicate Lands(env: Env, w: World, tx: Tx) {
    var o := env.transact(w, tx);
    o.Done? && o.result.success
  }

  /** The state after a candidate has been committed on its own: changed exactly if its transaction lands. */
  function Placed(env: Env, info: Info, db: Db, c: Candidate): (Info, Db) {
    if !Lands(env, db.world, c.signed) then (info, db)
    else
      var o := env.transact(db.world, c.signed);
      (Built(env, info, c.signed, o.result), Commit(db, o.change))
  }

  lemma OneCandidate(env: Env, info: Info, db: Db, c: Candidate, top: bool)
    ensures
      var (ok, info', db') := RunCandidates(env, info, db, [c], top, {});
      && (info', db') == (if c.top == top then Placed(env, info, db, c) else (info, db))
      && (ok <==> c.top == top ==> env.transact(db.world, c.signed) != Fatal)
  {
    assert [c][1..] == [];
  }

  /** Adding a single candidate: it is placed if this is its end of the block. */
  ghost predicate AddsOne(env: Env, info: Info, db: Db, c: Candidate, top: bool, added: Added) {
    && (added.info, added.db) == (if c.top == top then Placed(env, info, db, c) else (info, db))
    && added.candidates == if c.top == top && env.transact(db.world, c.signed) == Fatal then None else Some([c])
  }

  /**
    The plain builder without flashtestations commits a base transaction at the bottom of the fallback
    block and of the last flashblock, exactly if it lands there, and nothing anywhere else.
   */
  lemma PlainPlacement(env: Env, signer: Address, pos: Position, info: Info, db: Db, top: bool)
    requires pos.count >= 1
    ensures
      var base := BaseCandidate(env, Some(signer), db)[0];
      var simulated := SimulatePlain(env, Some(signer), None, pos, Copy(db), info.txs);
      var added := AddCandidates(env, info, db, simulated, top);
      if pos.First() || pos.Last() then AddsOne(env, info, db, base, top, added) else added == Added(Some([]), info, db)
  {
    var base := BaseCandidate(env, Some(signer), db)[0];
    OneCandidate(env, info, db, base, top);
    assert BaseCandidate(env, Some(signer), Copy(db)) == [base];
    assert [] + [base] + [] == [base];
  }

  /**
    With no flashblock configured, the fallback block is also the last one and the base transaction is simulated
    twice.
   */
  lemma NoFlashblocksDoublesTheBase(env: Env, signer: Address, db: Db, txs: seq<Tx>)
    ensures
      var base := BaseCandidate(env, Some(signer), db)[0];
      SimulatePlain(env, Some(signer), None, Position(0, 0), Copy(db), txs) == Some([base, base])
  {
    var base := BaseCandidate(env, Some(signer), db)[0];
    assert BaseCandidate(env, Some(signer), Copy(db)) == [base];
    assert [base] + [base] + [] == [base, base];
  }

  /** The transaction of the number-contract builder at a position. */
  function NumberCandidate(env: Env, number: NumberContract, pos: Position, db: Db): Candidate {
    if pos.First() then BaseCandidate(env, Some(number.signer), db)[0] else TopCandidate(env, number, Copy(db))[0]
  }

  /**
    The number-contract builder commits its base transaction at the bottom of the fallback block and
    opens every later flashblock with one transaction of its own, exactly if they land; the other pass
    over the same flashblock commits nothing.
   */
  lemma NumberPlacement(env: Env, number: NumberContract, pos: Position, info: Info, db: Db, top: bool)
    requires pos.count >= 1
    ensures
      var c := NumberCandidate(env, number, pos, db);
      var simulated := SimulateNumber(env, number, None, pos, Copy(db), info.txs, top);
      AddsOne(env, info, db, c, top, AddCandidates(env, info, db, simulated, top)) && (c.top <==> !pos.First())
  {
    var c := NumberCandidate(env, number, pos, db);
    OneCandidate(env, info, db, c, top);
    assert [c] + [] == [c];
  }

  /* Placement next to flashtestations */

  /** Flashtestation transactions are all for the bottom of the block and signed by these keys. */
  ghost predicate AttestedBy(flash: Option<Flashtest>, keys: set<Address>) {
    forall db: Db, txs: seq<Tx>, c: Candidate ::
      c in FlashCandidates(flash, db, txs) ==> !c.top && c.signed.signer in keys
  }

  /** They are only ever added to the last flashblock. */
  function KeysAt(pos: Position, keys: set<Address>): set<Address> {
    if pos.Last() then keys else {}
  }

  /** `more` is `txs` followed by transactions of these keys only. */
  ghost predicate ExtendedBy(txs: seq<Tx>, more: seq<Tx>, keys: set<Address>) {
    txs <= more && forall k :: |txs| <= k < |more| ==> more[k].signer in keys
  }

  lemma {:induction false} CandidatesExtend(env: Env, info: Info, db: Db, cs: seq<Candidate>, top: bool,
                                            blocked: set<Address>, keys: set<Address>)
    requires forall c :: c in cs ==> c.signed.signer in keys
    ensures ExtendedBy(info.txs, RunCandidates(env, info, db, cs, top, blocked).1.txs, keys)
    decreases |cs|
  {
    if cs != [] {
      var tx := cs[0].signed;
      if cs[0].top != top || tx.signer in blocked {
        CandidatesExtend(env, info, db, cs[1..], top, blocked, keys);
      } else {
        match env.transact(db.world, tx)
        case Fatal =>
        case Invalid(low) =>
          CandidatesExtend(env, info, db, cs[1..], top, if low then blocked else blocked + {tx.signer}, keys);
        case Done(result, change) =>
          if result.success {
            var info1 := Built(env, info, tx, result);
            CandidatesExtend(env, info1, Commit(db, change), cs[1..], top, blocked, keys);
            assert info.txs <= info1.txs && info1.txs[|info.txs|] == tx;
          } else {
            CandidatesExtend(env, info, db, cs[1..], top, blocked + {tx.signer}, keys);
          }
      }
    }
  }

  /** A pass commits nothing of what is meant for the other end of the block. */
  lemma {:induction false} OtherEndIsSkipped(env: Env, info: Info, db: Db, cs: seq<Candidate>, top: bool,
                                             blocked: set<Address>)
    requires forall c :: c in cs ==> c.top != top
    ensures RunCandidates(env, info, db, cs, top, blocked) == (true, info, db)
    decreases |cs|
  {
    if cs != [] {
      assert cs[0] in cs;
      OtherEndIsSkipped(env, info, db, cs[1..], top, blocked);
    }
  }

  /** One candidate and then flashtestations: at the bottom they follow it, at the top they are skipped. */
  lemma CandidateThenAttested(env: Env, info: Info, db: Db, c: Candidate, attested: seq<Candidate>, top: bool,
                              keys: set<Address>)
    requires forall d :: d in attested ==> !d.top && d.signed.signer in keys
    ensures
      var info' := RunCandidates(env, info, db, [c] + attested, top, {}).1;
      var first := if c.top == top then Placed(env, info, db, c).0 else info;
      if top then info' == first else ExtendedBy(first.txs, info'.txs, keys)
  {
    assert ([c] + attested)[1..] == attested;
    var o := env.transact(db.world, c.signed);
    var blocked := if c.top == top && !Lands(env, db.world, c.signed) && !(o.Invalid? && o.nonceTooLow)
      then {c.signed.signer} else {};
    var (info1, db1) := if c.top == top then Placed(env, info, db, c) else (info, db);
    if c.top != top || o != Fatal {
      assert {} + {c.signed.signer} == {c.signed.signer};
      assert RunCandidates(env, info, db, [c] + attested, top, {}) ==
          RunCandidates(env, info1, db1, attested, top, blocked);
      if top {
        OtherEndIsSkipped(env, info1, db1, attested, top, blocked);
      } else {
        CandidatesExtend(env, info1, db1, attested, top, blocked, keys);
      }
    }
  }

  /** Flashtestations are simulated only if the candidate before them executes. */
  lemma AttestAfterOne(env: Env, flash: Option<Flashtest>, db: Db, c: Candidate, txs: seq<Tx>, keys: set<Address>)
    requires AttestedBy(flash, keys)
    ensures
      var attested := Attest(env, flash, Copy(db), [c], txs);
      && (attested.None? ==> !Lands(env, db.world, c.signed))
      && (attested.Some? ==> forall d :: d in attested.value ==> !d.top && d.signed.signer in keys)
  {
    var signed := SignedOf([c]);
    assert signed == [c.signed] && signed[1..] == [];
    var o := env.transact(Copy(db).world, c.signed);
    if o.Done? {
      assert CommitAll(env, Copy(db), signed) == CommitAll(env, Commit(Copy(db), o.change), []);
    }
  }

  /**
    The flashtestations of the plain builder are simulated on the very world they are committed in: the one the base
    transaction, once committed, leaves behind.
   */
  lemma FlashtestationsSeeTheBase(env: Env, signer: Address, flash: Flashtest, pos: Position, info: Info, db: Db)
    requires 1 <= pos.index == pos.count && Lands(env, db.world, BaseCandidate(env, Some(signer), db)[0].signed)
    ensures
      var base := BaseCandidate(env, Some(signer), db)[0];
      var (info', db') := Placed(env, info, db, base);
      var seen := Commit(Copy(db), env.transact(db.world, base.signed).change);
      var simulated := SimulatePlain(env, Some(signer), Some(flash), pos, Copy(db), info.txs);
      var (ok, info'', db'') := RunCandidates(env, info', db', flash.simulate(seen, info.txs).GetOr([]), false, {});
      && seen.world == db'.world && simulated.Some?
      && AddCandidates(env, info, db, simulated, false) == Added(if ok then simulated else None, info'', db'')
  {
    var base := BaseCandidate(env, Some(signer), db)[0];
    var seen := Commit(Copy(db), env.transact(db.world, base.signed).change);
    var cs := flash.simulate(seen, info.txs).GetOr([]);
    var signed := SignedOf([base]);
    assert BaseCandidate(env, Some(signer), Copy(db)) == [base] && signed == [base.signed] && signed[1..] == [];
    assert CommitAll(env, Copy(db), signed) == CommitAll(env, seen, []);
    assert [] + [base] + cs == [base] + cs && ([base] + cs)[1..] == cs;
  }

  /** Those of the number-contract builder on the state at the end of the block. */
  lemma FlashtestationsSeeTheEnd(env: Env, number: NumberContract, flash: Flashtest, pos: Position, info: Info, db: Db)
    requires 1 <= pos.index == pos.count
    ensures
      var simulated := SimulateNumber(env, number, Some(flash), pos, Copy(db), info.txs, false);
      var (ok, info', db') := RunCandidates(env, info, db, flash.simulate(Copy(db), info.txs).GetOr([]), false, {});
      && simulated.Some?
      && AddCandidates(env, info, db, simulated, false) == Added(if ok then simulated else None, info', db')
  {
    var c := TopCandidate(env, number, Copy(db))[0];
    var cs := flash.simulate(Copy(db), info.txs).GetOr([]);
    assert [c][1..] == [] && ForEnd([c], false) == [] && SignedOf([]) == [];
    assert ([c] + cs)[1..] == cs;
  }

  /**
    The plain builder in a flashblock after the fallback block: nothing at the top, and at the bottom of the last one
    the base transaction, exactly if it lands there, followed by flashtestations at most.
   */
  lemma PlainAdds(env: Env, signer: Address, flash: Option<Flashtest>, keys: set<Address>, pos: Position, info: Info,
                  db: Db, top: bool)
    requires AttestedBy(flash, keys) && 1 <= pos.index <= pos.count
    ensures
      var base := BaseCandidate(env, Some(signer), db)[0];
      var simulated := SimulatePlain(env, Some(signer), flash, pos, Copy(db), info.txs);
      var added := AddCandidates(env, info, db, simulated, top);
      if top then added.info == info
      else ExtendedBy(if pos.Last() then Placed(env, info, db, base).0.txs else info.txs, added.info.txs,
                      KeysAt(pos, keys))
  {
    if pos.Last() {
      var base := BaseCandidate(env, Some(signer), db)[0];
      assert BaseCandidate(env, Some(signer), Copy(db)) == [base];
      AttestAfterOne(env, flash, db, base, info.txs, keys);
      var attested := Attest(env, flash, Copy(db), [base], info.txs);
      if attested.Some? {
        assert [] + [base] + attested.value == [base] + attested.value;
        CandidateThenAttested(env, info, db, base, attested.value, top, keys);
      }
    }
  }

  /**
    The number-contract builder in a flashblock after the fallback block: its transaction at the top, exactly if it
    lands there, and flashtestations at most at the bottom.
   */
  lemma NumberAdds(env: Env, number: NumberContract, flash: Option<Flashtest>, keys: set<Address>, pos: Position,
                   info: Info, db: Db, top: bool)
    requires AttestedBy(flash, keys) && 1 <= pos.index <= pos.count
    ensures
      var c := TopCandidate(env, number, Copy(db))[0];
      var simulated := SimulateNumber(env, number, flash, pos, Copy(db), info.txs, top);
      var added := AddCandidates(env, info, db, simulated, top);
      if top then added.info == Placed(env, info, db, c).0
      else ExtendedBy(info.txs, added.info.txs, KeysAt(pos, keys))
  {
    var c := TopCandidate(env, number, Copy(db))[0];
    assert [c][1..] == [] && [c] + [] == [c];
    OneCandidate(env, info, db, c, top);
    if pos.Last() {
      AttestAfterOne(env, flash, db, c, info.txs, keys);
      assert ForEnd([c], top) == if top then [c] else [];
      assert SignedOf([]) == [];
      var attested := Attest(env, flash, Copy(db), ForEnd([c], top), info.txs);
      if attested.Some? {
        CandidateThenAttested(env, info, db, c, attested.value, top, keys);
      }
    }
  }

  /* Nonces */

  /** In this replay, only its own transactions move the nonce of `s`, by one each. */
  ghost predicate OwnsNonce(env: Env, db0: Db, txs: seq<Tx>, s: Address) {
    forall i {:trigger txs[i]} :: 0 <= i < |txs| ==> MovesOwnNonce(env, ExecAll(env, db0, txs[..i]), txs[i], s)
  }

  ghost predicate MovesOwnNonce(env: Env, before: Option<Run>, tx: Tx, s: Address) {
    before.Some? && env.transact(before.value.db.world, tx).Done? ==>
      var w := before.value.db.world;
      NonceAt(ApplyChange(w, env.transact(w, tx).change), s) == NonceAt(w, s) + if tx.signer == s then 1 else 0
  }

  function NoncesOf(txs: seq<Tx>, s: Address): seq<nat> {
    if txs == [] then []
    else
      var last := txs[|txs| - 1];
      NoncesOf(txs[..|txs| - 1], s) + if last.signer == s then [last.nonce] else []
  }

  /** In any block that replays like that, the nonces of `s` are consecutive, starting at its parent nonce. */
  lemma {:induction false} NoncesAreConsecutive(env: Env, db0: Db, txs: seq<Tx>, s: Address)
    requires WellBehaved(env) && OwnsNonce(env, db0, txs, s) && ExecAll(env, db0, txs).Some?
    requires forall tx :: tx in txs && tx.kind == Deposit ==> tx.signer != s
    ensures
      var nonces := NoncesOf(txs, s);
      && NonceAt(ExecAll(env, db0, txs).value.db.world, s) == NonceAt(db0.world, s) + |nonces|
      && forall k :: 0 <= k < |nonces| ==> nonces[k] == NonceAt(db0.world, s) + k
  {
    if txs != [] {
      var before, last := txs[..|txs| - 1], txs[|txs| - 1];
      forall i | 0 <= i < |before| ensures MovesOwnNonce(env, ExecAll(env, db0, before[..i]), before[i], s) {
        assert before[..i] == txs[..i] && before[i] == txs[i];
      }
      NoncesAreConsecutive(env, db0, before, s);
      var w := ExecAll(env, db0, before).value.db.world;
      assert OutcomeOk(env, w, last, env.transact(w, last));
      assert MovesOwnNonce(env, ExecAll(env, db0, txs[..|txs| - 1]), last, s);
    }
  }
}
