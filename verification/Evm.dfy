/** Transactions, accounts and the EVM as the builder sees it: one deterministic function per block. */
module Evm {
  import opened Prelude

  type Address = nat
  type Hash = nat
  type Slot = nat
  type Word = nat
  /** Bytecode, named by its hash; 0 is "no code". */
  type Code = nat

  datatype TxKind = Deposit | Blob | Standard

  /**
    A signed transaction. `recoverable` says whether the sender can be recovered from the signature,
    `daSize` is the compressed size estimate of its encoding.
   */
  datatype Tx = Tx(hash: Hash, kind: TxKind, signer: Address, recoverable: bool, nonce: nat,
                   gasLimit: nat, daSize: nat, maxFee: nat, maxTip: nat)

  /** A transaction whose sender has been recovered. */
  type Recovered = t: Tx | t.recoverable witness Tx(0, Standard, 0, true, 0, 0, 0, 0, 0)

  /** A transaction signed by the builder: always EIP-1559. */
  type Signed = t: Tx | t.recoverable && t.kind == Standard witness Tx(0, Standard, 0, true, 0, 0, 0, 0, 0)

  /** Tip per gas at the given base fee; undefined when the fee cap is below it. */
  function EffectiveTip(tx: Tx, baseFee: nat): Option<nat> {
    if tx.maxFee < baseFee then None else Some(Min(tx.maxFee - baseFee, tx.maxTip))
  }

  /* Accounts */

  datatype AccountInfo = AccountInfo(balance: nat, nonce: nat, code: Code) {
    predicate Empty() {
      balance == 0 && nonce == 0 && code == 0
    }
  }

  const NO_INFO := AccountInfo(0, 0, 0)

  datatype Account = Account(info: AccountInfo, storage: map<Slot, Word>)

  type World = map<Address, Account>

  function InfoAt(w: World, a: Address): Option<AccountInfo> {
    if a in w then Some(w[a].info) else None
  }

  function SlotAt(w: World, a: Address, s: Slot): Word {
    if a in w && s in w[a].storage then w[a].storage[s] else 0
  }

  function NonceAt(w: World, a: Address): nat {
    InfoAt(w, a).GetOr(NO_INFO).nonce
  }

  /* What one execution did to an account */

  datatype Write = Write(original: Word, present: Word)

  datatype Touch =
    | Selfdestructed
    | TouchedEmpty
    | Created(info: AccountInfo, writes: map<Slot, Write>)
    | Updated(info: AccountInfo, writes: map<Slot, Write>)
  {
    predicate Live() {
      Created? || Updated?
    }
  }

  type Change = map<Address, Touch>

  function WriteAll(storage: map<Slot, Word>, writes: map<Slot, Write>): map<Slot, Word> {
    map s | s in storage.Keys + writes.Keys :: if s in writes then writes[s].present else storage[s]
  }

  function TouchedAccount(w: World, a: Address, t: Touch): Account
    requires t.Live()
  {
    if t.Created? then Account(t.info, WriteAll(map[], t.writes))
    else Account(t.info, WriteAll(if a in w then w[a].storage else map[], t.writes))
  }

  function ApplyChange(w: World, ch: Change): World {
    map a | a in w.Keys + ch.Keys && (a in ch ==> ch[a].Live()) ::
      if a in ch then TouchedAccount(w, a, ch[a]) else w[a]
  }

  /** A change the EVM can report when it ran on `w`. */
  ghost predicate TouchFits(w: World, a: Address, t: Touch) {
    t.Live() ==>
      && !t.info.Empty()
      && (forall s :: s in t.writes ==> t.writes[s].original == SlotAt(w, a, s) != t.writes[s].present)
      && (t.Created? ==> forall s :: SlotAt(w, a, s) == 0)
  }

  ghost predicate ChangeFits(w: World, ch: Change) {
    forall a :: a in ch ==> TouchFits(w, a, ch[a])
  }

  /* Execution */

  datatype ExecResult = ExecResult(success: bool, gasUsed: nat, logs: nat)

  datatype Outcome =
    | Done(result: ExecResult, change: Change)
    | Invalid(nonceTooLow: bool)
    | Fatal

  datatype Receipt = Receipt(success: bool, cumulativeGas: nat, logs: nat,
                             depositNonce: Option<nat>, depositVersion: Option<nat>)

  /**
    The execution environment of one block. `transact` is the EVM configured for that block;
    `scalarOf` reads the DA footprint scalar out of the state, `rootOf` computes a state root, and
    `hashOf`/`daOf` give the hash and compressed size of a builder transaction once signed.
   */
  datatype Env = Env(transact: (World, Tx) -> Outcome, gasLimit: nat, baseFee: nat,
                     number: nat, timestamp: nat,
                     regolith: bool, canyon: bool, ecotone: bool, jovian: bool,
                     scalarOf: World -> nat, rootOf: (World, map<Address, BundleAccount>) -> nat,
                     hashOf: (Address, nat, nat) -> Hash, daOf: (Address, nat, nat) -> nat)

  /** What the builder relies on about the EVM. */
  ghost predicate WellBehaved(env: Env) {
    forall w: World, tx: Tx :: OutcomeOk(env, w, tx, env.transact(w, tx))
  }

  ghost predicate OutcomeOk(env: Env, w: World, tx: Tx, o: Outcome) {
    && (o.Done? ==>
          && o.result.gasUsed <= tx.gasLimit
          && ChangeFits(w, o.change)
          && (tx.kind != Deposit ==>
                && tx.nonce == NonceAt(w, tx.signer)
                && tx.gasLimit <= env.gasLimit
                && tx.maxFee >= env.baseFee
                && tx.nonce < NonceAt(ApplyChange(w, o.change), tx.signer)))
    && (o.Invalid? && o.nonceTooLow ==> tx.nonce < NonceAt(w, tx.signer))
  }

  /* Account status and transitions kept by the state database (see Database) */

  datatype Status = Loaded | Changed | Destroyed | DestroyedChanged

  datatype Transition = Transition(info: Option<AccountInfo>, status: Status,
                                   previousInfo: Option<AccountInfo>, storage: map<Slot, Write>)

  datatype BundleAccount = BundleAccount(info: Option<AccountInfo>, originalInfo: Option<AccountInfo>,
                                         storage: map<Slot, Write>, status: Status)

  /** What undoing one merge would restore for an account. */
  datatype Revert = Revert(info: Option<AccountInfo>, slots: map<Slot, Word>)
}
