/**
  A small concrete EVM: a transaction does nothing but use gas, pay for it and move its sender's nonce;
  a deposit pays nothing. It meets the assumptions the theorems make about the EVM.
 */
module AccountMachine {
  import opened Prelude
  import opened Evm
  import opened Database
  import opened Replay
  import opened BuilderTx
  import opened Placement
  import opened Peer

  /** Deposits always execute; any other transaction needs the current nonce, room in the block and funds. */
  function Transact(gasLimit: nat, baseFee: nat, w: World, tx: Tx): Outcome {
    var info := InfoAt(w, tx.signer).GetOr(NO_INFO);
    var gas := Min(tx.gasLimit, 21_000);
    if tx.kind == Deposit then
      Done(ExecResult(true, gas, 0), map[tx.signer := Updated(info.(nonce := info.nonce + 1), map[])])
    else if tx.nonce != info.nonce then Invalid(tx.nonce < info.nonce)
    else if tx.gasLimit > gasLimit || tx.maxFee < baseFee || info.balance < tx.gasLimit * tx.maxFee then Invalid(false)
    else
      var price := baseFee + EffectiveTip(tx, baseFee).GetOr(0);
      Done(ExecResult(true, gas, 0),
           map[tx.signer := Updated(AccountInfo(SatSub(info.balance, gas * price), info.nonce + 1, info.code), map[])])
  }

  function MachineEnv(gasLimit: nat, baseFee: nat, number: nat): Env {
    Env((w: World, tx: Tx) => Transact(gasLimit, baseFee, w, tx), gasLimit, baseFee, number, 0, true, true, true, false,
        (w: World) => 1, (w: World, b: map<Address, BundleAccount>) => |b| + 1,
        (a: Address, n: nat, g: nat) => n, (a: Address, n: nat, g: nat) => 100)
  }

  /** The machine at every gas limit. */
  function MachineChain(baseFee: nat, number: nat): Chain {
    (g: nat) => MachineEnv(g, baseFee, number)
  }

  lemma NonceMoves(gasLimit: nat, baseFee: nat, w: World, tx: Tx, a: Address)
    requires Transact(gasLimit, baseFee, w, tx).Done?
    ensures
      var next := ApplyChange(w, Transact(gasLimit, baseFee, w, tx).change);
      NonceAt(next, a) == NonceAt(w, a) + if tx.signer == a then 1 else 0
  {
    var change := Transact(gasLimit, baseFee, w, tx).change;
    assert a in change <==> a == tx.signer;
  }

  lemma MachineIsWellBehaved(gasLimit: nat, baseFee: nat, number: nat)
    ensures WellBehaved(MachineEnv(gasLimit, baseFee, number))
  {
    var env := MachineEnv(gasLimit, baseFee, number);
    forall w: World, tx: Tx ensures OutcomeOk(env, w, tx, env.transact(w, tx)) {
      if Transact(gasLimit, baseFee, w, tx).Done? {
        NonceMoves(gasLimit, baseFee, w, tx, tx.signer);
      }
    }
  }

  lemma MachineOwnsNonce(gasLimit: nat, baseFee: nat, number: nat, db0: Db, txs: seq<Tx>, a: Address)
    ensures OwnsNonce(MachineEnv(gasLimit, baseFee, number), db0, txs, a)
  {
    var env := MachineEnv(gasLimit, baseFee, number);
    forall i | 0 <= i < |txs| ensures MovesOwnNonce(env, ExecAll(env, db0, txs[..i]), txs[i], a) {
      var before := ExecAll(env, db0, txs[..i]);
      if before.Some? && env.transact(before.value.db.world, txs[i]).Done? {
        NonceMoves(gasLimit, baseFee, before.value.db.world, txs[i], a);
      }
    }
  }

  /** The gas limit only decides which transactions are admitted. */
  lemma MachineChainIsCoherent(gasLimit: nat, g: nat, baseFee: nat, number: nat, db0: Db, txs: seq<Tx>)
    ensures
      var chain, env := MachineChain(baseFee, number), MachineEnv(gasLimit, baseFee, number);
      Coherent(chain, env) && WellBehaved(chain(g))
          && (FitsGasLimit(txs, gasLimit) ==> LimitOnlyAdmits(env, chain(g), db0, txs))
  {
    MachineIsWellBehaved(g, baseFee, number);
  }

  /** The base transaction lands exactly if it fits into a block and its signer can pay for it. */
  lemma BaseLandsIffFunded(gasLimit: nat, baseFee: nat, number: nat, db: Db, a: Address)
    ensures
      var gas := EstimateGas(Message(number));
      BaseLands(MachineEnv(gasLimit, baseFee, number), db, a) <==>
        gas <= gasLimit && gas * baseFee <= InfoAt(db.world, a).GetOr(NO_INFO).balance
  {
  }
}
