/** Pool transactions and the iterator that offers them to one flashblock after another. */
module BestTxs {
  import opened Prelude
  import opened Evm

  /** Block-level conditions attached to a pool transaction; bounds are inclusive. */
  datatype Conditional = Conditional(blockMin: Option<nat>, blockMax: Option<nat>,
                                     timeMin: Option<nat>, timeMax: Option<nat>)

  predicate Within(lo: Option<nat>, hi: Option<nat>, n: nat) {
    (lo.Some? ==> lo.value <= n) && (hi.Some? ==> n <= hi.value)
  }

  predicate Matches(c: Conditional, number: nat, timestamp: nat) {
    Within(c.blockMin, c.blockMax, number) && Within(c.timeMin, c.timeMax, timestamp)
  }

  /**
    A pool transaction. `reverting` is present exactly for bundles and lists the hashes allowed to
    revert; `interopExpired` is the answer of the interop deadline check.
   */
  datatype PoolTx = PoolTx(tx: Recovered, reverting: Option<set<Hash>>, flashMin: Option<nat>, flashMax: Option<nat>,
                           conditional: Option<Conditional>, interopExpired: bool)

  /** Value of the iterator: what the pool still has to offer, in order, and the senders it must skip. */
  datatype Best = Best(pool: seq<PoolTx>, invalid: set<Address>, flashblock: nat, committed: set<Hash>) {

    function MarkInvalid(sender: Address): Best {
      this.(invalid := invalid + {sender})
    }

    /** The flashblock has passed the transaction's maximum. */
    predicate Expired(p: PoolTx) {
      && p.tx.hash !in committed
      && (p.flashMin.Some? ==> p.flashMin.value <= flashblock)
      && p.flashMax.Some? && p.flashMax.value < flashblock
    }

    predicate Offers(p: PoolTx) {
      p.tx.signer !in invalid && p.tx.hash !in committed && Within(p.flashMin, p.flashMax, flashblock)
    }

    /** The iterator's `next`, one pool transaction at a time. */
    function Next(): (r: (Option<PoolTx>, Best))
      ensures r.0.Some? ==> |r.1.pool| < |pool|
      ensures r.1.flashblock == flashblock && r.1.committed == committed
      decreases |pool|
    {
      if pool == [] then (None, this)
      else
        var p := pool[0];
        var rest := this.(pool := pool[1..]);
        if Offers(p) then (Some(p), rest)
        else if p.tx.signer !in invalid && Expired(p) then rest.MarkInvalid(p.tx.signer).Next()
        else rest.Next()
    }
  }

  /** What `next` does with a pool transaction of a valid sender that has just been taken. */
  function ResumeWith(rest: Best, p: PoolTx): (Option<PoolTx>, Best) {
    if rest.Offers(p) then (Some(p), rest)
    else if rest.Expired(p) then rest.MarkInvalid(p.tx.signer).Next()
    else rest.Next()
  }

  /** The iterator object. */
  class BestFlashblocksTxs {
    var pool: seq<PoolTx>
    var invalid: set<Address>
    var currentFlashblock: nat
    var committed: set<Hash>

    function Val(): Best
      reads this
    {
      Best(pool, invalid, currentFlashblock, committed)
    }

    constructor (inner: seq<PoolTx>)
      ensures Val() == Best(inner, {}, 0, {})
    {
      pool, invalid, currentFlashblock, committed := inner, {}, 0, {};
    }

    /** A new flashblock starts over on a fresh view of the pool; only the committed hashes are kept. */
    method RefreshIterator(inner: seq<PoolTx>, flashblock: nat)
      modifies this
      ensures Val() == Best(inner, {}, flashblock, old(committed))
    {
      pool, invalid, currentFlashblock := inner, {}, flashblock;
    }

    method MarkCommitted(hashes: seq<Hash>)
      modifies this
      ensures Val() == old(Val()).(committed := old(committed) + set h | h in hashes)
    {
      committed := committed + set h | h in hashes;
    }

    method MarkInvalid(sender: Address)
      modifies this
      ensures Val() == old(Val()).MarkInvalid(sender)
    {
      invalid := invalid + {sender};
    }

    /** The inner iterator: skips senders marked invalid. */
    method InnerNext() returns (p: Option<PoolTx>)
      modifies this
      ensures p.Some? ==> |pool| < |old(pool)| && p.value.tx.signer !in invalid
      ensures invalid == old(invalid) && currentFlashblock == old(currentFlashblock) && committed == old(committed)
      ensures p.None? ==> Val().Next() == old(Val()).Next() && pool == []
      ensures p.Some? ==> old(Val()).Next() == ResumeWith(Val(), p.value)
    {
      while pool != []
        invariant |pool| <= |old(pool)|
        invariant invalid == old(invalid) && currentFlashblock == old(currentFlashblock) && committed == old(committed)
        invariant Val().Next() == old(Val()).Next()
        decreases |pool|
      {
        var first := pool[0];
        pool := pool[1..];
        if first.tx.signer !in invalid {
          return Some(first);
        }
      }
      return None;
    }

    method NextTx() returns (p: Option<PoolTx>)
      modifies this
      ensures (p, Val()) == old(Val()).Next()
    {
      while true
        invariant Val().Next() == old(Val()).Next()
        decreases |pool|
      {
        p := InnerNext();
        if p.None? {
          return;
        }
        var tx := p.value;
        if tx.tx.hash in committed {
          continue;
        }
        if tx.flashMin.Some? && currentFlashblock < tx.flashMin.value {
          continue;
        }
        if tx.flashMax.Some? && currentFlashblock > tx.flashMax.value {
          MarkInvalid(tx.tx.signer);
          continue;
        }
        return;
      }
    }
  }

  /* Draining the iterator */

  /** Everything the iterator yields when the consumer rejects nothing. */
  function Drain(b: Best): seq<PoolTx>
    decreases |b.pool|
  {
    var (p, rest) := b.Next();
    if p.None? then [] else [p.value] + Drain(rest)
  }

  /** Not yet in the block, and past the last flashblock it may go into. */
  predicate TooLate(p: PoolTx, flashblock: nat, committed: set<Hash>) {
    && p.tx.hash !in committed && p.flashMax.Some? && p.flashMax.value < flashblock
    && (p.flashMin.Some? ==> p.flashMin.value <= flashblock)
  }

  /**
    The j-th pool transaction is yielded in this pass: its sender is valid, it is uncommitted, its range contains the
    flashblock, and no earlier transaction of the same sender is too late for it.
   */
  predicate Yielded(b: Best, j: nat)
    requires j < |b.pool|
  {
    var p := b.pool[j];
    && p.tx.signer !in b.invalid && p.tx.hash !in b.committed
    && (p.flashMin.Some? ==> p.flashMin.value <= b.flashblock)
    && (p.flashMax.Some? ==> b.flashblock <= p.flashMax.value)
    && forall i :: 0 <= i < j && TooLate(b.pool[i], b.flashblock, b.committed) ==> b.pool[i].tx.signer != p.tx.signer
  }

  /** The yielded transactions among the first n, in pool order. */
  function YieldedUpTo(b: Best, n: nat): seq<PoolTx>
    requires n <= |b.pool|
  {
    if n == 0 then [] else YieldedUpTo(b, n - 1) + if Yielded(b, n - 1) then [b.pool[n - 1]] else []
  }

  function ExpiredSenders(b: Best, n: nat): set<Address>
    requires n <= |b.pool|
  {
    set i | 0 <= i < n && TooLate(b.pool[i], b.flashblock, b.committed) :: b.pool[i].tx.signer
  }

  /** The state of a pass that has consumed the first n pool transactions. */
  function Consumed(b: Best, n: nat): Best
    requires n <= |b.pool|
  {
    b.(pool := b.pool[n..], invalid := b.invalid + ExpiredSenders(b, n))
  }

  lemma ConsumedStep(b: Best, n: nat)
    requires n < |b.pool|
    ensures
      var s := Consumed(b, n);
      var rest := s.(pool := s.pool[1..]);
      && s.pool[0] == b.pool[n]
      && (s.Offers(b.pool[n]) <==> Yielded(b, n))
      && Consumed(b, n + 1) ==
         if b.pool[n].tx.signer !in s.invalid && s.Expired(b.pool[n])
         then rest.MarkInvalid(b.pool[n].tx.signer) else rest
  {
    var s := Consumed(b, n);
    var p := b.pool[n];
    var late := TooLate(p, b.flashblock, b.committed);
    assert ExpiredSenders(b, n + 1) == ExpiredSenders(b, n) + if late then {p.tx.signer} else {};
    assert s.pool[1..] == b.pool[n + 1..];
  }

  lemma DrainStep(b: Best, n: nat)
    requires n < |b.pool|
    ensures Drain(Consumed(b, n)) == (if Yielded(b, n) then [b.pool[n]] else []) + Drain(Consumed(b, n + 1))
  {
    ConsumedStep(b, n);
    if !Yielded(b, n) {
      assert Consumed(b, n).Next() == Consumed(b, n + 1).Next();
      assert [] + Drain(Consumed(b, n + 1)) == Drain(Consumed(b, n + 1));
    }
  }

  lemma {:induction false} DrainFrom(b: Best, n: nat)
    requires n <= |b.pool|
    ensures YieldedUpTo(b, n) + Drain(Consumed(b, n)) == YieldedUpTo(b, |b.pool|)
    decreases |b.pool| - n
  {
    if n < |b.pool| {
      DrainStep(b, n);
      DrainFrom(b, n + 1);
      var one := if Yielded(b, n) then [b.pool[n]] else [];
      ConcatAssociates(YieldedUpTo(b, n), one, Drain(Consumed(b, n + 1)));
    }
  }

  /**
    Draining the iterator yields, in pool order, exactly the uncommitted transactions whose range
    contains the flashblock and whose sender has no earlier expired transaction in the pass.
   */
  lemma DrainYieldsExactly(b: Best)
    ensures Drain(b) == YieldedUpTo(b, |b.pool|)
  {
    assert ExpiredSenders(b, 0) == {};
    assert Consumed(b, 0) == b;
    DrainFrom(b, 0);
  }

  /** Whatever the consumer marks invalid, a yielded transaction is from the pool, uncommitted and in range. */
  lemma {:induction false} NextIsOffered(b: Best)
    requires b.Next().0.Some?
    ensures b.Next().0.value in b.pool && b.Offers(b.Next().0.value)
    ensures forall p :: p in b.Next().1.pool ==> p in b.pool
    ensures b.invalid <= b.Next().1.invalid
    decreases |b.pool|
  {
    var p := b.pool[0];
    var rest := b.(pool := b.pool[1..]);
    if !b.Offers(p) {
      if p.tx.signer !in b.invalid && b.Expired(p) {
        NextIsOffered(rest.MarkInvalid(p.tx.signer));
      } else {
        NextIsOffered(rest);
      }
    }
  }
}
