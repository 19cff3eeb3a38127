/** Per-address gas rate limiting: token buckets created on first use and refilled once per block. */
module GasLimiter {
  import opened Prelude
  import opened Evm

  datatype Config = Config(maxGasPerAddress: nat, refillRatePerBlock: nat, cleanupInterval: nat)

  datatype Bucket = Bucket(capacity: nat, available: nat)

  /** Value of the limiter; a disabled limiter accepts everything. */
  datatype Limiter = Disabled | Enabled(config: Config, buckets: map<Address, Bucket>)

  function Opened(l: Limiter, a: Address): Bucket
    requires l.Enabled?
  {
    if a in l.buckets then l.buckets[a] else Bucket(l.config.maxGasPerAddress, l.config.maxGasPerAddress)
  }

  /** `consume_gas`: a refused request still leaves a bucket behind. */
  function Consume(l: Limiter, a: Address, gas: nat): (bool, Limiter) {
    if l.Disabled? then (true, l)
    else
      var b := Opened(l, a);
      if gas > b.available then (false, l.(buckets := l.buckets[a := b]))
      else (true, l.(buckets := l.buckets[a := b.(available := b.available - gas)]))
  }

  function Refilled(b: Bucket, rate: nat): Bucket {
    b.(available := Min(b.capacity, WrapAdd(b.available, rate)))
  }

  /** `is_multiple_of`: only zero is a multiple of zero. */
  predicate IsMultipleOf(n: nat, m: nat) {
    if m == 0 then n == 0 else n % m == 0
  }

  function RefilledAll(l: Limiter): map<Address, Bucket>
    requires l.Enabled?
  {
    map a | a in l.buckets :: Refilled(l.buckets[a], l.config.refillRatePerBlock)
  }

  /** The buckets when those in `pending` are still to be refilled. */
  function RefilledOutside(l: Limiter, pending: set<Address>): map<Address, Bucket>
    requires l.Enabled?
  {
    map a | a in l.buckets ::
      if a in pending then l.buckets[a] else Refilled(l.buckets[a], l.config.refillRatePerBlock)
  }

  lemma OneRefillMore(l: Limiter, pending: set<Address>, a: Address)
    requires l.Enabled? && a in pending && pending <= l.buckets.Keys
    ensures
      RefilledOutside(l, pending - {a}) ==
      RefilledOutside(l, pending)[a := Refilled(l.buckets[a], l.config.refillRatePerBlock)]
  {
  }

  function Refresh(l: Limiter, blockNumber: nat): Limiter {
    if l.Disabled? then l
    else
      var refilled := RefilledAll(l);
      if IsMultipleOf(blockNumber, l.config.cleanupInterval) then
        l.(buckets := map a | a in refilled && refilled[a].available <= refilled[a].capacity :: refilled[a])
      else
        l.(buckets := refilled)
  }

  /** The limiter object; `buckets` is shared and updated in place. */
  class AddressGasLimiter {
    const config: Option<Config>
    var buckets: map<Address, Bucket>

    function Val(): Limiter
      reads this
    {
      if config.None? then Disabled else Enabled(config.value, buckets)
    }

    constructor (config: Option<Config>)
      ensures Val() == if config.None? then Disabled else Enabled(config.value, map[])
    {
      this.config := config;
      buckets := map[];
    }

    method ConsumeGas(a: Address, gas: nat) returns (ok: bool)
      modifies this
      ensures (ok, Val()) == Consume(old(Val()), a, gas)
    {
      if config.None? {
        return true;
      }
      if a !in buckets {
        buckets := buckets[a := Bucket(config.value.maxGasPerAddress, config.value.maxGasPerAddress)];
      }
      var bucket := buckets[a];
      if gas > bucket.available {
        assert buckets == old(buckets)[a := bucket];
        return false;
      }
      buckets := buckets[a := bucket.(available := bucket.available - gas)];
      assert buckets == old(buckets)[a := bucket.(available := bucket.available - gas)];
      return true;
    }

    /** Refills every bucket and returns how many the cleanup removed. */
    method RefreshBlock(blockNumber: nat) returns (removed: int)
      modifies this
      ensures Val() == Refresh(old(Val()), blockNumber)
      ensures removed == |old(buckets)| - |buckets|
    {
      var active := |buckets|;
      if config.Some? {
        var rate := config.value.refillRatePerBlock;
        var pending := buckets.Keys;
        ghost var before := Val();
        while pending != {}
          invariant pending <= before.buckets.Keys
          invariant buckets == RefilledOutside(before, pending)
          decreases |pending|
        {
          var a :| a in pending;
          OneRefillMore(before, pending, a);
          pending := pending - {a};
          buckets := buckets[a := Refilled(buckets[a], rate)];
        }
        assert buckets == RefilledAll(before);
        if IsMultipleOf(blockNumber, config.value.cleanupInterval) {
          buckets := map a | a in buckets && buckets[a].available <= buckets[a].capacity :: buckets[a];
        }
      }
      removed := active - |buckets|;
    }
  }

  /* The lazily filled map behaves like a total function in which untouched addresses are full */

  /** What an address may still spend. Meaningless for a disabled limiter. */
  function Available(l: Limiter, a: Address): nat
    requires l.Enabled?
  {
    Opened(l, a).available
  }

  ghost predicate Valid(l: Limiter) {
    l.Enabled? ==>
      && l.config.maxGasPerAddress + l.config.refillRatePerBlock <= U64_MAX
      && forall a :: a in l.buckets ==> l.buckets[a].capacity == l.config.maxGasPerAddress >= l.buckets[a].available
  }

  lemma ConsumeRefinesTotal(l: Limiter, a: Address, gas: nat)
    requires Valid(l) && l.Enabled?
    ensures
      var (ok, l') := Consume(l, a, gas);
      && Valid(l') && l'.Enabled? && l'.config == l.config
      && (ok <==> gas <= Available(l, a))
      && Available(l', a) == Available(l, a) - (if ok then gas else 0)
      && (forall b :: b != a ==> Available(l', b) == Available(l, b))
      && l'.buckets.Keys == l.buckets.Keys + {a}
  {
  }

  /** In a new limiter, every address has the full amount. */
  lemma NewLimiterIsFull(config: Config, a: Address)
    ensures Available(Enabled(config, map[]), a) == config.maxGasPerAddress
  {
  }

  /** The cleanup condition holds of every bucket, so no bucket is ever dropped: a refresh is a refill. */
  lemma CleanupRemovesNothing(l: Limiter, blockNumber: nat)
    requires l.Enabled?
    ensures Refresh(l, blockNumber) == l.(buckets := RefilledAll(l))
  {
    var refilled := RefilledAll(l);
    assert refilled == map a | a in refilled && refilled[a].available <= refilled[a].capacity :: refilled[a];
  }

  /**
    A refresh adds the refill rate up to the cap for every address, whether or not it has a bucket
    and whether or not this block cleans up.
   */
  lemma RefreshRefinesTotal(l: Limiter, blockNumber: nat)
    requires Valid(l) && l.Enabled?
    ensures
      var l' := Refresh(l, blockNumber);
      && Valid(l') && l'.Enabled? && l'.config == l.config
      && forall a :: Available(l', a) == Min(l.config.maxGasPerAddress, Available(l, a) + l.config.refillRatePerBlock)
  {
    CleanupRemovesNothing(l, blockNumber);
  }

  /**
    Refilling never takes gas away from a bucket within its capacity, if and only if capacity plus
    refill rate fits in 64 bits.
   */
  lemma RefillIsMonotoneIff(capacity: nat, rate: nat)
    requires capacity <= U64_MAX && rate <= U64_MAX
    ensures (forall available: nat :: available <= capacity ==>
               available <= Refilled(Bucket(capacity, available), rate).available)
       <==> capacity + rate <= U64_MAX
  {
    if capacity + rate > U64_MAX {
      WrapsOnce(capacity, rate);
      assert Refilled(Bucket(capacity, capacity), rate).available < capacity;
    }
  }

  /* Whole runs */

  datatype Event = Charge(address: Address, gas: nat) | NewBlock(number: nat)

  /** The limiter after a run of events. */
  function After(l: Limiter, events: seq<Event>): Limiter {
    if events == [] then l
    else
      var before := After(l, events[..|events| - 1]);
      match events[|events| - 1]
      case Charge(a, gas) => Consume(before, a, gas).1
      case NewBlock(n) => Refresh(before, n)
  }

  /** Gas accepted for one address over a run. */
  function Accepted(l: Limiter, events: seq<Event>, a: Address): nat {
    if events == [] then 0
    else
      var prefix := events[..|events| - 1];
      var last := events[|events| - 1];
      Accepted(l, prefix, a) +
      if last.Charge? && last.address == a && Consume(After(l, prefix), a, last.gas).0 then last.gas else 0
  }

  function Blocks(events: seq<Event>): nat {
    if events == [] then 0
    else Blocks(events[..|events| - 1]) + if events[|events| - 1].NewBlock? then 1 else 0
  }

  /** Gas refilled over a run if no bucket ever hits its cap. */
  function Refills(rate: nat, events: seq<Event>): nat {
    Blocks(events) * rate
  }

  lemma RefillsStep(rate: nat, events: seq<Event>)
    requires events != []
    ensures Refills(rate, events) ==
            Refills(rate, events[..|events| - 1]) + if events[|events| - 1].NewBlock? then rate else 0
  {
  }

  /**
    Over any run, an address never gets more gas accepted than it had available at the start plus
    one refill per block; starting from an empty limiter that is max_gas + r * refill.
   */
  lemma {:induction false} AcceptedGasIsBounded(l: Limiter, events: seq<Event>, a: Address)
    requires Valid(l) && l.Enabled?
    ensures After(l, events).Enabled? && Valid(After(l, events)) && After(l, events).config == l.config
    ensures Accepted(l, events, a) + Available(After(l, events), a)
         <= Available(l, a) + Refills(l.config.refillRatePerBlock, events)
  {
    if events != [] {
      var prefix := events[..|events| - 1];
      AcceptedGasIsBounded(l, prefix, a);
      RefillsStep(l.config.refillRatePerBlock, events);
      match events[|events| - 1]
      case Charge(b, gas) => ConsumeRefinesTotal(After(l, prefix), b, gas);
      case NewBlock(n) => RefreshRefinesTotal(After(l, prefix), n);
    }
  }
}
