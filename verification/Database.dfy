/**
  The in-memory state database: the visible world, the transitions collected since the block started,
  and the bundle that merging turns them into. `Db` is its value; `StateDb` is the object the builder
  updates in place.
 */
module Database {
  import opened Prelude
  import opened Evm

  datatype Bundle = Bundle(state: map<Address, BundleAccount>, reverts: seq<map<Address, Revert>>)

  const EMPTY_BUNDLE := Bundle(map[], [])

  datatype Db = Db(parent: World, world: World, status: map<Address, Status>,
                   transitions: map<Address, Transition>, bundle: Bundle)

  function FreshDb(parent: World): Db {
    Db(parent, parent, map[], map[], EMPTY_BUNDLE)
  }

  function StatusAt(db: Db, a: Address): Status {
    if a in db.status then db.status[a] else Loaded
  }

  predicate WasDestroyed(s: Status) {
    s == Destroyed || s == DestroyedChanged
  }

  /** An account that neither the parent state nor this block has ever seen. */
  predicate NeverExisted(db: Db, a: Address) {
    StatusAt(db, a) == Loaded && a !in db.world
  }

  /* Committing the result of one execution */

  function NextStatus(db: Db, a: Address, t: Touch): Status {
    var s := StatusAt(db, a);
    if t.Live() then (if WasDestroyed(s) then DestroyedChanged else Changed)
    else if NeverExisted(db, a) then Loaded
    else Destroyed
  }

  function TransitionOf(db: Db, a: Address, t: Touch): Option<Transition> {
    var previous := InfoAt(db.world, a);
    if t.Live() then Some(Transition(Some(t.info), NextStatus(db, a, t), previous, t.writes))
    else if NeverExisted(db, a) || (t.TouchedEmpty? && StatusAt(db, a) == Destroyed) then None
    else Some(Transition(None, Destroyed, previous, map[]))
  }

  /** Later writes replace earlier ones; a slot that is back at its original value is dropped. */
  function MergeWrites(older: map<Slot, Write>, newer: map<Slot, Write>): map<Slot, Write> {
    map s | s in older.Keys + newer.Keys && !(s in older && s in newer && older[s].original == newer[s].present) ::
      if s in newer then Write(if s in older then older[s].original else newer[s].original, newer[s].present)
      else older[s]
  }

  function UpdateTransition(older: Transition, newer: Transition): Transition {
    Transition(newer.info, newer.status, older.previousInfo,
               if newer.status == Destroyed then newer.storage else MergeWrites(older.storage, newer.storage))
  }

  function NextTransition(db: Db, ch: Change, a: Address): Option<Transition> {
    var older := if a in db.transitions then Some(db.transitions[a]) else None;
    if a !in ch then older
    else
      match TransitionOf(db, a, ch[a])
      case None => older
      case Some(newer) => Some(if older.Some? then UpdateTransition(older.value, newer) else newer)
  }

  function StatusesAfter(db: Db, ch: Change): map<Address, Status> {
    map a | a in db.status.Keys + ch.Keys :: if a in ch then NextStatus(db, a, ch[a]) else db.status[a]
  }

  function TransitionsAfter(db: Db, ch: Change): map<Address, Transition> {
    map a | a in db.transitions.Keys + ch.Keys && NextTransition(db, ch, a).Some? :: NextTransition(db, ch, a).value
  }

  function Commit(db: Db, ch: Change): Db {
    Db(db.parent, ApplyChange(db.world, ch), StatusesAfter(db, ch), TransitionsAfter(db, ch), db.bundle)
  }

  /* Committing one account at a time */

  function TouchedWorld(w: World, a: Address, t: Touch): World {
    if t.Live() then w[a := TouchedAccount(w, a, t)] else w - {a}
  }

  function TouchedTransitions(db: Db, a: Address, t: Touch): map<Address, Transition> {
    match TransitionOf(db, a, t)
    case None => db.transitions
    case Some(newer) =>
      db.transitions[a := if a in db.transitions then UpdateTransition(db.transitions[a], newer) else newer]
  }

  function CommitAccount(db: Db, a: Address, t: Touch): Db {
    Db(db.parent, TouchedWorld(db.world, a, t), db.status[a := NextStatus(db, a, t)], TouchedTransitions(db, a, t),
        db.bundle)
  }

  /** Accounts do not influence each other. */
  lemma UntouchedAccount(db: Db, ch: Change, a: Address)
    requires a !in ch
    ensures
      var next := Commit(db, ch);
      && (a in next.world <==> a in db.world) && (a in db.world ==> next.world[a] == db.world[a])
      && StatusAt(next, a) == StatusAt(db, a)
      && (a in next.transitions <==> a in db.transitions)
      && (a in db.transitions ==> next.transitions[a] == db.transitions[a])
  {
  }

  lemma TouchOneMoreAt(w: World, ch: Change, a: Address, t: Touch, x: Address)
    requires a !in ch
    ensures Get(ApplyChange(w, ch[a := t]), x) == Get(TouchedWorld(ApplyChange(w, ch), a, t), x)
  {
    var older := ApplyChange(w, ch);
    assert a in older <==> a in w;
    assert t.Live() ==> TouchedAccount(older, a, t) == TouchedAccount(w, a, t);
  }

  lemma TouchOneMore(w: World, ch: Change, a: Address, t: Touch)
    requires a !in ch
    ensures ApplyChange(w, ch[a := t]) == TouchedWorld(ApplyChange(w, ch), a, t)
  {
    forall x ensures Get(ApplyChange(w, ch[a := t]), x) == Get(TouchedWorld(ApplyChange(w, ch), a, t), x) {
      TouchOneMoreAt(w, ch, a, t, x);
    }
    SameMaps(ApplyChange(w, ch[a := t]), TouchedWorld(ApplyChange(w, ch), a, t));
  }

  lemma StatusOneMore(db: Db, ch: Change, a: Address, t: Touch)
    requires a !in ch
    ensures StatusesAfter(db, ch[a := t]) == StatusesAfter(db, ch)[a := NextStatus(Commit(db, ch), a, t)]
  {
    UntouchedAccount(db, ch, a);
  }

  lemma GetTransition(db: Db, ch: Change, x: Address)
    ensures Get(TransitionsAfter(db, ch), x) == NextTransition(db, ch, x)
  {
  }

  lemma TransitionOneMoreAt(db: Db, ch: Change, a: Address, t: Touch, x: Address)
    requires a !in ch
    ensures Get(TransitionsAfter(db, ch[a := t]), x) == Get(TouchedTransitions(Commit(db, ch), a, t), x)
  {
    GetTransition(db, ch[a := t], x);
    GetTransition(db, ch, x);
    UntouchedAccount(db, ch, a);
    assert TransitionOf(Commit(db, ch), a, t) == TransitionOf(db, a, t);
  }

  lemma TransitionOneMore(db: Db, ch: Change, a: Address, t: Touch)
    requires a !in ch
    ensures TransitionsAfter(db, ch[a := t]) == TouchedTransitions(Commit(db, ch), a, t)
  {
    forall x ensures Get(TransitionsAfter(db, ch[a := t]), x) == Get(TouchedTransitions(Commit(db, ch), a, t), x) {
      TransitionOneMoreAt(db, ch, a, t, x);
    }
    SameMaps(TransitionsAfter(db, ch[a := t]), TouchedTransitions(Commit(db, ch), a, t));
  }

  /** One more account is one more entry of the change. */
  lemma CommitOneMore(db: Db, ch: Change, a: Address, t: Touch)
    requires a !in ch
    ensures Commit(db, ch[a := t]) == CommitAccount(Commit(db, ch), a, t)
  {
    TouchOneMore(db.world, ch, a, t);
    StatusOneMore(db, ch, a, t);
    TransitionOneMore(db, ch, a, t);
  }

  lemma CommitNothing(db: Db)
    ensures Commit(db, map[]) == db
  {
    assert ApplyChange(db.world, map[]) == db.world;
    assert StatusesAfter(db, map[]) == db.status;
    assert TransitionsAfter(db, map[]) == db.transitions;
  }

  /** The entries of a change outside `pending`. */
  function Applied(ch: Change, pending: set<Address>): Change {
    map a | a in ch && a !in pending :: ch[a]
  }

  lemma AppliedOneMore(ch: Change, pending: set<Address>, a: Address)
    requires a in pending && pending <= ch.Keys
    ensures Applied(ch, pending - {a}) == Applied(ch, pending)[a := ch[a]]
  {
  }

  /* Merging transitions into the bundle */

  /** Merging leaves out an account that ends up as it began, including one created and destroyed in the block. */
  predicate NetChange(t: Transition) {
    match t.status
    case Loaded => false
    case Changed => t.info != t.previousInfo || t.storage != map[]
    case Destroyed => t.previousInfo.Some?
    case DestroyedChanged => true
  }

  function MergeAccount(older: Option<BundleAccount>, t: Transition): BundleAccount {
    match older
    case None => BundleAccount(t.info, t.previousInfo, t.storage, t.status)
    case Some(b) =>
      var wiped := t.status == Destroyed || (WasDestroyed(t.status) && !WasDestroyed(b.status));
      BundleAccount(t.info, b.originalInfo, if wiped then t.storage else MergeWrites(b.storage, t.storage), t.status)
  }

  function RevertOf(t: Transition): Revert {
    Revert(t.previousInfo, map s | s in t.storage :: t.storage[s].original)
  }

  function MergeInto(b: Bundle, ts: map<Address, Transition>): Bundle {
    Bundle(map a | a in b.state.Keys + ts.Keys && (a in b.state || NetChange(ts[a])) ::
             if a in ts then MergeAccount(if a in b.state then Some(b.state[a]) else None, ts[a]) else b.state[a],
           b.reverts + [map a | a in ts && NetChange(ts[a]) :: RevertOf(ts[a])])
  }

  function MergeTransitions(db: Db): Db {
    db.(transitions := map[], bundle := MergeInto(db.bundle, db.transitions))
  }

  /** The mutable database. */
  class StateDb {
    const parent: World
    var world: World
    var status: map<Address, Status>
    var transitions: map<Address, Transition>
    var bundle: Bundle

    function Val(): Db
      reads this
    {
      Db(parent, world, status, transitions, bundle)
    }

    constructor (parent: World)
      ensures Val() == FreshDb(parent)
    {
      this.parent := parent;
      world, status, transitions, bundle := parent, map[], map[], EMPTY_BUNDLE;
    }

    /** A copy that sees the same world but collects its own transitions. */
    constructor Simulation(original: StateDb)
      ensures Val() == original.Val().(transitions := map[], bundle := EMPTY_BUNDLE)
    {
      this.parent := original.parent;
      world, status, transitions, bundle := original.world, original.status, map[], EMPTY_BUNDLE;
    }

    /** Applies the touched accounts one after the other, in any order. */
    method CommitChange(ch: Change)
      modifies this
      ensures Val() == Commit(old(Val()), ch)
    {
      ghost var before := Val();
      var pending := ch.Keys;
      assert Applied(ch, pending) == map[];
      CommitNothing(before);
      while pending != {}
        invariant pending <= ch.Keys
        invariant Val() == Commit(before, Applied(ch, pending))
        decreases |pending|
      {
        var a :| a in pending;
        AppliedOneMore(ch, pending, a);
        CommitOneMore(before, Applied(ch, pending), a, ch[a]);
        pending := pending - {a};
        ApplyTouch(a, ch[a]);
      }
      assert Applied(ch, {}) == ch;
    }

    /** The account's entry in the cache, and the transition it makes. */
    method ApplyTouch(a: Address, t: Touch)
      modifies this
      ensures Val() == CommitAccount(old(Val()), a, t)
    {
      var transition := TransitionOf(Val(), a, t);
      var next := NextStatus(Val(), a, t);
      if t.Live() {
        world := world[a := TouchedAccount(world, a, t)];
      } else {
        world := world - {a};
      }
      status := status[a := next];
      if transition.Some? {
        if a in transitions {
          transitions := transitions[a := UpdateTransition(transitions[a], transition.value)];
        } else {
          transitions := transitions[a := transition.value];
        }
      }
    }

    method Merge()
      modifies this
      ensures Val() == MergeTransitions(old(Val()))
    {
      bundle := MergeInto(bundle, transitions);
      transitions := map[];
    }

    method TakeBundle() returns (b: Bundle)
      modifies this
      ensures b == old(bundle)
      ensures Val() == old(Val()).(bundle := EMPTY_BUNDLE)
    {
      b := bundle;
      bundle := EMPTY_BUNDLE;
    }
  }
}
