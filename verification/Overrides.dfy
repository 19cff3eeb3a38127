/**
  State overrides sent to the sidecar: JSON-RPC overrides that turn the parent state into the state
  the builder has reached in the middle of a block.
 */
module Overrides {
  import opened Prelude
  import opened Evm
  import opened Database

  /** One entry of the override object; an absent JSON key is `None`. */
  datatype Override = Override(balance: Option<nat>, nonce: Option<nat>, code: Option<Code>,
                               state: Option<map<Slot, Word>>, stateDiff: Option<map<Slot, Word>>)

  const WIPED := Override(Some(0), Some(0), Some(0), Some(map[]), None)

  /* What the transitions record */

  /** The record of one account: how its transition relates the parent state to the visible world. */
  ghost predicate TracksAt(db: Db, a: Address) {
    var st := StatusAt(db, a);
    if a !in db.transitions then
      && st == Loaded
      && InfoAt(db.world, a) == InfoAt(db.parent, a)
      && forall s :: SlotAt(db.world, a, s) == SlotAt(db.parent, a, s)
    else
      var t := db.transitions[a];
      && t.status == st != Loaded
      && t.info == InfoAt(db.world, a)
      && t.previousInfo == InfoAt(db.parent, a)
      && (st == Destroyed <==> t.info.None?)
      && (t.info.Some? ==> !t.info.value.Empty())
      && forall s :: SlotTracked(db, t, a, s)
  }

  /** What a slot held before the block's writes to it: nothing if the account was destroyed in the block. */
  function BaseSlot(db: Db, st: Status, a: Address, s: Slot): Word {
    if WasDestroyed(st) then 0 else SlotAt(db.parent, a, s)
  }

  ghost predicate SlotTracked(db: Db, t: Transition, a: Address, s: Slot) {
    if s in t.storage then t.storage[s] == Write(BaseSlot(db, t.status, a, s), SlotAt(db.world, a, s))
    else BaseSlot(db, t.status, a, s) == SlotAt(db.world, a, s)
  }

  ghost predicate Tracks(db: Db) {
    forall a :: TracksAt(db, a)
  }

  lemma FreshTracks(parent: World)
    ensures Tracks(FreshDb(parent))
  {
  }

  /** Every commit of an EVM result keeps the record exact. */
  lemma CommitTracks(db: Db, ch: Change)
    requires Tracks(db) && ChangeFits(db.world, ch)
    ensures Tracks(Commit(db, ch))
  {
    forall a ensures TracksAt(Commit(db, ch), a) {
      assert TracksAt(db, a);
      if a in ch {
        assert TouchFits(db.world, a, ch[a]);
        if ch[a].Live() {
          LiveTouchTracks(db, ch, a);
        } else {
          DeadTouchTracks(db, ch, a);
        }
      } else {
        UntouchedTracks(db, ch, a);
      }
    }
  }

  lemma UntouchedTracks(db: Db, ch: Change, a: Address)
    requires TracksAt(db, a) && a !in ch
    ensures TracksAt(Commit(db, ch), a)
  {
    var next := Commit(db, ch);
    assert forall s :: SlotAt(next.world, a, s) == SlotAt(db.world, a, s);
    if a in db.transitions {
      forall s ensures SlotTracked(next, next.transitions[a], a, s) {
        assert SlotTracked(db, db.transitions[a], a, s);
      }
    }
  }

  lemma DeadTouchTracks(db: Db, ch: Change, a: Address)
    requires TracksAt(db, a) && a in ch && !ch[a].Live()
    ensures TracksAt(Commit(db, ch), a)
  {
    var next := Commit(db, ch);
    assert a !in next.world;
    if a in next.transitions {
      forall s ensures SlotTracked(next, next.transitions[a], a, s) {
        assert a in db.transitions ==> SlotTracked(db, db.transitions[a], a, s);
      }
    }
  }

  lemma LiveTouchTracks(db: Db, ch: Change, a: Address)
    requires TracksAt(db, a) && a in ch && ch[a].Live() && TouchFits(db.world, a, ch[a])
    ensures TracksAt(Commit(db, ch), a)
  {
    var next := Commit(db, ch);
    var t := next.transitions[a];
    assert next.world[a] == TouchedAccount(db.world, a, ch[a]);
    forall s ensures SlotTracked(next, t, a, s) {
      LiveSlotTracked(db, ch, a, s);
    }
  }

  /** What a commit records for a touched account that stays alive. */
  lemma LiveTransition(db: Db, ch: Change, a: Address)
    requires TracksAt(db, a) && a in ch && ch[a].Live()
    ensures
      var next := Commit(db, ch);
      && a in next.transitions && next.parent == db.parent
      && next.transitions[a].status == (if WasDestroyed(StatusAt(db, a)) then DestroyedChanged else Changed)
      && next.transitions[a].storage ==
         (if a in db.transitions then MergeWrites(db.transitions[a].storage, ch[a].writes) else ch[a].writes)
  {
  }

  lemma LiveSlotTracked(db: Db, ch: Change, a: Address, s: Slot)
    requires TracksAt(db, a) && a in ch && ch[a].Live() && TouchFits(db.world, a, ch[a])
    ensures a in Commit(db, ch).transitions && SlotTracked(Commit(db, ch), Commit(db, ch).transitions[a], a, s)
  {
    LiveTransition(db, ch, a);
    assert Commit(db, ch).world[a] == TouchedAccount(db.world, a, ch[a]);
    assert SlotAt(Commit(db, ch).world, a, s) ==
           if s in ch[a].writes then ch[a].writes[s].present else SlotAt(db.world, a, s);
    if a in db.transitions {
      assert SlotTracked(db, db.transitions[a], a, s);
      MergedWrite(db.transitions[a].storage, ch[a].writes, s);
    }
  }

  lemma MergedWrite(older: map<Slot, Write>, newer: map<Slot, Write>, s: Slot)
    ensures
      var merged := MergeWrites(older, newer);
      if s !in newer then (s in merged <==> s in older) && (s in older ==> merged[s] == older[s])
      else if s !in older then s in merged && merged[s] == newer[s]
      else if older[s].original == newer[s].present then s !in merged
      else s in merged && merged[s] == Write(older[s].original, newer[s].present)
  {
  }

  /* The bundle */

  /** What a node reads for an account when it lays a bundle over the parent state. */
  function BundledInfo(parent: World, bundle: Bundle, a: Address): Option<AccountInfo> {
    if a in bundle.state then bundle.state[a].info else InfoAt(parent, a)
  }

  function BundledSlot(parent: World, bundle: Bundle, a: Address, s: Slot): Word {
    if a !in bundle.state then SlotAt(parent, a, s)
    else if s in bundle.state[a].storage then bundle.state[a].storage[s].present
    else if WasDestroyed(bundle.state[a].status) then 0
    else SlotAt(parent, a, s)
  }

  /** The bundle merged from an exact record, laid over the parent state, is the world the builder sees. */
  lemma MergedBundleIsTheWorld(db: Db, a: Address, s: Slot)
    requires Tracks(db) && db.bundle == EMPTY_BUNDLE
    ensures
      var bundle := MergeTransitions(db).bundle;
      BundledInfo(db.parent, bundle, a) == InfoAt(db.world, a)
          && BundledSlot(db.parent, bundle, a, s) == SlotAt(db.world, a, s)
  {
    assert TracksAt(db, a);
    if a in db.transitions {
      assert SlotTracked(db, db.transitions[a], a, s);
    }
  }

  /**
    What the merged bundle holds: the accounts whose info or storage changed, or that were destroyed and re-created, and
    no others; and what it remembers of the parent state for them, to be restored.
   */
  lemma MergedBundleRemembersTheParent(db: Db, a: Address, s: Slot)
    requires Tracks(db) && db.bundle == EMPTY_BUNDLE
    ensures
      var bundle := MergeTransitions(db).bundle;
      && |bundle.reverts| == 1 && (a in bundle.reverts[0] <==> a in bundle.state)
      && (a in bundle.state <==>
            && a in db.transitions
            && (|| InfoAt(db.parent, a) != InfoAt(db.world, a) || StatusAt(db, a) == DestroyedChanged
                || (StatusAt(db, a) == Changed && db.transitions[a].storage != map[])))
      && (a in bundle.state ==>
            var (account, undo) := (bundle.state[a], bundle.reverts[0][a]);
            && account.originalInfo == undo.info == InfoAt(db.parent, a)
            && (s in account.storage <==> s in undo.slots)
            && (s in undo.slots ==>
                  account.storage[s].original == undo.slots[s] ==
                  if WasDestroyed(account.status) then 0 else SlotAt(db.parent, a, s)))
  {
    assert TracksAt(db, a);
    if a in db.transitions {
      assert SlotTracked(db, db.transitions[a], a, s);
    }
  }

  /** The bundle's record of a slot starts from what its account began with. */
  predicate OriginalFits(parent: World, b: Bundle, a: Address, s: Slot) {
    a in b.state && s in b.state[a].storage ==>
      b.state[a].storage[s].original == if WasDestroyed(b.state[a].status) then 0 else SlotAt(parent, a, s)
  }

  /** A transition of `a` goes on from the bundle: destruction is not forgotten. */
  predicate GoesOnFrom(b: Bundle, t: Transition, a: Address) {
    a in b.state && WasDestroyed(b.state[a].status) ==> WasDestroyed(t.status)
  }

  /** Whether a transition of `a` destroys what the bundle shows of it. */
  predicate Wipes(b: Bundle, t: Transition, a: Address) {
    t.status == Destroyed || (t.status == DestroyedChanged && !(a in b.state && WasDestroyed(b.state[a].status)))
  }

  /**
    Merging into any bundle, laid over the parent state: an account shows what its transition says, a slot what the
    transition wrote; the rest is as before, or gone if the account was destroyed.
   */
  lemma MergeLaysOver(parent: World, b: Bundle, ts: map<Address, Transition>, a: Address, s: Slot)
    requires OriginalFits(parent, b, a, s) && (a in ts ==> GoesOnFrom(b, ts[a], a))
    ensures
      var merged := MergeInto(b, ts);
      if a !in ts || (a !in b.state && !NetChange(ts[a])) then
        && BundledInfo(parent, merged, a) == BundledInfo(parent, b, a)
        && BundledSlot(parent, merged, a, s) == BundledSlot(parent, b, a, s)
      else
        && BundledInfo(parent, merged, a) == ts[a].info
        && (ts[a].status != Destroyed || ts[a].storage == map[] ==>
              BundledSlot(parent, merged, a, s) ==
              if s in ts[a].storage then ts[a].storage[s].present
              else if Wipes(b, ts[a], a) then 0 else BundledSlot(parent, b, a, s))
  {
    if a in ts && a in b.state {
      MergedWrite(b.state[a].storage, ts[a].storage, s);
    }
  }

  /* The overrides */

  function CodeOf(i: Option<AccountInfo>): Option<Code> {
    if i.Some? then Some(i.value.code) else None
  }

  /** `has_new_contract` */
  function NewContract(t: Transition): Option<Code> {
    if CodeOf(t.info) != CodeOf(t.previousInfo) then CodeOf(t.info) else None
  }

  function StateDiff(storage: map<Slot, Write>): map<Slot, Word> {
    map s | s in storage && storage[s].original != storage[s].present :: storage[s].present
  }

  function OverrideFor(t: Transition): Option<Override> {
    var diff := StateDiff(t.storage);
    if t.status == Loaded && NewContract(t).None? && diff == map[] then None
    else if WasDestroyed(t.status) || t.info.None? then Some(WIPED)
    else Some(Override(Some(t.info.value.balance), Some(t.info.value.nonce), NewContract(t), None,
                       if diff == map[] then None else Some(diff)))
  }

  function OverridesOf(ts: map<Address, Transition>): map<Address, Override> {
    map a | a in ts && OverrideFor(ts[a]).Some? :: OverrideFor(ts[a]).value
  }

  /** The overrides of the accounts outside `pending`. */
  function OverridesDone(ts: map<Address, Transition>, pending: set<Address>): map<Address, Override> {
    map a | a in ts && a !in pending && OverrideFor(ts[a]).Some? :: OverrideFor(ts[a]).value
  }

  lemma OneOverrideMore(ts: map<Address, Transition>, pending: set<Address>, a: Address)
    requires a in pending && pending <= ts.Keys
    ensures
      var older := OverridesDone(ts, pending);
      OverridesDone(ts, pending - {a}) == if OverrideFor(ts[a]).Some? then older[a := OverrideFor(ts[a]).value]
          else older
  {
  }

  /** Builds the override object in two nested passes over the transition state. */
  method BuildStateOverrides(db: StateDb) returns (overrides: map<Address, Override>)
    ensures overrides == OverridesOf(db.transitions)
  {
    var transitions := db.transitions;
    if transitions == map[] {
      return map[];
    }
    overrides := map[];
    var pending := transitions.Keys;
    while pending != {}
      invariant pending <= transitions.Keys
      invariant overrides == OverridesDone(transitions, pending)
      decreases |pending|
    {
      var addr :| addr in pending;
      OneOverrideMore(transitions, pending, addr);
      pending := pending - {addr};
      var account := transitions[addr];
      var diff := CollectDiff(account.storage);
      var accountChanged := account.status != Loaded || NewContract(account).Some?;
      if accountChanged || diff != map[] {
        if WasDestroyed(account.status) || account.info.None? {
          overrides := overrides[addr := WIPED];
        } else {
          var info := account.info.value;
          var stateDiff := if diff == map[] then None else Some(diff);
          overrides := overrides[addr := Override(Some(info.balance), Some(info.nonce),
                                                  NewContract(account), None, stateDiff)];
        }
      }
    }
    assert OverridesDone(transitions, {}) == OverridesOf(transitions);
  }

  method CollectDiff(storage: map<Slot, Write>) returns (diff: map<Slot, Word>)
    ensures diff == StateDiff(storage)
  {
    diff := map[];
    var pending := storage.Keys;
    while pending != {}
      invariant pending <= storage.Keys
      invariant diff == map s | s in StateDiff(storage) && s !in pending :: StateDiff(storage)[s]
      decreases |pending|
    {
      var slot :| slot in pending;
      pending := pending - {slot};
      if storage[slot].original != storage[slot].present {
        diff := diff[slot := storage[slot].present];
      }
    }
  }

  /* What the sidecar's node reads when it applies them to the parent state */

  function OverriddenInfo(parent: World, os: map<Address, Override>, a: Address): AccountInfo {
    var base := InfoAt(parent, a).GetOr(NO_INFO);
    if a !in os then base
    else AccountInfo(os[a].balance.GetOr(base.balance), os[a].nonce.GetOr(base.nonce), os[a].code.GetOr(base.code))
  }

  function OverriddenSlot(parent: World, os: map<Address, Override>, a: Address, s: Slot): Word {
    if a !in os then SlotAt(parent, a, s)
    else if os[a].state.Some? then (if s in os[a].state.value then os[a].state.value[s] else 0)
    else if os[a].stateDiff.Some? && s in os[a].stateDiff.value then os[a].stateDiff.value[s]
    else SlotAt(parent, a, s)
  }

  /** The overridden parent shows account `a` exactly as the builder sees it. */
  ghost predicate ShowsAccount(db: Db, os: map<Address, Override>, a: Address) {
    && OverriddenInfo(db.parent, os, a) == InfoAt(db.world, a).GetOr(NO_INFO)
    && forall s :: OverriddenSlot(db.parent, os, a, s) == SlotAt(db.world, a, s)
  }

  lemma ChangedSlotIsShown(db: Db, a: Address, s: Slot)
    requires TracksAt(db, a) && a in db.transitions && StatusAt(db, a) == Changed
    ensures OverriddenSlot(db.parent, OverridesOf(db.transitions), a, s) == SlotAt(db.world, a, s)
  {
    var t := db.transitions[a];
    var os := OverridesOf(db.transitions);
    assert SlotTracked(db, t, a, s);
    assert a in os && os[a].state == None;
    if s in t.storage && t.storage[s].original != t.storage[s].present {
      assert s in StateDiff(t.storage);
    }
  }

  /**
    The overrides built in the middle of a block show balance, nonce, code and every storage slot
    of an account exactly as the builder sees them, if and only if the account has not been
    destroyed and re-created within the block.
   */
  lemma OverridesShowInProgressState(db: Db, a: Address)
    requires Tracks(db)
    ensures ShowsAccount(db, OverridesOf(db.transitions), a) <==> StatusAt(db, a) != DestroyedChanged
  {
    var os := OverridesOf(db.transitions);
    assert TracksAt(db, a);
    if a in db.transitions && StatusAt(db, a) == Changed {
      forall s ensures OverriddenSlot(db.parent, os, a, s) == SlotAt(db.world, a, s) {
        ChangedSlotIsShown(db, a, s);
      }
    } else if StatusAt(db, a) == DestroyedChanged {
      assert OverriddenInfo(db.parent, os, a) == NO_INFO;
    }
  }

  lemma RecreatedIsWiped(db: Db, a: Address)
    requires TracksAt(db, a) && StatusAt(db, a) == DestroyedChanged
    ensures OverriddenInfo(db.parent, OverridesOf(db.transitions), a) == NO_INFO
  {
  }

  /** Destroying a known account and then touching it again. */
  lemma DestroyedAndTouched(db: Db, a: Address, info: AccountInfo)
    requires Tracks(db) && StatusAt(db, a) == Loaded && a in db.world && !info.Empty()
    ensures
      var one := Commit(db, map[a := Selfdestructed]);
      var two := Commit(one, map[a := Updated(info, map[])]);
      Tracks(two) && StatusAt(two, a) == DestroyedChanged && InfoAt(two.world, a) == Some(info)
          && two.parent == db.parent
  {
    CommitTracks(db, map[a := Selfdestructed]);
    var one := Commit(db, map[a := Selfdestructed]);
    assert StatusAt(one, a) == Destroyed;
    CommitTracks(one, map[a := Updated(info, map[])]);
  }

  /**
    A re-created account really is reported wrongly: an account that self-destructs and then receives
    one wei is shown to the sidecar with balance zero.
   */
  lemma RecreatedAccountIsShownEmpty()
    ensures
      var parent: World := map[7 := Account(AccountInfo(5, 0, 0), map[])];
      var one := Commit(FreshDb(parent), map[7 := Selfdestructed]);
      var two := Commit(one, map[7 := Updated(AccountInfo(1, 0, 0), map[])]);
      && Tracks(two)
      && InfoAt(two.world, 7) == Some(AccountInfo(1, 0, 0))
      && OverriddenInfo(parent, OverridesOf(two.transitions), 7) == NO_INFO
  {
    var parent: World := map[7 := Account(AccountInfo(5, 0, 0), map[])];
    FreshTracks(parent);
    DestroyedAndTouched(FreshDb(parent), 7, AccountInfo(1, 0, 0));
    var one := Commit(FreshDb(parent), map[7 := Selfdestructed]);
    RecreatedIsWiped(Commit(one, map[7 := Updated(AccountInfo(1, 0, 0), map[])]), 7);
  }
}
