/**
  The concurrency of one job: the builder thread, the timer task that hands it tokens through a bounded
  channel, and the Engine API cancelling the block token and reading the cell. Every action is atomic
  and they interleave in any order.
 */
module Protocol {
  import opened Prelude

  datatype TimerPc =
    | Idle                   // not spawned yet
    | Starting
    | Ticking                // waiting for a tick, the deadline or the block token
    | Sending(token: nat)    // token created, blocked in send
    | LastSending(token: nat)
    | Gone                   // returned, sender dropped

  /** Tokens are numbered in order of creation; `cancelled` holds the flag of each. */
  datatype Tokens = Tokens(cancelled: seq<bool>, timer: TimerPc, channel: seq<nat>)

  datatype BuilderPc =
    | BuildingFallback
    | PublishingFallback     // fallback payload is in the cell
    | Waiting                // blocked in recv
    | Polling(token: nat)    // about to look at the token, or done with the pool
    | Executing(token: nat)  // saw the token alive, executing a pool transaction
    | Sealing                // saw the block token alive after the pool
    | Sealed                 // block built, about to look at the block token again
    | Publishing             // saw it alive
    | Handing                // published, about to hand the payload over
    | Setting                // handed over, about to set the cell
    | Exited

  /**
    The builder and what it has shown to the world. Payloads are named by the flashblock they were sealed
    with. Of the flashblock being built, `stale` says whether its token was already cancelled when it
    started, `executed` counts the pool transactions it ran and `late` those that ran after its token was
    cancelled.
   */
  datatype Builder = Builder(pc: BuilderPc, index: nat, stream: seq<nat>, cell: Option<nat>, built: set<nat>,
                             stale: bool, executed: nat, late: nat)

  /** A cancelled block token cancels all tokens; `shownAtCancel` is how much had been published by then. */
  datatype Sys = Sys(count: nat, capacity: nat, immediate: bool, tokens: Tokens, builder: Builder,
                     blockCancelled: bool, shownAtCancel: nat, resolved: Option<nat>)

  function Init(count: nat, capacity: nat, immediate: bool): Sys {
    Sys(count, capacity, immediate, Tokens([], Idle, []), Builder(BuildingFallback, 0, [], None, {}, false, 0, 0),
        false, 0, None)
  }

  datatype Action =
    | StartTimer
    | Tick
    | Send
    | Deadline
    | LastSend
    | TimerSeesCancel
    | PublishFallback(ok: bool)
    | Receive
    | ReceiveClosed
    | FinishFallback(ok: bool)
    | CheckToken
    | ExecutePoolTx
    | FinishPool(ok: bool)
    | FinishBlock(ok: bool)
    | LookAtBlockToken
    | Publish(ok: bool)
    | HandOver(ok: bool)
    | SetCell
    | CancelBlock
    | Resolve

  predicate IsCancelled(s: Sys, token: nat) {
    s.blockCancelled || (token < |s.tokens.cancelled| && s.tokens.cancelled[token])
  }

  /* The timer */

  /** Cancels the newest token and creates the next one. */
  function Renew(t: Tokens): Tokens
    requires t.cancelled != []
  {
    t.(cancelled := t.cancelled[|t.cancelled| - 1 := true] + [false])
  }

  /** Blocks while the channel is full; notices that the receiver is gone. */
  function SendTo(s: Sys, token: nat, next: TimerPc): Option<Tokens> {
    if s.builder.pc.Exited? then Some(s.tokens.(timer := Gone))
    else if |s.tokens.channel| < s.capacity then Some(s.tokens.(timer := next, channel := s.tokens.channel + [token]))
    else None
  }

  function TimerStep(s: Sys, a: Action): Option<Tokens> {
    var t := s.tokens;
    match a
    case StartTimer =>
      if !t.timer.Starting? then None else if s.immediate then SendTo(s, 0, Ticking) else Some(t.(timer := Ticking))
    case Tick =>
      if t.timer.Ticking? && t.cancelled != [] then Some(Renew(t).(timer := Sending(|t.cancelled|))) else None
    case Send => if t.timer.Sending? then SendTo(s, t.timer.token, Ticking) else None
    case Deadline =>
      if t.timer.Ticking? && t.cancelled != [] then Some(Renew(t).(timer := LastSending(|t.cancelled|))) else None
    case LastSend => if t.timer.LastSending? then SendTo(s, t.timer.token, Gone) else None
    case TimerSeesCancel => if t.timer.Ticking? && s.blockCancelled then Some(t.(timer := Gone)) else None
    case _ => None
  }

  /* The builder where it meets the timer */

  function Start(b: Builder, token: nat, stale: bool): Builder {
    b.(pc := Polling(token), stale := stale, executed := 0, late := 0)
  }

  function MeetStep(s: Sys, a: Action): Option<(Tokens, Builder)> {
    var t, b := s.tokens, s.builder;
    match a
    case PublishFallback(ok) =>
      if !b.pc.PublishingFallback? then None
      else if !ok then Some((t, b.(pc := Exited)))
      else Some((t.(timer := Starting, cancelled := [false]), b.(pc := Waiting, stream := b.stream + [0], index := 1)))
    case Receive =>
      if !b.pc.Waiting? || t.channel == [] then None
      else
        Some((t.(channel := t.channel[1..]),
              if b.index > s.count then b.(pc := Exited) else Start(b, t.channel[0], IsCancelled(s, t.channel[0]))))
    case ReceiveClosed =>
      if b.pc.Waiting? && t.channel == [] && t.timer.Gone? then Some((t, b.(pc := Exited))) else None
    case _ => None
  }

  /* The builder on its own */

  /** `blocked` is the block token, `cancelled` the token the flashblock is built on. */
  function WorkStep(b: Builder, a: Action, blocked: bool, cancelled: bool): Option<Builder> {
    match a
    case FinishFallback(ok) =>
      if !b.pc.BuildingFallback? then None
      else Some(if ok then b.(pc := PublishingFallback, cell := Some(0), built := b.built + {0}) else b.(pc := Exited))
    case CheckToken =>
      if b.pc.Polling? && !cancelled then Some(b.(pc := Executing(b.pc.token))) else None
    case ExecutePoolTx =>
      if !b.pc.Executing? then None
      else Some(b.(pc := Polling(b.pc.token), executed := b.executed + 1, late := b.late + if cancelled then 1 else 0))
    case FinishPool(ok) =>
      if b.pc.Polling? then Some(b.(pc := if ok && !blocked then Sealing else Exited)) else None
    case FinishBlock(ok) =>
      if !b.pc.Sealing? then None
      else Some(if ok then b.(pc := Sealed, built := b.built + {b.index}) else b.(pc := Exited))
    case LookAtBlockToken =>
      if b.pc.Sealed? then Some(b.(pc := if blocked then Exited else Publishing)) else None
    case Publish(ok) =>
      if !b.pc.Publishing? then None
      else Some(if ok then b.(pc := Handing, stream := b.stream + [b.index]) else b.(pc := Exited))
    case HandOver(ok) =>
      if b.pc.Handing? then Some(b.(pc := if ok then Setting else Exited)) else None
    case SetCell =>
      if b.pc.Setting? then Some(b.(pc := Waiting, cell := Some(b.index), index := b.index + 1)) else None
    case _ => None
  }

  /** Whether the token the builder works on is cancelled. */
  predicate TokenCancelled(s: Sys) {
    (s.builder.pc.Polling? || s.builder.pc.Executing?) && IsCancelled(s, s.builder.pc.token)
  }

  /* The Engine API */

  /** Resolving, a passed job deadline and a newer job all cancel the block token; resolving then waits for a value. */
  function EngineStep(s: Sys, a: Action): Option<Sys> {
    match a
    case CancelBlock =>
      Some(if s.blockCancelled then s else s.(blockCancelled := true, shownAtCancel := |s.builder.stream|))
    case Resolve =>
      if s.blockCancelled && s.builder.cell.Some? && s.resolved.None? then Some(s.(resolved := s.builder.cell))
          else None
    case _ => None
  }

  predicate IsTimerAction(a: Action) {
    a.StartTimer? || a.Tick? || a.Send? || a.Deadline? || a.LastSend? || a.TimerSeesCancel?
  }

  predicate IsMeeting(a: Action) {
    a.PublishFallback? || a.Receive? || a.ReceiveClosed?
  }

  predicate IsEngineAction(a: Action) {
    a.CancelBlock? || a.Resolve?
  }

  /** One atomic action; `None` when it is not enabled. */
  function Step(s: Sys, a: Action): Option<Sys> {
    if IsTimerAction(a) then
      var t := TimerStep(s, a);
      if t.None? then None else Some(s.(tokens := t.value))
    else if IsMeeting(a) then
      var r := MeetStep(s, a);
      if r.None? then None else Some(s.(tokens := r.value.0, builder := r.value.1))
    else if IsEngineAction(a) then EngineStep(s, a)
    else
      var b := WorkStep(s.builder, a, s.blockCancelled, TokenCancelled(s));
      if b.None? then None else Some(s.(builder := b.value))
  }

  /** The system after a run of actions, if each is enabled when its turn comes. */
  function Run(s: Sys, actions: seq<Action>): Option<Sys> {
    if actions == [] then Some(s)
    else
      match Run(s, actions[..|actions| - 1])
      case None => None
      case Some(s') => Step(s', actions[|actions| - 1])
  }

  lemma RunStep(s: Sys, actions: seq<Action>) returns (before: Sys)
    requires actions != [] && Run(s, actions).Some?
    ensures Run(s, actions[..|actions| - 1]) == Some(before)
    ensures Step(before, actions[|actions| - 1]) == Run(s, actions)
  {
    before := Run(s, actions[..|actions| - 1]).value;
  }

  /* Invariants */

  /** All tokens but the newest are cancelled, and everything in flight is a known token. */
  ghost predicate TokensOk(t: Tokens, pc: BuilderPc) {
    && (forall k :: 0 <= k < |t.cancelled| - 1 ==> t.cancelled[k])
    && (forall k :: 0 <= k < |t.channel| ==> t.channel[k] < |t.cancelled|)
    && (t.timer.Idle? <==> t.cancelled == [])
    && (t.timer.Sending? ==> t.timer.token == |t.cancelled| - 1)
    && (t.timer.LastSending? ==> t.timer.token == |t.cancelled| - 1)
    && (pc.Polling? || pc.Executing? ==> pc.token < |t.cancelled|)
    && (pc.BuildingFallback? || pc.PublishingFallback? ==> t.timer.Idle? && t.channel == [])
  }

  /** Published flashblocks are numbered 0, 1, 2, ...; whatever is published or in the cell was built here. */
  ghost predicate StreamOk(b: Builder) {
    && (forall k :: 0 <= k < |b.stream| ==> b.stream[k] == k)
    && (forall k :: 0 <= k < |b.stream| ==> b.stream[k] in b.built)
    && (b.cell.Some? ==> b.cell.value in b.built)
    && (b.pc.Sealed? || b.pc.Publishing? || b.pc.Handing? || b.pc.Setting? ==> b.index in b.built)
  }

  /** How far the stream and the cell are at each point of the builder. */
  ghost predicate PhaseOk(count: nat, b: Builder) {
    b.index <= count + 1 &&
    match b.pc
    case BuildingFallback => b.stream == [] && b.cell == None && b.index == 0
    case PublishingFallback => b.stream == [] && b.cell == Some(0) && b.index == 0
    case Waiting => |b.stream| == b.index >= 1 && b.cell == Some(b.index - 1)
    case Handing => |b.stream| == b.index + 1 && 1 <= b.index <= count && b.cell == Some(b.index - 1)
    case Setting => |b.stream| == b.index + 1 && 1 <= b.index <= count && b.cell == Some(b.index - 1)
    case Exited =>
      || (b.cell == None && b.stream == [])
      || (b.cell.Some? && b.cell.value <= |b.stream| <= b.cell.value + 2 && |b.stream| <= count + 1)
    case _ => |b.stream| == b.index && 1 <= b.index <= count && b.cell == Some(b.index - 1)
  }

  /** A stale flashblock runs no pool transaction; any other runs at most one after its token is cancelled. */
  ghost predicate PoolOk(b: Builder, cancelled: bool) {
    && (b.stale ==> b.executed == 0) && b.late <= 1
    && (b.pc.Executing? ==> !b.stale && b.late == 0)
    && (b.pc.Polling? && (b.stale || b.late > 0) ==> cancelled)
  }

  /** After the block token is cancelled at most one more flashblock comes out. */
  ghost predicate CancelOk(b: Builder, shown: nat) {
    && shown <= |b.stream| <= shown + 1
    && (b.pc.BuildingFallback? || b.pc.PublishingFallback? || b.pc.Publishing? ==> |b.stream| == shown)
  }

  ghost predicate ResolveOk(b: Builder, resolved: Option<nat>) {
    resolved.Some? ==> resolved.value in b.built && b.cell.Some? && resolved.value <= b.cell.value
  }

  ghost predicate Inv(s: Sys) {
    && TokensOk(s.tokens, s.builder.pc) && StreamOk(s.builder) && PhaseOk(s.count, s.builder)
    && PoolOk(s.builder, TokenCancelled(s)) && ResolveOk(s.builder, s.resolved)
    && (s.blockCancelled ==> CancelOk(s.builder, s.shownAtCancel))
  }

  /* Every action keeps them */

  lemma RenewKeepsTokens(t: Tokens)
    requires t.cancelled != [] && forall k :: 0 <= k < |t.cancelled| - 1 ==> t.cancelled[k]
    ensures
      var t' := Renew(t);
      && |t'.cancelled| == |t.cancelled| + 1
      && (forall k :: 0 <= k < |t'.cancelled| - 1 ==> t'.cancelled[k])
  {
  }

  /** A cancelled token stays cancelled. */
  lemma TimerKeepsTokens(s: Sys, a: Action)
    requires TokensOk(s.tokens, s.builder.pc) && TimerStep(s, a).Some?
    ensures TokensOk(TimerStep(s, a).value, s.builder.pc)
    ensures
      var t := TimerStep(s, a).value;
      && |s.tokens.cancelled| <= |t.cancelled|
      && forall k :: 0 <= k < |s.tokens.cancelled| && s.tokens.cancelled[k] ==> t.cancelled[k]
  {
    if a.Tick? || a.Deadline? {
      RenewKeepsTokens(s.tokens);
    }
  }

  lemma TimerKeepsInv(s: Sys, a: Action)
    requires Inv(s) && TimerStep(s, a).Some?
    ensures Inv(s.(tokens := TimerStep(s, a).value))
  {
    TimerKeepsTokens(s, a);
  }

  lemma MeetKeepsInv(s: Sys, a: Action)
    requires Inv(s) && MeetStep(s, a).Some?
    ensures
      var (t, b) := MeetStep(s, a).value;
      Inv(s.(tokens := t, builder := b))
  {
    var b := MeetStep(s, a).value.1;
    assert a.PublishFallback? && a.ok ==> b.stream == [0];
  }

  lemma WorkKeepsStream(b: Builder, a: Action, blocked: bool, cancelled: bool, count: nat)
    requires StreamOk(b) && PhaseOk(count, b) && WorkStep(b, a, blocked, cancelled).Some?
    ensures StreamOk(WorkStep(b, a, blocked, cancelled).value)
  {
    var b' := WorkStep(b, a, blocked, cancelled).value;
    assert b.stream <= b'.stream && |b'.stream| <= |b.stream| + 1;
  }

  lemma WorkKeepsPhase(b: Builder, a: Action, blocked: bool, cancelled: bool, count: nat)
    requires PhaseOk(count, b) && WorkStep(b, a, blocked, cancelled).Some?
    ensures PhaseOk(count, WorkStep(b, a, blocked, cancelled).value)
  {
  }

  lemma WorkKeepsPromises(b: Builder, a: Action, blocked: bool, cancelled: bool, count: nat, shown: nat,
                          resolved: Option<nat>)
    requires PhaseOk(count, b) && ResolveOk(b, resolved) && WorkStep(b, a, blocked, cancelled).Some?
    requires blocked ==> CancelOk(b, shown)
    ensures ResolveOk(WorkStep(b, a, blocked, cancelled).value, resolved)
    ensures blocked ==> CancelOk(WorkStep(b, a, blocked, cancelled).value, shown)
  {
  }

  lemma WorkKeepsPool(b: Builder, a: Action, blocked: bool, cancelled: bool)
    requires PoolOk(b, cancelled) && WorkStep(b, a, blocked, cancelled).Some?
    ensures PoolOk(WorkStep(b, a, blocked, cancelled).value, cancelled)
  {
  }

  /** Work on its own changes no token, and only the end of a flashblock lets go of one. */
  lemma WorkKeepsTokens(b: Builder, a: Action, blocked: bool, cancelled: bool, t: Tokens)
    requires TokensOk(t, b.pc) && WorkStep(b, a, blocked, cancelled).Some?
    ensures
      var pc := WorkStep(b, a, blocked, cancelled).value.pc;
      && TokensOk(t, pc)
      && (pc.Polling? || pc.Executing? ==> (b.pc.Polling? || b.pc.Executing?) && pc.token == b.pc.token)
  {
  }

  lemma WorkKeepsInv(s: Sys, a: Action)
    requires Inv(s) && WorkStep(s.builder, a, s.blockCancelled, TokenCancelled(s)).Some?
    ensures Inv(s.(builder := WorkStep(s.builder, a, s.blockCancelled, TokenCancelled(s)).value))
  {
    var b, blocked, cancelled := s.builder, s.blockCancelled, TokenCancelled(s);
    WorkKeepsStream(b, a, blocked, cancelled, s.count);
    WorkKeepsPhase(b, a, blocked, cancelled, s.count);
    WorkKeepsPromises(b, a, blocked, cancelled, s.count, s.shownAtCancel, s.resolved);
    WorkKeepsPool(b, a, blocked, cancelled);
    WorkKeepsTokens(b, a, blocked, cancelled, s.tokens);
  }

  lemma EngineKeepsInv(s: Sys, a: Action)
    requires Inv(s) && EngineStep(s, a).Some?
    ensures Inv(EngineStep(s, a).value)
  {
  }

  lemma StepKeepsInv(s: Sys, a: Action)
    requires Inv(s) && Step(s, a).Some?
    ensures Inv(Step(s, a).value)
  {
    if IsTimerAction(a) {
      TimerKeepsInv(s, a);
    } else if IsMeeting(a) {
      MeetKeepsInv(s, a);
    } else if IsEngineAction(a) {
      EngineKeepsInv(s, a);
    } else {
      WorkKeepsInv(s, a);
    }
  }

  /** Every reachable state of every interleaving satisfies the invariants. */
  lemma {:induction false} ReachableStatesAreSafe(count: nat, capacity: nat, immediate: bool, actions: seq<Action>)
    requires Run(Init(count, capacity, immediate), actions).Some?
    ensures Inv(Run(Init(count, capacity, immediate), actions).value)
    ensures Run(Init(count, capacity, immediate), actions).value.count == count
  {
    if actions != [] {
      var before := RunStep(Init(count, capacity, immediate), actions);
      ReachableStatesAreSafe(count, capacity, immediate, actions[..|actions| - 1]);
      StepKeepsInv(before, actions[|actions| - 1]);
    }
  }

  /* Safety over whole runs */

  /** What only ever moves forward: what is published, built and in the cell. */
  ghost predicate Extends(b: Builder, b': Builder) {
    && b.stream <= b'.stream && b.built <= b'.built
    && (b.cell.Some? ==> b'.cell.Some? && b.cell.value <= b'.cell.value)
  }

  ghost predicate Advances(s: Sys, s': Sys) {
    && Extends(s.builder, s'.builder)
    && (s.resolved.Some? ==> s'.resolved == s.resolved)
    && (s.blockCancelled ==> s'.blockCancelled && s'.shownAtCancel == s.shownAtCancel)
  }

  lemma WorkExtends(b: Builder, a: Action, blocked: bool, cancelled: bool, count: nat)
    requires PhaseOk(count, b) && WorkStep(b, a, blocked, cancelled).Some?
    ensures Extends(b, WorkStep(b, a, blocked, cancelled).value)
  {
  }

  lemma StepAdvances(s: Sys, a: Action)
    requires Inv(s) && Step(s, a).Some?
    ensures Advances(s, Step(s, a).value)
  {
    if !IsTimerAction(a) && !IsMeeting(a) && !IsEngineAction(a) {
      WorkExtends(s.builder, a, s.blockCancelled, TokenCancelled(s), s.count);
    }
  }

  /**
    From any reachable state on, whatever happens: nothing published is taken back, a cell that holds a
    payload never becomes empty and only moves to later ones, and once the block token is cancelled at
    most one more flashblock is published.
   */
  lemma {:induction false} CancellationIsSafe(s: Sys, actions: seq<Action>)
    requires Inv(s) && Run(s, actions).Some?
    ensures
      var s' := Run(s, actions).value;
      && Inv(s') && Advances(s, s')
      && (s.blockCancelled ==> |s'.builder.stream| <= |s.builder.stream| + 1)
  {
    if actions != [] {
      var before := RunStep(s, actions);
      CancellationIsSafe(s, actions[..|actions| - 1]);
      StepKeepsInv(before, actions[|actions| - 1]);
      StepAdvances(before, actions[|actions| - 1]);
    }
  }

  /** A resolved payload is one this job built, and no more than count + 1 flashblocks are published. */
  lemma ResolvedPayloadsAreOurs(count: nat, capacity: nat, immediate: bool, actions: seq<Action>)
    requires Run(Init(count, capacity, immediate), actions).Some?
    ensures
      var s := Run(Init(count, capacity, immediate), actions).value;
      && (s.resolved.Some? ==> s.resolved.value in s.builder.built && s.resolved.value <= s.builder.cell.GetOr(0))
      && |s.builder.stream| <= count + 1
  {
    ReachableStatesAreSafe(count, capacity, immediate, actions);
  }

  /** How many payloads the cell has held. */
  function Held(b: Builder): nat {
    if b.cell.Some? then b.cell.value + 1 else 0
  }

  /** Whether the builder still sets the cell once the block token is cancelled. */
  function Pending(pc: BuilderPc): nat {
    if pc.BuildingFallback? || pc.Publishing? || pc.Handing? || pc.Setting? then 1 else 0
  }

  lemma CancelledStepHolds(s: Sys, a: Action)
    requires Inv(s) && Step(s, a).Some? && s.blockCancelled
    ensures
      var s' := Step(s, a).value;
      Held(s'.builder) + Pending(s'.builder.pc) <= Held(s.builder) + Pending(s.builder.pc)
  {
  }

  /** The Engine API resolves once, to what the cell holds at that moment, and disturbs nobody. */
  lemma ResolveGivesTheCell(s: Sys, a: Action)
    requires Step(s, a).Some?
    ensures
      var s' := Step(s, a).value;
      if a.Resolve? then
        s.blockCancelled && s.resolved.None? && s.builder.cell.Some? && s' == s.(resolved := s.builder.cell)
      else s'.resolved == s.resolved
  {
  }

  /** The resolved payload, if any, is no older than `oldest` and no newer than what the cell holds. */
  ghost predicate ResolvedFrom(s: Sys, oldest: nat) {
    s.resolved.Some? ==> oldest <= s.resolved.value + 1 <= Held(s.builder)
  }

  /**
    From any reachable state on, whatever happens: a payload resolved later is no older than what the cell holds now,
    and after the block token is cancelled the cell -- and so the resolved payload -- is at most one newer.
   */
  lemma {:induction false} ResolvedPayloadsAreCurrent(s: Sys, actions: seq<Action>)
    requires Inv(s) && s.resolved.None? && Run(s, actions).Some?
    ensures
      var s' := Run(s, actions).value;
      && Inv(s') && Advances(s, s') && ResolvedFrom(s', Held(s.builder))
      && (s.blockCancelled ==>
            Held(s'.builder) + Pending(s'.builder.pc) <= Held(s.builder) + Pending(s.builder.pc) <= Held(s.builder) + 1)
  {
    if actions != [] {
      var before := RunStep(s, actions);
      var a := actions[|actions| - 1];
      ResolvedPayloadsAreCurrent(s, actions[..|actions| - 1]);
      StepKeepsInv(before, a);
      StepAdvances(before, a);
      ResolveGivesTheCell(before, a);
      if before.blockCancelled && s.blockCancelled {
        CancelledStepHolds(before, a);
      }
    }
  }

  lemma ExitedStays(s: Sys, a: Action)
    requires s.builder.pc.Exited? && Step(s, a).Some?
    ensures Step(s, a).value.builder == s.builder
  {
  }

  /** Once the builder has returned, the cell is final, and a later resolution gives exactly the payload in it. */
  lemma {:induction false} FinalCellIsResolved(s: Sys, actions: seq<Action>)
    requires s.builder.pc.Exited? && Run(s, actions).Some?
    ensures
      var s' := Run(s, actions).value;
      s'.builder == s.builder && (s'.resolved == s.resolved || (s.resolved.None? && s'.resolved == s.builder.cell))
  {
    if actions != [] {
      var before := RunStep(s, actions);
      var a := actions[|actions| - 1];
      FinalCellIsResolved(s, actions[..|actions| - 1]);
      ExitedStays(before, a);
      ResolveGivesTheCell(before, a);
    }
  }

  /** A cancelled block with a payload in its cell can be resolved. */
  lemma ResolveIsEnabled(s: Sys)
    requires s.blockCancelled && s.builder.cell.Some? && s.resolved.None?
    ensures Step(s, Resolve).Some? && Step(s, Resolve).value.resolved == s.builder.cell
  {
  }

  /**
    A flashblock started on a superseded token, or after the block was cancelled, runs no pool transaction. Any
    other runs at most one after that happens: the one whose token check came just before. The check itself
    only passes on the newest token of an uncancelled block.
   */
  lemma StaleTokensDoNoPoolWork(count: nat, capacity: nat, immediate: bool, actions: seq<Action>)
    requires Run(Init(count, capacity, immediate), actions).Some?
    ensures
      var s := Run(Init(count, capacity, immediate), actions).value;
      && (s.builder.stale ==> s.builder.executed == 0) && s.builder.late <= 1
      && (Step(s, CheckToken).Some? ==> !s.blockCancelled && s.builder.pc.token == |s.tokens.cancelled| - 1)
  {
    ReachableStatesAreSafe(count, capacity, immediate, actions);
  }

  function PoolRuns(actions: seq<Action>): nat {
    if actions == [] then 0
    else PoolRuns(actions[..|actions| - 1]) + if actions[|actions| - 1].ExecutePoolTx? then 1 else 0
  }

  predicate NoneReceived(actions: seq<Action>) {
    forall k :: 0 <= k < |actions| ==> !actions[k].Receive?
  }

  /** The builder is not building, or builds on a cancelled token. */
  ghost predicate Superseded(s: Sys) {
    s.builder.pc.Polling? || s.builder.pc.Executing? ==> TokenCancelled(s)
  }

  lemma SupersededStep(s: Sys, a: Action)
    requires Inv(s) && Superseded(s) && !a.Receive? && Step(s, a).Some?
    ensures
      var s' := Step(s, a).value;
      && Superseded(s')
      && (s'.builder.pc.Executing? ==> s.builder.pc.Executing? && !a.ExecutePoolTx?)
      && (a.ExecutePoolTx? ==> s.builder.pc.Executing?)
  {
    if IsTimerAction(a) {
      TimerKeepsTokens(s, a);
    }
  }

  /**
    Counted in actions: once its token is cancelled, a flashblock runs no further pool transaction, except the one
    whose token check came just before.
   */
  lemma {:induction false} CancelledTokenStopsPool(s: Sys, actions: seq<Action>)
    requires Inv(s) && TokenCancelled(s) && NoneReceived(actions) && Run(s, actions).Some?
    ensures
      var s' := Run(s, actions).value;
      && Inv(s') && Superseded(s')
      && PoolRuns(actions) + (if s'.builder.pc.Executing? then 1 else 0) <= if s.builder.pc.Executing? then 1 else 0
  {
    if actions != [] {
      var before := RunStep(s, actions);
      var prefix := actions[..|actions| - 1];
      assert NoneReceived(prefix) && !actions[|actions| - 1].Receive?;
      CancelledTokenStopsPool(s, prefix);
      SupersededStep(before, actions[|actions| - 1]);
      StepKeepsInv(before, actions[|actions| - 1]);
    }
  }

  /* The channel */

  /**
    Tokens travel in order: what is in the channel is older than what the timer is about to send and newer than what
    the builder works on, and the channel holds no more than it can.
   */
  ghost predicate InOrder(s: Sys) {
    var t, pc := s.tokens, s.builder.pc;
    && |t.channel| <= s.capacity
    && (forall i, j :: 0 <= i < j < |t.channel| ==> t.channel[i] < t.channel[j])
    && (forall k :: 0 <= k < |t.channel| ==> t.channel[k] < |t.cancelled|)
    && (t.timer.Starting? ==> t.channel == [] && t.cancelled == [false] && !pc.Polling? && !pc.Executing?)
    && (t.timer.Sending? || t.timer.LastSending? ==>
          && t.timer.token == |t.cancelled| - 1
          && (forall k :: 0 <= k < |t.channel| ==> t.channel[k] < t.timer.token)
          && (pc.Polling? || pc.Executing? ==> pc.token < t.timer.token))
    && (pc.Polling? || pc.Executing? ==>
          pc.token < |t.cancelled| && forall k :: 0 <= k < |t.channel| ==> pc.token < t.channel[k])
    && (t.timer.Idle? ==> pc.BuildingFallback? || pc.PublishingFallback? || pc.Exited?)
    && (pc.BuildingFallback? || pc.PublishingFallback? ==> t.timer.Idle? && t.channel == [])
  }

  lemma TimerKeepsOrder(s: Sys, a: Action)
    requires InOrder(s) && TimerStep(s, a).Some?
    ensures InOrder(s.(tokens := TimerStep(s, a).value))
  {
  }

  lemma MeetKeepsOrder(s: Sys, a: Action)
    requires InOrder(s) && MeetStep(s, a).Some?
    ensures
      var (t, b) := MeetStep(s, a).value;
      InOrder(s.(tokens := t, builder := b))
  {
  }

  lemma WorkKeepsOrder(s: Sys, a: Action)
    requires InOrder(s) && WorkStep(s.builder, a, s.blockCancelled, TokenCancelled(s)).Some?
    ensures InOrder(s.(builder := WorkStep(s.builder, a, s.blockCancelled, TokenCancelled(s)).value))
  {
  }

  /** Over every interleaving, the builder gets the timer's tokens in the order they were made. */
  lemma {:induction false} TokensTravelInOrder(count: nat, capacity: nat, immediate: bool, actions: seq<Action>)
    requires Run(Init(count, capacity, immediate), actions).Some?
    ensures
      var s := Run(Init(count, capacity, immediate), actions).value;
      InOrder(s) && s.capacity == capacity && s.immediate == immediate && s.count == count
  {
    if actions != [] {
      var before := RunStep(Init(count, capacity, immediate), actions);
      var a := actions[|actions| - 1];
      TokensTravelInOrder(count, capacity, immediate, actions[..|actions| - 1]);
      if IsTimerAction(a) {
        TimerKeepsOrder(before, a);
      } else if IsMeeting(a) {
        MeetKeepsOrder(before, a);
      } else if !IsEngineAction(a) {
        WorkKeepsOrder(before, a);
      }
    }
  }

  /* Progress */

  /** What moves the job on from a state: the builder's next action or, while it waits for a token, the timer's. */
  function NextMove(s: Sys): Action {
    match s.builder.pc
    case BuildingFallback => FinishFallback(true)
    case PublishingFallback => PublishFallback(true)
    case Waiting =>
      if s.tokens.channel != [] then Receive
      else
        (match s.tokens.timer
         case Starting => StartTimer
         case Sending(_) => Send
         case LastSending(_) => LastSend
         case Gone => ReceiveClosed
         case _ => Tick)
    case Executing(_) => ExecutePoolTx
    case Polling(_) => FinishPool(true)
    case Sealing => FinishBlock(true)
    case Sealed => LookAtBlockToken
    case Publishing => Publish(true)
    case Handing => HandOver(true)
    case _ => SetCell
  }

  /** No interleaving deadlocks: until the builder has returned, something can always move the job on. */
  lemma NeverStuck(count: nat, capacity: nat, immediate: bool, actions: seq<Action>)
    requires capacity >= 1 && Run(Init(count, capacity, immediate), actions).Some?
    ensures
      var s := Run(Init(count, capacity, immediate), actions).value;
      s.builder.pc.Exited? || Step(s, NextMove(s)).Some?
  {
    TokensTravelInOrder(count, capacity, immediate, actions);
    ReachableStatesAreSafe(count, capacity, immediate, actions);
  }

  /**
    A token that arrives while flashblocks are left starts the next one, on that token, stale if it is cancelled by
    then; once all are built, it ends the job.
   */
  lemma ReceivingStartsAFlashblock(s: Sys)
    requires s.builder.pc.Waiting? && s.tokens.channel != []
    ensures
      var r := Step(s, Receive);
      var token := s.tokens.channel[0];
      && r.Some? && r.value.tokens == s.tokens.(channel := s.tokens.channel[1..])
      && (if s.builder.index > s.count then r.value.builder.pc.Exited?
          else && r.value.builder.pc == Polling(token) && r.value.builder.executed == r.value.builder.late == 0
               && (r.value.builder.stale <==> s.blockCancelled || IsCancelled(s, token)))
  {
  }

  /** The actions of a flashblock in which everything works and nobody interferes, but for its pool transactions. */
  const SMOOTH_TURN: seq<Action> :=
    [FinishPool(true), FinishBlock(true), LookAtBlockToken, Publish(true), HandOver(true), SetCell]

  lemma RunOneMore(s: Sys, actions: seq<Action>, a: Action)
    requires Run(s, actions).Some?
    ensures Run(s, actions + [a]) == Step(Run(s, actions).value, a)
  {
    assert (actions + [a])[..|actions|] == actions;
  }

  lemma SmoothSealing(s: Sys)
    requires s.builder.pc.Polling? && !s.blockCancelled
    ensures Run(s, SMOOTH_TURN[..3]) ==
            Some(s.(builder := s.builder.(pc := Publishing, built := s.builder.built + {s.builder.index})))
  {
    RunOneMore(s, [], SMOOTH_TURN[0]);
    RunOneMore(s, [SMOOTH_TURN[0]], SMOOTH_TURN[1]);
    RunOneMore(s, [SMOOTH_TURN[0], SMOOTH_TURN[1]], SMOOTH_TURN[2]);
    assert SMOOTH_TURN[..3] == [SMOOTH_TURN[0], SMOOTH_TURN[1]] + [SMOOTH_TURN[2]];
  }

  /** It publishes its flashblock, puts the block into the cell and leaves the builder waiting for the next token. */
  lemma SmoothTurnCompletes(s: Sys)
    requires s.builder.pc.Polling? && !s.blockCancelled
    ensures
      var r, b := Run(s, SMOOTH_TURN), s.builder;
      && r.Some? && r.value.builder.pc.Waiting? && r.value.builder.index == b.index + 1
      && r.value.builder.stream == b.stream + [b.index] && r.value.builder.cell == Some(b.index)
  {
    var turn := SMOOTH_TURN;
    SmoothSealing(s);
    RunOneMore(s, turn[..3], turn[3]);
    assert turn[..3] + [turn[3]] == turn[..4];
    RunOneMore(s, turn[..4], turn[4]);
    assert turn[..4] + [turn[4]] == turn[..5];
    RunOneMore(s, turn[..5], turn[5]);
    assert turn[..5] + [turn[5]] == turn;
  }

  /** A tick replaces the newest token by a new one and, when there is room, sends it. */
  lemma TickSendsANewToken(s: Sys)
    requires s.tokens.timer.Ticking? && s.tokens.cancelled != [] && |s.tokens.channel| < s.capacity
    requires !s.builder.pc.Exited?
    ensures
      var n, r := |s.tokens.cancelled|, Run(s, [Tick, Send]);
      && r.Some? && r.value.builder == s.builder && r.value.tokens.timer.Ticking?
      && r.value.tokens.channel == s.tokens.channel + [n]
      && r.value.tokens.cancelled == s.tokens.cancelled[n - 1 := true] + [false]
  {
    RunOneMore(s, [], Tick);
    RunOneMore(s, [Tick], Send);
  }

  /** Executing a pool transaction takes a check that finds the token alive, and is counted once. */
  lemma PoolWorkIsCounted(s: Sys)
    requires s.builder.pc.Polling? && !TokenCancelled(s)
    ensures
      var r := Run(s, [CheckToken, ExecutePoolTx]);
      r.Some? && r.value == s.(builder := s.builder.(executed := s.builder.executed + 1))
  {
    RunOneMore(s, [], CheckToken);
    RunOneMore(s, [CheckToken], ExecutePoolTx);
  }

  /* Cancellation, and how tasks end */

  /** The Engine API can always cancel the block; that changes nothing else. */
  lemma CancelTakesEffect(s: Sys)
    ensures
      var r := Step(s, CancelBlock);
      && r.Some? && r.value.blockCancelled && r.value.tokens == s.tokens && r.value.builder == s.builder
      && r.value.resolved == s.resolved
      && (!s.blockCancelled ==> r.value.shownAtCancel == |s.builder.stream|)
  {
  }

  /** Before the builder has got past the pool of the flashblock it is at, or is done with the fallback block. */
  predicate NotSealing(pc: BuilderPc) {
    pc.PublishingFallback? || pc.Waiting? || pc.Polling? || pc.Executing? || pc.Exited?
  }

  lemma CancelledStepBuildsNothing(s: Sys, a: Action)
    requires s.blockCancelled && NotSealing(s.builder.pc) && Step(s, a).Some?
    ensures
      var s' := Step(s, a).value;
      && s'.blockCancelled && NotSealing(s'.builder.pc)
      && s'.builder.built == s.builder.built && s'.builder.cell == s.builder.cell
      && (!s.builder.pc.PublishingFallback? ==>
            s'.builder.stream == s.builder.stream && !s'.builder.pc.PublishingFallback?)
  {
  }

  /** Once the block token is cancelled, a flashblock still at its pool is never built, let alone published. */
  lemma {:induction false} CancelledBlockBuildsNothing(s: Sys, actions: seq<Action>)
    requires s.blockCancelled && NotSealing(s.builder.pc) && !s.builder.pc.PublishingFallback? && Run(s, actions).Some?
    ensures
      var s' := Run(s, actions).value;
      && s'.blockCancelled && NotSealing(s'.builder.pc) && !s'.builder.pc.PublishingFallback?
      && s'.builder.built == s.builder.built && s'.builder.cell == s.builder.cell
      && s'.builder.stream == s.builder.stream
  {
    if actions != [] {
      var before := RunStep(s, actions);
      CancelledBlockBuildsNothing(s, actions[..|actions| - 1]);
      CancelledStepBuildsNothing(before, actions[|actions| - 1]);
    }
  }

  /** Something the builder did failed. */
  predicate Fails(a: Action) {
    match a
    case FinishFallback(ok) => !ok
    case PublishFallback(ok) => !ok
    case FinishPool(ok) => !ok
    case FinishBlock(ok) => !ok
    case Publish(ok) => !ok
    case HandOver(ok) => !ok
    case _ => false
  }

  /**
    The builder returns only if something it did failed, the block was cancelled, all flashblocks are built, or the
    timer has left and nothing it sent is outstanding.
   */
  lemma BuilderEndsForAReason(s: Sys, a: Action)
    requires Step(s, a).Some? && !s.builder.pc.Exited? && Step(s, a).value.builder.pc.Exited?
    ensures Fails(a) || (s.blockCancelled && (a.FinishPool? || a.LookAtBlockToken?))
         || (a.Receive? && s.builder.index > s.count)
         || (a.ReceiveClosed? && s.tokens.channel == [] && s.tokens.timer.Gone?)
  {
  }

  /** The timer leaves only after its last token, when the block is cancelled, or when nobody receives any more. */
  lemma TimerEndsForAReason(s: Sys, a: Action)
    requires Step(s, a).Some? && !s.tokens.timer.Gone? && Step(s, a).value.tokens.timer.Gone?
    ensures a.LastSend? || s.blockCancelled || s.builder.pc.Exited?
  {
  }

  /** The timer starts by sending the first token, unless flashblocks are built at the end of intervals. */
  lemma TimerStarts(s: Sys)
    requires s.tokens.timer.Starting? && !s.builder.pc.Exited? && |s.tokens.channel| < s.capacity
    ensures
      var r := Step(s, StartTimer);
      && r.Some? && r.value.tokens.timer.Ticking? && r.value.tokens.cancelled == s.tokens.cancelled
      && r.value.tokens.channel == s.tokens.channel + if s.immediate then [0] else []
  {
  }

  /** At the deadline it replaces the newest token once more, sends the new one and leaves. */
  lemma DeadlineSendsTheLastToken(s: Sys)
    requires s.tokens.timer.Ticking? && s.tokens.cancelled != [] && |s.tokens.channel| < s.capacity
    requires !s.builder.pc.Exited?
    ensures
      var n, r := |s.tokens.cancelled|, Run(s, [Deadline, LastSend]);
      && r.Some? && r.value.builder == s.builder && r.value.tokens.timer.Gone?
      && r.value.tokens.channel == s.tokens.channel + [n]
      && r.value.tokens.cancelled == s.tokens.cancelled[n - 1 := true] + [false]
  {
    RunOneMore(s, [], Deadline);
    RunOneMore(s, [Deadline], LastSend);
  }

  /* Termination */

  function Rank(pc: BuilderPc): nat {
    match pc
    case BuildingFallback => 19
    case PublishingFallback => 18
    case Waiting => 7
    case Polling(_) => 6
    case Executing(_) => 6
    case Sealing => 5
    case Sealed => 4
    case Publishing => 3
    case Handing => 2
    case Setting => 1
    case Exited => 0
  }

  function Measure(count: nat, b: Builder): nat {
    8 * SatSub(count + 1, b.index) + Rank(b.pc)
  }

  /** Actions of the builder that do not belong to its pool loop. */
  predicate IsMove(a: Action) {
    !IsTimerAction(a) && !IsEngineAction(a) && !a.CheckToken? && !a.ExecutePoolTx?
  }

  lemma WorkDecreases(b: Builder, a: Action, blocked: bool, cancelled: bool, count: nat)
    requires PhaseOk(count, b) && WorkStep(b, a, blocked, cancelled).Some?
    ensures Measure(count, WorkStep(b, a, blocked, cancelled).value) + (if IsMove(a) then 1 else 0) <= Measure(count, b)
  {
  }

  lemma MoveDecreases(s: Sys, a: Action)
    requires Inv(s) && Step(s, a).Some?
    ensures Measure(s.count, Step(s, a).value.builder) + (if IsMove(a) then 1 else 0) <= Measure(s.count, s.builder)
  {
    if !IsTimerAction(a) && !IsMeeting(a) && !IsEngineAction(a) {
      WorkDecreases(s.builder, a, s.blockCancelled, TokenCancelled(s), s.count);
    }
  }

  function Moves(actions: seq<Action>): nat {
    if actions == [] then 0
    else Moves(actions[..|actions| - 1]) + if IsMove(actions[|actions| - 1]) then 1 else 0
  }

  lemma {:induction false} MovesAreBounded(count: nat, capacity: nat, immediate: bool, actions: seq<Action>)
    requires Run(Init(count, capacity, immediate), actions).Some?
    ensures
      var init := Init(count, capacity, immediate);
      Moves(actions) + Measure(count, Run(init, actions).value.builder) <= Measure(count, init.builder)
  {
    if actions != [] {
      var before := RunStep(Init(count, capacity, immediate), actions);
      MovesAreBounded(count, capacity, immediate, actions[..|actions| - 1]);
      ReachableStatesAreSafe(count, capacity, immediate, actions[..|actions| - 1]);
      MoveDecreases(before, actions[|actions| - 1]);
    }
  }

  /** However it is interleaved, the builder takes at most 8 * count + 27 steps outside its pool loop. */
  lemma BuilderTerminates(count: nat, capacity: nat, immediate: bool, actions: seq<Action>)
    requires Run(Init(count, capacity, immediate), actions).Some?
    ensures Moves(actions) <= 8 * count + 27
  {
    MovesAreBounded(count, capacity, immediate, actions);
  }
}
