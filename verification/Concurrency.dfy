/**
  The protocol and the data together: the builder thread of `Protocol` doing the real work of `Flashblocks`. Every
  interleaving of builder, timer and Engine API turns out to be a run of the sequential build loop.
 */
module Concurrency {
  import opened Prelude
  import opened Evm
  import opened Database
  import opened Replay
  import opened Overrides
  import opened BestTxs
  import opened GasLimiter
  import opened PoolExecutor
  import opened Sidecar
  import opened Sealing
  import opened Flashblocks
  import opened BuildRuns
  import P = Protocol

  /** What the outside world shows a flashblock: a view of the pool, how long the token lives, the sidecar's answer. */
  datatype View = View(pool: seq<PoolTx>, live: nat, poll: Poll)

  /** How a turn went, apart from what it was shown. */
  datatype Course = Course(cancelledAfterPool: bool, cancelledAfterBuild: bool, publishes: bool, sends: bool)

  const SMOOTH := Course(false, false, true, true)

  function InputOf(v: View, c: Course): Input {
    Input(v.pool, v.live, c.cancelledAfterPool, v.poll, c.cancelledAfterBuild, c.publishes, c.sends)
  }

  /* The build loop, seen from outside */

  /**
    One turn -- does the loop go on, and from where -- and how its phases turn out: whether pool and block
    work, how many pool transactions are executed, and whether the pool loop stops because of its token.
   */
  datatype Loop = Loop(next: (State, Input) -> (bool, State), pool: (State, View) -> bool, block: (State, View) -> bool,
                       runs: (State, View) -> nat, stops: (State, View) -> bool)

  function LoopRun(m: Loop, st: State, inputs: seq<Input>): State
    decreases |inputs|
  {
    if inputs == [] || st.extra.index > st.extra.count then st
    else
      var (goesOn, st') := m.next(st, inputs[0]);
      if goesOn then LoopRun(m, st', inputs[1..]) else st'
  }

  /** Pool and block work out and nobody cancels in between. */
  predicate Seals(m: Loop, st: State, v: View, c: Course) {
    m.pool(st, v) && !c.cancelledAfterPool && m.block(st, v) && !c.cancelledAfterBuild
  }

  /** What a turn shows: it goes on exactly if all goes well, and publishes exactly if it gets that far. */
  ghost predicate TurnLaw(m: Loop, st: State, v: View, c: Course) {
    var (goesOn, next) := m.next(st, InputOf(v, c));
    && (goesOn <==> Seals(m, st, v, c) && c.publishes && c.sends)
    && |next.stream| == |st.stream| + (if Seals(m, st, v, c) && c.publishes then 1 else 0)
    && next.extra.index == st.extra.index + (if goesOn then 1 else 0)
    && next.extra.count == st.extra.count
  }

  /** Every turn from a good head obeys the law and leads to a good head. */
  ghost predicate Lawful(m: Loop, good: State -> bool) {
    forall st: State, v: View, c: Course {:trigger m.next(st, InputOf(v, c))} ::
      good(st) ==> TurnLaw(m, st, v, c) && (m.next(st, InputOf(v, c)).0 ==> good(m.next(st, InputOf(v, c)).1))
  }

  /* Protocol and data */

  /**
    The protocol state, the data at the last loop head, what the turn under way was shown, and the turns that
    are over.
   */
  datatype Joint = Joint(sys: P.Sys, head: State, turn: View, done: seq<Input>)

  /** The course of a turn that ends with this action, if the action ends the job. */
  function CourseOf(a: P.Action): Course {
    match a
    case FinishPool(ok) => SMOOTH.(cancelledAfterPool := ok)
    case LookAtBlockToken => SMOOTH.(cancelledAfterBuild := true)
    case Publish(_) => SMOOTH.(publishes := false)
    case HandOver(_) => SMOOTH.(sends := false)
    case _ => SMOOTH
  }

  /**
    Whether pool and block work is decided by the data; everything else by the protocol. The pool loop is over
    when it has executed as many transactions as the builder has, each after a check of the token, and it stops
    early only if the token is cancelled.
   */
  predicate Agrees(m: Loop, j: Joint, a: P.Action) {
    && (a.FinishPool? ==>
          && a.ok == m.pool(j.head, j.turn)
          && j.sys.builder.executed == m.runs(j.head, j.turn)
          && (m.stops(j.head, j.turn) ==> P.TokenCancelled(j.sys)))
    && (a.FinishBlock? ==> a.ok == m.block(j.head, j.turn))
  }

  predicate IsWork(a: P.Action) {
    a.FinishPool? || a.FinishBlock? || a.LookAtBlockToken? || a.Publish? || a.HandOver? || a.SetCell?
  }

  /** One action, with the view a new flashblock would get. */
  function JointStep(m: Loop, j: Joint, a: P.Action, v: View): Option<Joint> {
    var r := P.Step(j.sys, a);
    if r.None? || !Agrees(m, j, a) then None
    else
      var sys, i := r.value, InputOf(j.turn, CourseOf(a));
      if a.Receive? && !sys.builder.pc.Exited? then Some(j.(sys := sys, turn := v))
      else if a.SetCell? then Some(j.(sys := sys, head := m.next(j.head, i).1, done := j.done + [i]))
      else if IsWork(a) && sys.builder.pc.Exited? then Some(j.(sys := sys, done := j.done + [i]))
      else Some(j.(sys := sys))
  }

  function JointRun(m: Loop, j: Joint, steps: seq<(P.Action, View)>): Option<Joint> {
    if steps == [] then Some(j)
    else
      match JointRun(m, j, steps[..|steps| - 1])
      case None => None
      case Some(j') => JointStep(m, j', steps[|steps| - 1].0, steps[|steps| - 1].1)
  }

  /* Completed turns */

  /** The loop head after a list of turns that are all completed. */
  function RunTo(m: Loop, st: State, inputs: seq<Input>): Option<State> {
    if inputs == [] then Some(st)
    else
      match RunTo(m, st, inputs[..|inputs| - 1])
      case None => None
      case Some(head) =>
        var (goesOn, next) := m.next(head, inputs[|inputs| - 1]);
        if head.extra.index <= head.extra.count && goesOn then Some(next) else None
  }

  /** The loop goes through completed turns and carries on from the head they lead to. */
  lemma {:induction false} LoopResumes(m: Loop, st: State, inputs: seq<Input>, later: seq<Input>)
    requires RunTo(m, st, inputs).Some?
    ensures LoopRun(m, st, inputs + later) == LoopRun(m, RunTo(m, st, inputs).value, later)
  {
    if inputs == [] {
      assert inputs + later == later;
    } else {
      var before, last := inputs[..|inputs| - 1], inputs[|inputs| - 1];
      LoopResumes(m, st, before, [last] + later);
      assert inputs + later == before + ([last] + later);
      assert ([last] + later)[1..] == later;
    }
  }

  lemma RunToOneMore(m: Loop, st: State, inputs: seq<Input>, i: Input)
    requires RunTo(m, st, inputs).Some?
    ensures
      var head := RunTo(m, st, inputs).value;
      var (goesOn, next) := m.next(head, i);
      head.extra.index <= head.extra.count && goesOn ==> RunTo(m, st, inputs + [i]) == Some(next)
  {
    assert (inputs + [i])[..|inputs|] == inputs;
  }

  /* The invariant */

  /** As much is published, and the same flashblock in the cell, as in this state of the loop. */
  ghost predicate Shows(b: P.Builder, st: State) {
    |st.stream| == |b.stream| && st.extra.index >= 1 && b.cell == Some(st.extra.index - 1)
  }

  /** The turn under way is past its pool loop. */
  predicate PastPool(pc: P.BuilderPc) {
    pc.Sealing? || pc.Sealed? || pc.Publishing? || pc.Handing? || pc.Setting?
  }

  /** What the turn under way has got through. */
  ghost predicate TurnOk(m: Loop, j: Joint) {
    var pc := j.sys.builder.pc;
    && (PastPool(pc) ==> m.pool(j.head, j.turn) && j.sys.builder.executed == m.runs(j.head, j.turn))
    && (pc.Sealed? || pc.Publishing? || pc.Handing? || pc.Setting? ==> m.block(j.head, j.turn))
  }

  /** Before the job ends: at the head the completed turns lead to. */
  ghost predicate Working(m: Loop, good: State -> bool, st: State, j: Joint) {
    && RunTo(m, st, j.done) == Some(j.head) && good(j.head)
    && j.head.extra.index == j.sys.builder.index && j.head.extra.count == j.sys.count
    && |j.head.stream| == j.head.extra.index
    && TurnOk(m, j)
  }

  ghost predicate JointInv(m: Loop, good: State -> bool, st: State, j: Joint) {
    && P.Inv(j.sys) && j.sys.builder.index >= 1
    && if j.sys.builder.pc.Exited? then Shows(j.sys.builder, LoopRun(m, st, j.done)) else Working(m, good, st, j)
  }

  /** A turn that ends the job leaves the loop where the protocol says. */
  lemma EndedShows(m: Loop, good: State -> bool, st: State, j: Joint, i: Input, b: P.Builder)
    requires Working(m, good, st, j) && j.head.extra.index <= j.head.extra.count
    requires !m.next(j.head, i).0 && Shows(b, m.next(j.head, i).1)
    ensures Shows(b, LoopRun(m, st, j.done + [i]))
  {
    LoopResumes(m, st, j.done, [i]);
    assert [i][1..] == [];
  }

  /** How the builder gets past one of its own actions, and how far it has come. */
  ghost predicate Gets(b: P.Builder, a: P.Action, b': P.Builder) {
    && b'.index == b.index && b'.cell == b.cell == Some(b.index - 1)
    && (a.FinishPool? ==> b.pc.Polling?) && (a.FinishBlock? ==> b.pc.Sealing?) && (a.LookAtBlockToken? ==> b.pc.Sealed?)
    && (a.Publish? ==> b.pc.Publishing?) && (a.HandOver? ==> b.pc.Handing?)
    && |b'.stream| == b.index + (if a.HandOver? || (a.Publish? && a.ok) then 1 else 0)
    && (a.FinishBlock? || a.Publish? || a.HandOver? ==> (b'.pc.Exited? <==> !a.ok))
    && (a.FinishPool? && !b'.pc.Exited? ==> a.ok)
    && (!b'.pc.Exited? ==> PastPool(b'.pc))
    && (b'.pc.Sealing? ==> a.FinishPool?) && b'.executed == b.executed
  }

  lemma WorkShows(sys: P.Sys, a: P.Action)
    requires P.Inv(sys) && IsWork(a) && !a.SetCell? && P.Step(sys, a).Some?
    ensures
      var sys' := P.Step(sys, a).value;
      1 <= sys.builder.index <= sys.count && sys'.count == sys.count && Gets(sys.builder, a, sys'.builder)
  {
  }

  lemma WorkEnds(m: Loop, good: State -> bool, st: State, j: Joint, a: P.Action, b: P.Builder)
    requires Lawful(m, good) && Working(m, good, st, j) && IsWork(a) && !a.SetCell? && Agrees(m, j, a)
    requires 1 <= j.sys.builder.index <= j.sys.count && Gets(j.sys.builder, a, b) && b.pc.Exited?
    ensures Shows(b, LoopRun(m, st, j.done + [InputOf(j.turn, CourseOf(a))]))
  {
    assert TurnLaw(m, j.head, j.turn, CourseOf(a));
    EndedShows(m, good, st, j, InputOf(j.turn, CourseOf(a)), b);
  }

  lemma WorkKeeps(m: Loop, good: State -> bool, st: State, j: Joint, a: P.Action, v: View)
    requires Lawful(m, good) && JointInv(m, good, st, j) && IsWork(a) && !a.SetCell? && JointStep(m, j, a, v).Some?
    requires P.Inv(JointStep(m, j, a, v).value.sys)
    ensures JointInv(m, good, st, JointStep(m, j, a, v).value)
  {
    WorkShows(j.sys, a);
    var sys := P.Step(j.sys, a).value;
    if sys.builder.pc.Exited? {
      WorkEnds(m, good, st, j, a, sys.builder);
    }
  }

  lemma SetCellKeeps(m: Loop, good: State -> bool, st: State, j: Joint, v: View)
    requires Lawful(m, good) && JointInv(m, good, st, j) && JointStep(m, j, P.SetCell, v).Some?
    requires P.Inv(JointStep(m, j, P.SetCell, v).value.sys)
    ensures JointInv(m, good, st, JointStep(m, j, P.SetCell, v).value)
  {
    var i := InputOf(j.turn, SMOOTH);
    assert TurnLaw(m, j.head, j.turn, SMOOTH) && good(m.next(j.head, i).1);
    RunToOneMore(m, st, j.done, i);
  }

  /** Everything else leaves what is shown alone; of it, only waiting for a signal can end the job. */
  lemma OthersShow(sys: P.Sys, a: P.Action)
    requires P.Inv(sys) && sys.builder.index >= 1 && !IsWork(a) && P.Step(sys, a).Some?
    ensures
      var sys' := P.Step(sys, a).value;
      var b, b' := sys.builder, sys'.builder;
      && b'.index == b.index && b'.cell == b.cell && b'.stream == b.stream && sys'.count == sys.count
      && (b'.pc.Exited? ==> b.pc.Exited? || b.pc.Waiting?)
      && (b.pc.Exited? ==> b'.pc.Exited?)
      && (PastPool(b'.pc) ==> b'.pc == b.pc && b'.executed == b.executed)
      && (a.Receive? && !b'.pc.Exited? ==> b'.pc.Polling?)
  {
  }

  lemma WorkingShows(m: Loop, good: State -> bool, st: State, j: Joint)
    requires Working(m, good, st, j) && P.Inv(j.sys) && j.sys.builder.pc.Waiting?
    ensures Shows(j.sys.builder, LoopRun(m, st, j.done))
  {
    LoopResumes(m, st, j.done, []);
    assert j.done + [] == j.done;
  }

  lemma OthersKeep(m: Loop, good: State -> bool, st: State, j: Joint, a: P.Action, v: View)
    requires JointInv(m, good, st, j) && !IsWork(a) && JointStep(m, j, a, v).Some?
    requires P.Inv(JointStep(m, j, a, v).value.sys)
    ensures JointInv(m, good, st, JointStep(m, j, a, v).value)
  {
    OthersShow(j.sys, a);
    if j.sys.builder.pc.Waiting? {
      WorkingShows(m, good, st, j);
    }
  }

  lemma {:induction false} JointRunKeeps(m: Loop, good: State -> bool, j: Joint, steps: seq<(P.Action, View)>)
    requires Lawful(m, good) && JointInv(m, good, j.head, j) && JointRun(m, j, steps).Some?
    ensures JointInv(m, good, j.head, JointRun(m, j, steps).value)
  {
    if steps != [] {
      var before := steps[..|steps| - 1];
      var (a, v) := steps[|steps| - 1];
      JointRunKeeps(m, good, j, before);
      var j' := JointRun(m, j, before).value;
      P.StepKeepsInv(j'.sys, a);
      if a.SetCell? {
        SetCellKeeps(m, good, j.head, j', v);
      } else if IsWork(a) {
        WorkKeeps(m, good, j.head, j', a, v);
      } else {
        OthersKeep(m, good, j.head, j', a, v);
      }
    }
  }

  /** Past its pool loop, the builder has executed what the data says, and nothing on a stale token. */
  lemma JointRunGoverns(m: Loop, good: State -> bool, j: Joint, steps: seq<(P.Action, View)>)
    requires Lawful(m, good) && good(j.head) && j.done == [] && |j.head.stream| == j.head.extra.index
    requires P.Inv(j.sys) && j.sys.builder.pc.Waiting?
    requires j.sys.builder.index == j.head.extra.index && j.sys.count == j.head.extra.count
    requires JointRun(m, j, steps).Some?
    ensures
      var j' := JointRun(m, j, steps).value;
      PastPool(j'.sys.builder.pc) ==>
        && j'.sys.builder.executed == m.runs(j'.head, j'.turn) && j'.sys.builder.late <= 1
        && (j'.sys.builder.stale ==> m.runs(j'.head, j'.turn) == 0)
  {
    JointRunKeeps(m, good, j, steps);
  }

  /** From a good head on, whenever the builder waits or has returned, the loop shows what the builder shows. */
  lemma JointRunShows(m: Loop, good: State -> bool, j: Joint, steps: seq<(P.Action, View)>)
    requires Lawful(m, good) && good(j.head) && j.done == [] && |j.head.stream| == j.head.extra.index
    requires P.Inv(j.sys) && j.sys.builder.pc.Waiting?
    requires j.sys.builder.index == j.head.extra.index && j.sys.count == j.head.extra.count
    requires JointRun(m, j, steps).Some?
    ensures
      var j' := JointRun(m, j, steps).value;
      j'.sys.builder.pc.Waiting? || j'.sys.builder.pc.Exited? ==> Shows(j'.sys.builder, LoopRun(m, j.head, j'.done))
  {
    JointRunKeeps(m, good, j, steps);
    var j' := JointRun(m, j, steps).value;
    if j'.sys.builder.pc.Waiting? {
      WorkingShows(m, good, j.head, j');
    }
  }

  /** The payload in the cell is the one of the last completed turn. */
  ghost predicate CellIsLast(b: P.Builder, st: State) {
    st.extra.index >= 1 && b.cell == Some(st.extra.index - 1)
  }

  lemma StartsInvariant(m: Loop, good: State -> bool, j: Joint)
    requires good(j.head) && j.done == [] && |j.head.stream| == j.head.extra.index
    requires P.Inv(j.sys) && j.sys.builder.pc.Waiting?
    requires j.sys.builder.index == j.head.extra.index && j.sys.count == j.head.extra.count
    ensures JointInv(m, good, j.head, j)
  {
  }

  lemma InvCell(m: Loop, good: State -> bool, st: State, j: Joint)
    requires JointInv(m, good, st, j)
    ensures CellIsLast(j.sys.builder, LoopRun(m, st, j.done))
  {
    if !j.sys.builder.pc.Exited? {
      LoopResumes(m, st, j.done, []);
      assert j.done + [] == j.done;
    }
  }

  /** At any time, the cell holds the payload the completed turns of the loop leave in it. */
  lemma JointRunCell(m: Loop, good: State -> bool, j: Joint, steps: seq<(P.Action, View)>)
    requires Lawful(m, good) && good(j.head) && j.done == [] && |j.head.stream| == j.head.extra.index
    requires P.Inv(j.sys) && j.sys.builder.pc.Waiting?
    requires j.sys.builder.index == j.head.extra.index && j.sys.count == j.head.extra.count
    requires JointRun(m, j, steps).Some?
    ensures
      var j' := JointRun(m, j, steps).value;
      CellIsLast(j'.sys.builder, LoopRun(m, j.head, j'.done))
  {
    StartsInvariant(m, good, j);
    JointRunKeeps(m, good, j, steps);
    InvCell(m, good, j.head, JointRun(m, j, steps).value);
  }

  /* The real loop */

  /** How many pool transactions the turn executes. */
  function PoolExecutions(s: Settings, st: State, v: View): nat {
    Executions(s.Pool(), LimitsOf(s, st), PoolStart(s, st, InputOf(v, SMOOTH)), v.live)
  }

  function LoopOf(s: Settings): Loop {
    Loop((st: State, i: Input) => (NextFlashblock(s, st, i).0 == Continue, NextFlashblock(s, st, i).1),
         (st: State, v: View) => Flashblocks.PoolPhase(s, st, InputOf(v, SMOOTH)).0 != Failed,
         (st: State, v: View) => BeforeClosing(s, st, InputOf(v, SMOOTH)).Accepted? && Sealable(s.Block()),
         (st: State, v: View) => PoolExecutions(s, st, v),
         (st: State, v: View) => Flashblocks.PoolPhase(s, st, InputOf(v, SMOOTH)).0 == Cancelled)
  }

  ghost function Heads(s: Settings, db0: Db): State -> bool {
    (st: State) => LoopHead(s, db0, st)
  }

  lemma {:induction false} LoopRunIsBuildLoop(s: Settings, st: State, inputs: seq<Input>)
    ensures LoopRun(LoopOf(s), st, inputs) == BuildLoop(s, st, inputs).1
    decreases |inputs|
  {
    if inputs != [] && st.extra.index <= st.extra.count {
      LoopRunIsBuildLoop(s, NextFlashblock(s, st, inputs[0]).1, inputs[1..]);
    }
  }

  /** A turn's pool phase and block depend on what it is shown, not on its course. */
  lemma PhasesOf(s: Settings, st: State, v: View, c: Course)
    ensures Flashblocks.PoolPhase(s, st, InputOf(v, c)) == Flashblocks.PoolPhase(s, st, InputOf(v, SMOOTH))
    ensures BeforeClosing(s, st, InputOf(v, c)) == BeforeClosing(s, st, InputOf(v, SMOOTH))
    ensures ExecutePhases(s, st, InputOf(v, c)).Draft? <==>
              && Flashblocks.PoolPhase(s, st, InputOf(v, SMOOTH)).0 != Failed && !c.cancelledAfterPool
              && BeforeClosing(s, st, InputOf(v, SMOOTH)).Accepted?
  {
  }

  lemma TurnIsLawful(s: Settings, db0: Db, st: State, v: View, c: Course)
    requires WellBehaved(s.env) && LoopHead(s, db0, st)
    ensures TurnLaw(LoopOf(s), st, v, c)
  {
    PhasesKeep(s, db0, st, InputOf(v, c));
    PhasesOf(s, st, v, c);
  }

  lemma LoopIsLawful(s: Settings, db0: Db)
    requires WellBehaved(s.env) && Tracks(db0) && db0.bundle == EMPTY_BUNDLE
    ensures Lawful(LoopOf(s), Heads(s, db0))
  {
    var m := LoopOf(s);
    forall st: State, v: View, c: Course | LoopHead(s, db0, st)
      ensures TurnLaw(m, st, v, c) && (m.next(st, InputOf(v, c)).0 ==> Heads(s, db0)(m.next(st, InputOf(v, c)).1))
    {
      TurnIsLawful(s, db0, st, v, c);
      TurnKeepsLoopHead(s, db0, st, InputOf(v, c));
    }
  }

  /** The job has just published its fallback block. */
  ghost predicate LoopStarts(s: Settings, db0: Db, j: Joint) {
    && LoopHead(s, db0, j.head) && j.done == []
    && P.Inv(j.sys) && j.sys.builder.pc.Waiting?
    && j.sys.builder.index == j.head.extra.index && j.sys.count == j.head.extra.count
  }

  /** That is the case the first time the builder waits, whatever else has happened by then. */
  lemma FallbackStartsLoop(s: Settings, db0: Db, limiter: Limiter, start: Start, capacity: nat, immediate: bool,
                           actions: seq<P.Action>, v: View)
    requires WellBehaved(s.env) && Tracks(db0) && db0.bundle == EMPTY_BUNDLE
    requires Fallback(s, db0, limiter, start).0 == Continue
    requires P.Run(P.Init(start.count, capacity, immediate), actions).Some?
    requires
      var b := P.Run(P.Init(start.count, capacity, immediate), actions).value.builder;
      b.pc.Waiting? && b.index == 1
    ensures
      var sys := P.Run(P.Init(start.count, capacity, immediate), actions).value;
      LoopStarts(s, db0, Joint(sys, Fallback(s, db0, limiter, start).1, v, []))
  {
    P.ReachableStatesAreSafe(start.count, capacity, immediate, actions);
    FallbackReachesLoopHead(s, db0, limiter, start);
  }

  /**
    Whenever the builder is waiting for a signal or has returned, the turns it has taken are inputs on which the
    sequential loop publishes as many flashblocks and leaves the same one in the cell. So every theorem about
    runs of the loop is one about all interleavings.
   */
  lemma InterleavingsAreLoopRuns(s: Settings, db0: Db, j: Joint, steps: seq<(P.Action, View)>)
    requires WellBehaved(s.env) && Tracks(db0) && db0.bundle == EMPTY_BUNDLE && LoopStarts(s, db0, j)
    requires JointRun(LoopOf(s), j, steps).Some?
    ensures
      var j' := JointRun(LoopOf(s), j, steps).value;
      j'.sys.builder.pc.Waiting? || j'.sys.builder.pc.Exited? ==>
        Shows(j'.sys.builder, BuildLoop(s, j.head, j'.done).1)
  {
    LoopIsLawful(s, db0);
    JointRunShows(LoopOf(s), Heads(s, db0), j, steps);
    LoopRunIsBuildLoop(s, j.head, JointRun(LoopOf(s), j, steps).value.done);
  }

  /** The flashblock holds nothing of the pool, and no sender was charged for it. */
  predicate NoPoolWork(s: Settings, st: State, v: View) {
    var m := Flashblocks.PoolPhase(s, st, InputOf(v, SMOOTH)).1;
    m.info == Opening(s, st).info && m.db == Opening(s, st).db && m.limiter == st.limiter
  }

  lemma NoRunsNoPoolWork(s: Settings, st: State, v: View)
    requires PoolExecutions(s, st, v) == 0
    ensures NoPoolWork(s, st, v)
  {
    NoExecutionsNoWork(s.Pool(), LimitsOf(s, st), PoolStart(s, st, InputOf(v, SMOOTH)), v.live);
  }

  /**
    The tokens govern the real pool work: over every interleaving, once a flashblock is past its pool loop it has
    executed exactly as many pool transactions as its token let through. Started on a stale token it has executed
    none, so nothing of the pool is in it and no sender was charged; otherwise at most one of them ran after the
    token was cancelled.
   */
  lemma TokensGovernPoolWork(s: Settings, db0: Db, j: Joint, steps: seq<(P.Action, View)>)
    requires WellBehaved(s.env) && Tracks(db0) && db0.bundle == EMPTY_BUNDLE && LoopStarts(s, db0, j)
    requires JointRun(LoopOf(s), j, steps).Some?
    ensures
      var j' := JointRun(LoopOf(s), j, steps).value;
      var b := j'.sys.builder;
      PastPool(b.pc) ==>
        && b.executed == PoolExecutions(s, j'.head, j'.turn) && b.late <= 1
        && (b.stale ==> NoPoolWork(s, j'.head, j'.turn))
  {
    LoopIsLawful(s, db0);
    JointRunGoverns(LoopOf(s), Heads(s, db0), j, steps);
    var j' := JointRun(LoopOf(s), j, steps).value;
    if PastPool(j'.sys.builder.pc) && j'.sys.builder.stale {
      NoRunsNoPoolWork(s, j'.head, j'.turn);
    }
  }

  /**
    In particular, over every interleaving: what is in the cell replays, and the stream adds up to it except for
    one flashblock exactly when a hand-over failed.
   */
  lemma InterleavingsAgree(s: Settings, db0: Db, j: Joint, steps: seq<(P.Action, View)>)
    requires WellBehaved(s.env) && Tracks(db0) && db0.bundle == EMPTY_BUNDLE && LoopStarts(s, db0, j)
    requires JointRun(LoopOf(s), j, steps).Some?
    ensures
      var j' := JointRun(LoopOf(s), j, steps).value;
      var st := BuildLoop(s, j.head, j'.done).1;
      && InStep(st, SomeHandOverFails(s, j.head, j'.done)) && st.cell.Some? && SealedFrom(s, db0, st.cell.value)
      && (j'.sys.builder.pc.Waiting? || j'.sys.builder.pc.Exited? ==> |j'.sys.builder.stream| == |st.stream|)
  {
    InterleavingsAreLoopRuns(s, db0, j, steps);
    RunsAgree(s, db0, j.head, JointRun(LoopOf(s), j, steps).value.done);
  }

  /** The k-th flashblock of the stream completes the block in the cell. */
  ghost predicate CellHolds(st: State, k: nat) {
    && k < |st.stream| && st.stream[k].index == k && st.cell.Some?
    && st.cell.value.header == st.stream[k].header
    && st.cell.value.header.txs == Deltas(st.stream[..k + 1])
  }

  /** The last completed flashblock does. */
  ghost predicate LastHolds(st: State) {
    st.extra.index >= 1 && CellHolds(st, st.extra.index - 1)
  }

  lemma InStepHolds(st: State, ahead: bool)
    requires InStep(st, ahead)
    ensures LastHolds(st)
  {
    var shown := if ahead then st.stream[..st.extra.index] else st.stream;
    assert Agree(shown, st.cell) && |shown| == st.extra.index;
    assert shown == st.stream[..st.extra.index] && shown[|shown| - 1] == st.stream[st.extra.index - 1];
  }

  lemma LoopCellHolds(s: Settings, db0: Db, st: State, inputs: seq<Input>)
    requires WellBehaved(s.env) && Tracks(db0) && db0.bundle == EMPTY_BUNDLE && LoopHead(s, db0, st)
    ensures LastHolds(BuildLoop(s, st, inputs).1)
  {
    RunsAgree(s, db0, st, inputs);
    InStepHolds(BuildLoop(s, st, inputs).1, SomeHandOverFails(s, st, inputs));
  }

  lemma ResolvingReadsTheCell(m: Loop, j: Joint, v: View)
    requires JointStep(m, j, P.Resolve, v).Some?
    ensures j.sys.builder.cell.Some? && JointStep(m, j, P.Resolve, v).value.sys.resolved == j.sys.builder.cell
  {
    P.ResolveGivesTheCell(j.sys, P.Resolve);
  }

  /** The cell of every interleaving is the cell of the loop. */
  lemma CellIsTheLoops(s: Settings, db0: Db, j: Joint, steps: seq<(P.Action, View)>)
    requires WellBehaved(s.env) && Tracks(db0) && db0.bundle == EMPTY_BUNDLE && LoopStarts(s, db0, j)
    requires JointRun(LoopOf(s), j, steps).Some?
    ensures
      var j' := JointRun(LoopOf(s), j, steps).value;
      j'.sys.builder.cell.Some? && CellHolds(BuildLoop(s, j.head, j'.done).1, j'.sys.builder.cell.value)
  {
    LoopIsLawful(s, db0);
    JointRunCell(LoopOf(s), Heads(s, db0), j, steps);
    var done := JointRun(LoopOf(s), j, steps).value.done;
    LoopRunIsBuildLoop(s, j.head, done);
    LoopCellHolds(s, db0, j.head, done);
  }

  /**
    Whenever the Engine API resolves, in the middle of a turn or not, it gets the payload the sequential loop has
    left in its cell after the completed turns: the block the last of their flashblocks completes.
   */
  lemma ResolvedPayloadIsTheLoops(s: Settings, db0: Db, j: Joint, steps: seq<(P.Action, View)>, v: View)
    requires WellBehaved(s.env) && Tracks(db0) && db0.bundle == EMPTY_BUNDLE && LoopStarts(s, db0, j)
    requires JointRun(LoopOf(s), j, steps).Some?
    requires JointStep(LoopOf(s), JointRun(LoopOf(s), j, steps).value, P.Resolve, v).Some?
    ensures
      var j' := JointRun(LoopOf(s), j, steps).value;
      var r := JointStep(LoopOf(s), j', P.Resolve, v).value.sys.resolved;
      r.Some? && CellHolds(BuildLoop(s, j.head, j'.done).1, r.value)
  {
    CellIsTheLoops(s, db0, j, steps);
    ResolvingReadsTheCell(LoopOf(s), JointRun(LoopOf(s), j, steps).value, v);
  }
}
