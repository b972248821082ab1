/**
 Hot reload: file changes reach the event loop as callbacks, callbacks re-arm a debounce timer, timers
 start reload tasks, and a lock serializes the tasks. The steps of these parties interleave freely; the
 module proves that no change of the file is overlooked and that the system always comes to rest.
 */
module ConfigWatcher {
  import opened Common

  /** What the file holds after a change: a loadable configuration, or text that fails to load. */
  datatype Content<C> = Loadable(config: C) | Broken

  /** Where a reload task is. `Reading`, `Loaded` and `Notifying` are inside the lock. */
  datatype Pc<C> = Created | Waiting | Reading | Loaded(config: C) | Notifying | Done

  datatype State<C> = State(
    file: seq<Content<C>>,     // every content the file has had; the last one is there now
    callbacks: nat,            // scheduled on the loop, not yet run
    armed: set<nat>,           // timers that will fire
    pending: Option<nat>,      // the watcher's handle on its timer
    nextTimer: nat,
    tasks: seq<Pc<C>>,
    current: C,                // what the holder holds
    lastRead: nat,             // the version the latest read saw
    lastLoad: C,               // the result of the latest read that succeeded
    stopped: bool
  )

  datatype Step<C> =
    | Write(content: Content<C>, notices: nat)  // the file changes; the observer posts callbacks
    | RunCallback                               // the debounce timer is re-armed
    | Fire(timer: nat)                          // a timer starts a reload task
    | Begin(task: nat)                          // the task forgets the handle and queues for the lock
    | Acquire(task: nat)
    | Read(task: nat)
    | Install(task: nat)                        // the holder takes the new configuration
    | Release(task: nat)                        // all subscribers are done
    | Stop

  function Initial<C>(config: C): State<C> {
    State([Loadable(config)], 0, {}, None, 0, [], config, 0, config, false)
  }

  // -------------------------------------------------------------- transitions

  predicate InLock<C>(pc: Pc<C>) { pc.Reading? || pc.Loaded? || pc.Notifying? }

  predicate LockFree<C>(s: State<C>) {
    forall i :: 0 <= i < |s.tasks| ==> !InLock(s.tasks[i])
  }

  predicate Enabled<C>(s: State<C>, step: Step<C>) {
    match step
    case Write(_, notices) => notices >= 1
    case RunCallback => s.callbacks > 0
    case Fire(t) => t in s.armed
    case Begin(i) => i < |s.tasks| && s.tasks[i].Created?
    case Acquire(i) => i < |s.tasks| && s.tasks[i].Waiting? && LockFree(s)
    case Read(i) => i < |s.tasks| && s.tasks[i].Reading?
    case Install(i) => i < |s.tasks| && s.tasks[i].Loaded?
    case Release(i) => i < |s.tasks| && s.tasks[i].Notifying?
    case Stop => true
  }

  /** Cancelling a handle whose timer already fired does nothing. */
  function Cancel(armed: set<nat>, pending: Option<nat>): set<nat> {
    if pending.Some? then armed - {pending.value} else armed
  }

  function Take<C>(s: State<C>, step: Step<C>): State<C>
    requires s.file != [] && Enabled(s, step)
  {
    match step
    case Write(content, notices) =>
      s.(file := s.file + [content], callbacks := if s.stopped then s.callbacks else s.callbacks + notices)
    case RunCallback =>
      s.(callbacks := s.callbacks - 1, armed := Cancel(s.armed, s.pending) + {s.nextTimer},
         pending := Some(s.nextTimer), nextTimer := s.nextTimer + 1)
    case Fire(t) => s.(armed := s.armed - {t}, tasks := s.tasks + [Created])
    case Begin(i) => s.(pending := None, tasks := s.tasks[i := Waiting])
    case Acquire(i) => s.(tasks := s.tasks[i := Reading])
    case Read(i) =>
      var version := |s.file| - 1;
      (match s.file[version]
       case Broken => s.(tasks := s.tasks[i := Done], lastRead := version)
       case Loadable(c) => s.(tasks := s.tasks[i := Loaded(c)], lastRead := version, lastLoad := c))
    case Install(i) => s.(current := s.tasks[i].config, tasks := s.tasks[i := Notifying])
    case Release(i) => s.(tasks := s.tasks[i := Done])
    case Stop => s.(armed := Cancel(s.armed, s.pending), pending := None, stopped := true)
  }

  /** A disabled step is skipped. */
  function Next<C>(s: State<C>, step: Step<C>): (t: State<C>)
    requires s.file != []
    ensures t.file != []
  {
    if Enabled(s, step) then Take(s, step) else s
  }

  function Replay<C>(config: C, steps: seq<Step<C>>): (s: State<C>)
    ensures s.file != []
  {
    if steps == [] then Initial(config)
    else Next(Replay(config, steps[..|steps| - 1]), steps[|steps| - 1])
  }

  lemma ReplayOneMore<C>(config: C, steps: seq<Step<C>>, step: Step<C>)
    ensures Replay(config, steps + [step]) == Next(Replay(config, steps), step)
  {
    assert (steps + [step])[..|steps + [step]| - 1] == steps;
  }

  // ---------------------------------------------------------------- invariant

  predicate WillRead<C>(pc: Pc<C>) { pc.Created? || pc.Waiting? || pc.Reading? }

  /** A read of the file is still to come. */
  ghost predicate ReadAhead<C>(s: State<C>) {
    || s.callbacks > 0
    || s.armed != {}
    || exists i :: 0 <= i < |s.tasks| && WillRead(s.tasks[i])
  }

  ghost predicate Invariant<C>(s: State<C>) {
    && s.file != [] && s.lastRead < |s.file|
    && (forall i, j :: 0 <= i < j < |s.tasks| ==> !(InLock(s.tasks[i]) && InLock(s.tasks[j])))
    // No change is overlooked.
    && (!s.stopped && s.lastRead < |s.file| - 1 ==> ReadAhead(s))
    // The holder lags behind the latest load only while that load is being installed.
    && (forall i :: 0 <= i < |s.tasks| && s.tasks[i].Loaded? ==> s.tasks[i].config == s.lastLoad)
    && ((forall i :: 0 <= i < |s.tasks| ==> !s.tasks[i].Loaded?) ==> s.current == s.lastLoad)
    && (s.file[s.lastRead].Loadable? ==> s.lastLoad == s.file[s.lastRead].config)
  }

  lemma TasksKeepInvariant<C>(s: State<C>, step: Step<C>)
    requires Invariant(s) && Enabled(s, step)
    requires step.Begin? || step.Acquire? || step.Read? || step.Install? || step.Release?
    ensures Invariant(Take(s, step))
  {
    var t := Take(s, step);
    var i := step.task;
    forall j, k | 0 <= j < k < |t.tasks|
      ensures !(InLock(t.tasks[j]) && InLock(t.tasks[k]))
    {
      assert !(InLock(s.tasks[j]) && InLock(s.tasks[k]));
    }
    if !step.Read? && ReadAhead(s) && s.callbacks == 0 && s.armed == {} {
      var k :| 0 <= k < |s.tasks| && WillRead(s.tasks[k]);
      assert WillRead(t.tasks[k]);
    }
    if step.Install? {
      assert s.current == s.lastLoad || t.current == t.lastLoad;
    }
    if step.Release? || step.Begin? || step.Acquire? {
      assert forall k :: 0 <= k < |s.tasks| && s.tasks[k].Loaded? ==> t.tasks[k] == s.tasks[k];
    }
    if step.Read? && t.tasks[i].Loaded? {
      assert t.tasks[i].config == t.lastLoad;
      assert forall k :: 0 <= k < |s.tasks| && k != i ==> !InLock(s.tasks[k]);
    }
  }

  lemma StepKeepsInvariant<C>(s: State<C>, step: Step<C>)
    requires Invariant(s) && Enabled(s, step)
    ensures Invariant(Take(s, step))
  {
    var t := Take(s, step);
    match step
    case Write(content, notices) =>
    case RunCallback =>
      assert s.nextTimer in t.armed;
    case Fire(timer) =>
      assert WillRead(t.tasks[|s.tasks|]);
      assert forall k :: 0 <= k < |s.tasks| ==> t.tasks[k] == s.tasks[k];
    case Stop =>
    case _ => TasksKeepInvariant(s, step);
  }

  lemma {:induction false} RunsKeepInvariant<C>(config: C, steps: seq<Step<C>>)
    ensures Invariant(Replay(config, steps))
  {
    if steps != [] {
      var before, step := Replay(config, steps[..|steps| - 1]), steps[|steps| - 1];
      RunsKeepInvariant(config, steps[..|steps| - 1]);
      if Enabled(before, step) {
        StepKeepsInvariant(before, step);
      }
    }
  }

  /** Subscribers are told of configurations that the holder has taken, and of nothing else. */
  lemma OnlyInstallNotifies<C>(s: State<C>, step: Step<C>, i: nat)
    requires s.file != [] && Enabled(s, step) && i < |Take(s, step).tasks|
    requires Take(s, step).tasks[i].Notifying? && !(i < |s.tasks| && s.tasks[i].Notifying?)
    ensures step == Install(i) && i < |s.tasks| && s.tasks[i] == Loaded(Take(s, step).current)
  {
  }

  /** No callback, timer or reload task is outstanding. */
  ghost predicate Quiet<C>(s: State<C>) {
    s.callbacks == 0 && s.armed == {} && forall i :: 0 <= i < |s.tasks| ==> s.tasks[i].Done?
  }

  /** The latest read saw the latest content, and the holder has it, or the last one that loaded. */
  ghost predicate UpToDate<C>(s: State<C>)
    requires s.file != []
  {
    && s.lastRead == |s.file| - 1
    && s.current == s.lastLoad
    && (s.file[|s.file| - 1].Loadable? ==> s.current == s.file[|s.file| - 1].config)
  }

  lemma QuietIsUpToDate<C>(s: State<C>)
    requires Invariant(s) && Quiet(s) && !s.stopped
    ensures UpToDate(s)
  {
  }

  /**
   No lost reload: whenever a running watcher is quiet, the latest read saw the latest content, and the
   holder holds the latest content if it loads, else the most recent one that loaded.
   */
  lemma QuietMeansUpToDate<C>(config: C, steps: seq<Step<C>>)
    requires Quiet(Replay(config, steps)) && !Replay(config, steps).stopped
    ensures UpToDate(Replay(config, steps))
  {
    RunsKeepInvariant(config, steps);
    QuietIsUpToDate(Replay(config, steps));
  }

  /** Whenever no load is on its way to the holder, the holder has the most recent successful load. */
  lemma HolderIsLatestLoad<C>(config: C, steps: seq<Step<C>>)
    ensures var s := Replay(config, steps);
            (forall i :: 0 <= i < |s.tasks| ==> !s.tasks[i].Loaded?) ==> s.current == s.lastLoad
  {
    RunsKeepInvariant(config, steps);
  }

  // ------------------------------------------------------------ coming to rest

  function Weight<C>(pc: Pc<C>): nat {
    match pc
    case Created => 5
    case Waiting => 4
    case Reading => 3
    case Loaded(_) => 2
    case Notifying => 1
    case Done => 0
  }

  function TaskWork<C>(tasks: seq<Pc<C>>): nat {
    if tasks == [] then 0 else TaskWork(tasks[..|tasks| - 1]) + Weight(tasks[|tasks| - 1])
  }

  /** An upper bound on the steps the watcher takes by itself. */
  function Work<C>(s: State<C>): nat {
    7 * s.callbacks + 6 * |s.armed| + TaskWork(s.tasks)
  }

  lemma {:induction false} TaskWorkUpdate<C>(tasks: seq<Pc<C>>, i: nat, pc: Pc<C>)
    requires i < |tasks|
    ensures TaskWork(tasks[i := pc]) + Weight(tasks[i]) == TaskWork(tasks) + Weight(pc)
  {
    var m := |tasks| - 1;
    if i < m {
      TaskWorkUpdate(tasks[..m], i, pc);
      assert tasks[i := pc][..m] == tasks[..m][i := pc];
    } else {
      assert tasks[i := pc][..m] == tasks[..m];
    }
  }

  predicate Internal<C>(step: Step<C>) { !step.Write? && !step.Stop? }

  /** Every step other than a new change brings the watcher nearer to rest. */
  lemma InternalStepsEnd<C>(s: State<C>, step: Step<C>)
    requires s.file != [] && Enabled(s, step) && Internal(step)
    ensures Work(Take(s, step)) < Work(s)
  {
    match step
    case RunCallback =>
      assert |Cancel(s.armed, s.pending)| <= |s.armed|;
    case Fire(t) =>
      assert |s.armed - {t}| == |s.armed| - 1;
      assert (s.tasks + [Created])[..|s.tasks|] == s.tasks;
    case Begin(i) => TaskWorkUpdate(s.tasks, i, Waiting);
    case Acquire(i) => TaskWorkUpdate(s.tasks, i, Reading);
    case Read(i) => TaskWorkUpdate(s.tasks, i, Take(s, step).tasks[i]);
    case Install(i) => TaskWorkUpdate(s.tasks, i, Notifying);
    case Release(i) => TaskWorkUpdate(s.tasks, i, Done);
  }

  /** As long as the watcher is not quiet, some step is possible: it can never get stuck. */
  lemma NeverStuck<C>(s: State<C>) returns (step: Step<C>)
    requires Invariant(s) && !Quiet(s)
    ensures Enabled(s, step) && Internal(step)
  {
    if s.callbacks > 0 {
      step := RunCallback;
    } else if s.armed != {} {
      var t :| t in s.armed;
      step := Fire(t);
    } else {
      var i :| 0 <= i < |s.tasks| && !s.tasks[i].Done?;
      if k :| 0 <= k < |s.tasks| && InLock(s.tasks[k]) {
        step := if s.tasks[k].Reading? then Read(k) else if s.tasks[k].Loaded? then Install(k) else Release(k);
      } else {
        step := if s.tasks[i].Created? then Begin(i) else Acquire(i);
      }
    }
  }

  /** The watcher can do nothing more by itself. */
  ghost predicate Halted<C(!new)>(s: State<C>) {
    forall step: Step<C> :: Internal(step) ==> !Enabled(s, step)
  }

  lemma HaltedIsQuiet<C(!new)>(s: State<C>)
    requires Invariant(s) && Halted(s)
    ensures Quiet(s)
  {
    if !Quiet(s) {
      var step := NeverStuck(s);
    }
  }

  /** `rest` continues the run with internal steps only, each of them really taken. */
  ghost predicate Continues<C>(config: C, steps: seq<Step<C>>, rest: seq<Step<C>>) {
    rest != [] ==>
      var k := |rest| - 1;
      && Continues(config, steps, rest[..k])
      && Internal(rest[k]) && Enabled(Replay(config, steps + rest[..k]), rest[k])
  }

  /** Left alone, the watcher takes at most `Work` steps, in whatever order they happen. */
  lemma {:induction false} RestIsReached<C>(config: C, steps: seq<Step<C>>, rest: seq<Step<C>>)
    requires Continues(config, steps, rest)
    ensures |rest| + Work(Replay(config, steps + rest)) <= Work(Replay(config, steps))
    ensures Replay(config, steps + rest).file == Replay(config, steps).file
    ensures Replay(config, steps + rest).stopped == Replay(config, steps).stopped
  {
    if rest == [] {
      assert steps + [] == steps;
    } else {
      var k := |rest| - 1;
      RestIsReached(config, steps, rest[..k]);
      var before := Replay(config, steps + rest[..k]);
      ReplayRestMore(config, steps, rest);
      InternalStepsEnd(before, rest[k]);
      assert Take(before, rest[k]).file == before.file && Take(before, rest[k]).stopped == before.stopped;
    }
  }

  /**
   Every change is picked up: when a running watcher that is left alone can do nothing more, the holder
   agrees with the file as it was left, if that content loads.
   */
  lemma ChangesAreAlwaysPickedUp<C(!new)>(config: C, steps: seq<Step<C>>, rest: seq<Step<C>>)
    requires !Replay(config, steps).stopped && Continues(config, steps, rest)
    requires Halted(Replay(config, steps + rest))
    ensures Quiet(Replay(config, steps + rest)) && UpToDate(Replay(config, steps + rest))
    ensures Replay(config, steps + rest).file == Replay(config, steps).file
  {
    RestIsReached(config, steps, rest);
    RunsKeepInvariant(config, steps + rest);
    HaltedIsQuiet(Replay(config, steps + rest));
    QuietIsUpToDate(Replay(config, steps + rest));
  }

  // -------------------------------------------------------------------- stop

  /**
   The timers that nobody can cancel any more: a starting reload task drops the watcher's handle on a
   timer that is still to fire. Firing ends that.
   */
  function Forgotten<C>(config: C, steps: seq<Step<C>>): set<nat> {
    if steps == [] then {}
    else
      ForgottenAfter(Replay(config, steps[..|steps| - 1]), Forgotten(config, steps[..|steps| - 1]), steps[|steps| - 1])
  }

  function ForgottenAfter<C>(s: State<C>, forgotten: set<nat>, step: Step<C>): set<nat> {
    if !Enabled(s, step) then forgotten
    else
      match step
      case Begin(_) => forgotten + if s.pending.Some? && s.pending.value in s.armed then {s.pending.value} else {}
      case Fire(t) => forgotten - {t}
      case _ => forgotten
  }

  /** What is armed is what was forgotten, and the handle's timer if it has not fired. */
  ghost predicate Handled<C>(s: State<C>, forgotten: set<nat>) {
    && Cancel(s.armed, s.pending) == forgotten
    && (forall t :: t in s.armed ==> t < s.nextTimer)
    && (s.pending.Some? ==> s.pending.value < s.nextTimer)
  }

  lemma HandledStep<C>(s: State<C>, forgotten: set<nat>, step: Step<C>)
    requires s.file != [] && Handled(s, forgotten)
    ensures Handled(Next(s, step), ForgottenAfter(s, forgotten, step))
  {
    if Enabled(s, step) {
      match step
      case RunCallback =>
        assert Cancel(Take(s, step).armed, Take(s, step).pending) == forgotten;
      case Fire(t) =>
        assert Cancel(s.armed - {t}, s.pending) == forgotten - {t};
      case Begin(i) =>
        assert s.armed == ForgottenAfter(s, forgotten, step);
      case _ =>
    }
  }

  lemma {:induction false} RunsAreHandled<C>(config: C, steps: seq<Step<C>>)
    ensures Handled(Replay(config, steps), Forgotten(config, steps))
  {
    if steps != [] {
      var k := |steps| - 1;
      RunsAreHandled(config, steps[..k]);
      HandledStep(Replay(config, steps[..k]), Forgotten(config, steps[..k]), steps[k]);
    }
  }

  /** Stopping a run leaves armed exactly the timers that were forgotten. */
  lemma StopLeavesForgotten<C>(config: C, steps: seq<Step<C>>)
    ensures Replay(config, steps + [Stop]).armed == Forgotten(config, steps)
  {
    RunsAreHandled(config, steps);
    ReplayOneMore(config, steps, Stop);
  }

  /** Internal steps other than a read leave a coming read coming, and bring none about by themselves. */
  lemma ReadAheadKept<C>(s: State<C>, step: Step<C>)
    requires s.file != [] && Enabled(s, step) && Internal(step) && !step.Read?
    ensures ReadAhead(s) <==> ReadAhead(Take(s, step))
  {
    var t := Take(s, step);
    match step
    case RunCallback =>
      assert s.nextTimer in t.armed;
    case Fire(timer) =>
      assert WillRead(t.tasks[|s.tasks|]);
    case Begin(i) => OneTaskMoves(s.tasks, t.tasks, i);
    case Acquire(i) => OneTaskMoves(s.tasks, t.tasks, i);
    case Install(i) => OneTaskMoves(s.tasks, t.tasks, i);
    case Release(i) => OneTaskMoves(s.tasks, t.tasks, i);
  }

  lemma OneTaskMoves<C>(before: seq<Pc<C>>, after: seq<Pc<C>>, i: nat)
    requires i < |before| && |after| == |before| && (WillRead(before[i]) <==> WillRead(after[i]))
    requires forall k :: 0 <= k < |before| && k != i ==> after[k] == before[k]
    ensures (exists k :: 0 <= k < |before| && WillRead(before[k]))
            <==> exists k :: 0 <= k < |after| && WillRead(after[k])
  {
    if k :| 0 <= k < |before| && WillRead(before[k]) {
      assert WillRead(after[k]);
    }
    if k :| 0 <= k < |after| && WillRead(after[k]) {
      assert WillRead(before[k]);
    }
  }

  predicate HasRead<C>(rest: seq<Step<C>>) {
    rest != [] && (rest[|rest| - 1].Read? || HasRead(rest[..|rest| - 1]))
  }

  /** Any steps, further changes of the file and another stop included, each of them really taken. */
  ghost predicate Follows<C>(config: C, steps: seq<Step<C>>, rest: seq<Step<C>>) {
    rest != [] ==>
      var k := |rest| - 1;
      Follows(config, steps, rest[..k]) && Enabled(Replay(config, steps + rest[..k]), rest[k])
  }

  lemma {:induction false} ContinuingFollows<C>(config: C, steps: seq<Step<C>>, rest: seq<Step<C>>)
    requires Continues(config, steps, rest)
    ensures Follows(config, steps, rest)
  {
    if rest != [] {
      ContinuingFollows(config, steps, rest[..|rest| - 1]);
    }
  }

  /** A stopped watcher with no read ahead stays so, whatever happens. */
  lemma QuietStep<C>(s: State<C>, step: Step<C>)
    requires s.file != [] && Enabled(s, step) && s.stopped && !ReadAhead(s)
    ensures !step.Read? && !ReadAhead(Next(s, step)) && Next(s, step).stopped
  {
    assert step.Read? ==> WillRead(s.tasks[step.task]);
    if Internal(step) {
      ReadAheadKept(s, step);
      assert Take(s, step).stopped;
    } else {
      assert Next(s, step).tasks == s.tasks && Next(s, step).callbacks == s.callbacks;
    }
  }

  lemma SplitLast<C>(steps: seq<Step<C>>, rest: seq<Step<C>>)
    requires rest != []
    ensures steps + rest == steps + rest[..|rest| - 1] + [rest[|rest| - 1]]
  {
  }

  lemma ReplayRestMore<C>(config: C, steps: seq<Step<C>>, rest: seq<Step<C>>)
    requires rest != []
    ensures Replay(config, steps + rest) == Next(Replay(config, steps + rest[..|rest| - 1]), rest[|rest| - 1])
  {
    SplitLast(steps, rest);
    ReplayOneMore(config, steps + rest[..|rest| - 1], rest[|rest| - 1]);
  }

  /** A stopped watcher with no read ahead never reads. */
  lemma {:induction false} NothingIsRead<C>(config: C, steps: seq<Step<C>>, rest: seq<Step<C>>)
    requires Follows(config, steps, rest)
    requires Replay(config, steps).stopped && !ReadAhead(Replay(config, steps))
    ensures Replay(config, steps + rest).stopped && !ReadAhead(Replay(config, steps + rest)) && !HasRead(rest)
  {
    if rest == [] {
      assert steps + [] == steps;
    } else {
      var k := |rest| - 1;
      NothingIsRead(config, steps, rest[..k]);
      QuietStep(Replay(config, steps + rest[..k]), rest[k]);
      ReplayRestMore(config, steps, rest);
    }
  }

  lemma {:induction false} ContinuesFrom<C>(config: C, steps: seq<Step<C>>, step: Step<C>, rest: seq<Step<C>>)
    requires Internal(step) && Enabled(Replay(config, steps), step) && Continues(config, steps + [step], rest)
    ensures Continues(config, steps, [step] + rest)
  {
    if rest == [] {
      assert ([step] + rest)[..0] == [] && steps + [] == steps;
    } else {
      var k := |rest| - 1;
      ContinuesFrom(config, steps, step, rest[..k]);
      assert ([step] + rest)[..k + 1] == [step] + rest[..k];
      assert steps + ([step] + rest[..k]) == steps + [step] + rest[..k];
    }
  }

  lemma {:induction false} HasReadFrom<C>(step: Step<C>, rest: seq<Step<C>>)
    requires step.Read? || HasRead(rest)
    ensures HasRead([step] + rest)
  {
    if rest == [] {
      assert [step] + rest == [step];
    } else {
      assert ([step] + rest)[..|rest|] == [step] + rest[..|rest| - 1];
      if step.Read? || HasRead(rest[..|rest| - 1]) {
        HasReadFrom(step, rest[..|rest| - 1]);
      }
    }
  }

  /** With a read ahead, some continuation reads. */
  lemma {:induction false} SomethingIsRead<C>(config: C, steps: seq<Step<C>>) returns (rest: seq<Step<C>>)
    requires ReadAhead(Replay(config, steps))
    ensures Continues(config, steps, rest) && HasRead(rest)
    decreases Work(Replay(config, steps))
  {
    var s := Replay(config, steps);
    RunsKeepInvariant(config, steps);
    var step := NeverStuck(s);
    rest := [];
    if !step.Read? {
      ReplayOneMore(config, steps, step);
      InternalStepsEnd(s, step);
      ReadAheadKept(s, step);
      rest := SomethingIsRead(config, steps + [step]);
    }
    ContinuesFrom(config, steps, step, rest);
    HasReadFrom(step, rest);
    rest := [step] + rest;
  }

  /** Whatever follows, the watcher never reads the file again. */
  ghost predicate Silent<C(!new)>(config: C, steps: seq<Step<C>>) {
    forall rest: seq<Step<C>> :: Follows(config, steps, rest) ==> !HasRead(rest)
  }

  lemma SilentIff<C(!new)>(config: C, steps: seq<Step<C>>)
    requires Replay(config, steps).stopped
    ensures Silent(config, steps) <==> !ReadAhead(Replay(config, steps))
  {
    if ReadAhead(Replay(config, steps)) {
      var rest := SomethingIsRead(config, steps);
      ContinuingFollows(config, steps, rest);
    } else {
      forall rest: seq<Step<C>> | Follows(config, steps, rest)
        ensures !HasRead(rest)
      {
        NothingIsRead(config, steps, rest);
      }
    }
  }

  /** No reload task has its read before it. */
  predicate NoneWillRead<C>(tasks: seq<Pc<C>>) {
    forall i :: 0 <= i < |tasks| ==> !WillRead(tasks[i])
  }

  /** Stopping leaves callbacks and reload tasks as they are. */
  lemma StopLeavesTheRest<C>(s: State<C>)
    requires s.file != []
    ensures Next(s, Stop).tasks == s.tasks && Next(s, Stop).callbacks == s.callbacks && Next(s, Stop).stopped
  {
  }

  lemma ReadAheadIff<C>(s: State<C>)
    ensures ReadAhead(s) <==> !(s.callbacks == 0 && s.armed == {} && NoneWillRead(s.tasks))
  {
  }

  lemma ReadAheadAfterStop<C>(config: C, steps: seq<Step<C>>)
    ensures ReadAhead(Replay(config, steps + [Stop])) <==>
            !(&& Replay(config, steps).callbacks == 0
              && Forgotten(config, steps) == {}
              && NoneWillRead(Replay(config, steps).tasks))
    ensures Replay(config, steps + [Stop]).stopped
  {
    StopLeavesForgotten(config, steps);
    ReplayOneMore(config, steps, Stop);
    StopLeavesTheRest(Replay(config, steps));
    ReadAheadIff(Replay(config, steps + [Stop]));
  }

  /**
   Stopping is documented to cancel any pending reload. It cancels the timer behind the handle only: no
   reload reads the file after a stop, whatever else happens then, if and only if, when it comes, no callback
   is waiting to run, no timer was forgotten, and no reload task is on its way to its read.
   */
  lemma StopSilencesIff<C(!new)>(config: C, steps: seq<Step<C>>)
    ensures Silent(config, steps + [Stop]) <==>
            && Replay(config, steps).callbacks == 0
            && Forgotten(config, steps) == {}
            && NoneWillRead(Replay(config, steps).tasks)
  {
    ReadAheadAfterStop(config, steps);
    SilentIff(config, steps + [Stop]);
  }

  /** The state after the first three steps below: the first timer has started a task. */
  function Fired<C>(config: C, a: Content<C>): (s: State<C>)
    ensures s.file != []
  {
    Next(Next(Next(Initial(config), Write(a, 1)), RunCallback), Fire(0))
  }

  lemma FiredState<C>(config: C, a: Content<C>)
    ensures var s := Fired(config, a);
            && !s.stopped && s.callbacks == 0 && s.armed == {} && s.pending == Some(0) && s.nextTimer == 1
            && s.tasks == [Created]
  {
    var s2 := Next(Next(Initial(config), Write(a, 1)), RunCallback);
    assert s2.armed == {0} && s2.tasks == [];
  }

  lemma ArmedAgain<C>(s: State<C>, b: Content<C>)
    requires s.file != [] && !s.stopped && s.callbacks == 0 && s.armed == {} && s.pending == Some(0)
    requires s.nextTimer == 1 && s.tasks == [Created]
    ensures var t := Next(Next(Next(Next(s, Write(b, 1)), RunCallback), Begin(0)), Stop);
            t.stopped && t.pending == None && t.armed == {1}
  {
    var s5 := Next(Next(s, Write(b, 1)), RunCallback);
    assert s5.armed == {1} && s5.pending == Some(1) && s5.tasks == [Created];
  }

  /**
   Another one can be armed: a change that arrives between the firing of the first timer and the start
   of its task arms a second timer, and the task then forgets the handle on it.
   */
  lemma TimerCanSurviveStop<C>(config: C, a: Content<C>, b: Content<C>)
    ensures var s := Replay(config, [Write(a, 1), RunCallback, Fire(0), Write(b, 1), RunCallback, Begin(0), Stop]);
            s.stopped && s.pending == None && s.armed == {1}
  {
    var r3: seq<Step<C>> := [] + [Write(a, 1)] + [RunCallback] + [Fire(0)];
    assert Replay(config, r3) == Fired(config, a) by {
      ReplayOneMore(config, [], Write(a, 1));
      ReplayOneMore(config, [] + [Write(a, 1)], RunCallback);
      ReplayOneMore(config, [] + [Write(a, 1)] + [RunCallback], Fire(0));
    }
    FiredState(config, a);
    ArmedAgain(Fired(config, a), b);
    FourMore(config, r3, Write(b, 1), RunCallback, Begin(0), Stop);
    assert r3 + [Write(b, 1)] + [RunCallback] + [Begin(0)] + [Stop]
        == [Write(a, 1), RunCallback, Fire(0), Write(b, 1), RunCallback, Begin(0), Stop];
  }

  lemma FourMore<C>(config: C, run: seq<Step<C>>, p: Step<C>, q: Step<C>, r: Step<C>, s: Step<C>)
    ensures Replay(config, run + [p] + [q] + [r] + [s]) == Next(Next(Next(Next(Replay(config, run), p), q), r), s)
  {
    ReplayOneMore(config, run, p);
    ReplayOneMore(config, run + [p], q);
    ReplayOneMore(config, run + [p] + [q], r);
    ReplayOneMore(config, run + [p] + [q] + [r], s);
  }

  // ------------------------------------------------------------------ objects

  /** The watcher with its event loop and its holder. Each method is one step of the run. */
  class ConfigFileWatcher<C> {
    ghost const initial: C
    var file: seq<Content<C>>
    var callbacks: nat
    var armed: set<nat>
    var pending: Option<nat>
    var nextTimer: nat
    var tasks: seq<Pc<C>>
    var current: C
    var stopped: bool
    ghost var steps: seq<Step<C>>

    constructor (config: C)
      ensures Valid() && initial == config && steps == []
    {
      initial := config;
      file := [Loadable(config)];
      callbacks, armed, pending, nextTimer := 0, {}, None, 0;
      tasks, current, stopped, steps := [], config, false, [];
    }

    ghost predicate Valid()
      reads this
    {
      var s := Replay(initial, steps);
      && file == s.file && callbacks == s.callbacks && armed == s.armed && pending == s.pending
      && nextTimer == s.nextTimer && tasks == s.tasks && current == s.current && stopped == s.stopped
    }

    ghost predicate Ready(step: Step<C>)
      requires Valid()
      reads this
    {
      Enabled(Replay(initial, steps), step)
    }

    /** The file changes on disk; the observer thread posts one callback or more. */
    method FileChanged(content: Content<C>, notices: nat)
      requires Valid() && notices >= 1
      modifies this
      ensures Valid() && steps == old(steps) + [Write(content, notices)]
    {
      ReplayOneMore(initial, steps, Write(content, notices));
      steps := steps + [Write(content, notices)];
      file := file + [content];
      if !stopped {
        callbacks := callbacks + notices;
      }
    }

    method ScheduleReload()
      requires Valid() && callbacks > 0
      modifies this
      ensures Valid() && steps == old(steps) + [RunCallback]
    {
      ReplayOneMore(initial, steps, RunCallback);
      steps := steps + [RunCallback];
      callbacks := callbacks - 1;
      if pending.Some? {
        armed := armed - {pending.value};
      }
      armed := armed + {nextTimer};
      pending := Some(nextTimer);
      nextTimer := nextTimer + 1;
    }

    method TimerFires(timer: nat)
      requires Valid() && timer in armed
      modifies this
      ensures Valid() && steps == old(steps) + [Fire(timer)]
    {
      ReplayOneMore(initial, steps, Fire(timer));
      steps := steps + [Fire(timer)];
      armed := armed - {timer};
      tasks := tasks + [Created];
    }

    method BeginReload(i: nat)
      requires Valid() && i < |tasks| && tasks[i].Created?
      modifies this
      ensures Valid() && steps == old(steps) + [Begin(i)]
    {
      ReplayOneMore(initial, steps, Begin(i));
      steps := steps + [Begin(i)];
      pending := None;
      tasks := tasks[i := Waiting];
    }

    method EnterLock(i: nat)
      requires Valid() && Ready(Acquire(i))
      modifies this
      ensures Valid() && steps == old(steps) + [Acquire(i)]
    {
      ReplayOneMore(initial, steps, Acquire(i));
      steps := steps + [Acquire(i)];
      tasks := tasks[i := Reading];
    }

    /** The loader reads the file; a load that fails keeps the previous configuration. */
    method LoadFile(i: nat)
      requires Valid() && i < |tasks| && tasks[i].Reading?
      modifies this
      ensures Valid() && steps == old(steps) + [Read(i)]
      ensures current == old(current)
    {
      ReplayOneMore(initial, steps, Read(i));
      steps := steps + [Read(i)];
      match file[|file| - 1] {
        case Broken => tasks := tasks[i := Done];
        case Loadable(c) => tasks := tasks[i := Loaded(c)];
      }
    }

    method InstallConfig(i: nat)
      requires Valid() && i < |tasks| && tasks[i].Loaded?
      modifies this
      ensures Valid() && steps == old(steps) + [Install(i)]
      ensures current == old(tasks)[i].config
    {
      ReplayOneMore(initial, steps, Install(i));
      steps := steps + [Install(i)];
      current := tasks[i].config;
      tasks := tasks[i := Notifying];
    }

    method LeaveLock(i: nat)
      requires Valid() && i < |tasks| && tasks[i].Notifying?
      modifies this
      ensures Valid() && steps == old(steps) + [Release(i)]
    {
      ReplayOneMore(initial, steps, Release(i));
      steps := steps + [Release(i)];
      tasks := tasks[i := Done];
    }

    method StopWatching()
      requires Valid()
      modifies this
      ensures Valid() && steps == old(steps) + [Stop]
    {
      ReplayOneMore(initial, steps, Stop);
      steps := steps + [Stop];
      if pending.Some? {
        armed := armed - {pending.value};
      }
      pending := None;
      stopped := true;
    }
  }
}
