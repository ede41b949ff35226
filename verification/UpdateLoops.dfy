/**
 The collection loop and the updater loop of one process, step by step. They share a one-slot
 success channel and a one-slot restart channel; the updater's operations take time.
 */
module UpdateLoops {
  import Agent

  /** The collection loop: between steps it collects, rolls back, signals, or waits for the timer. */
  datatype CollectorPc = Collecting | RollingBack | Signalling | Waiting | Stopped

  /** The updater loop: it selects, or runs MarkApplied or CheckAndApply. */
  datatype UpdaterPc = Selecting | Marking | Checking | RestartAsked | Ended

  datatype World = World(
    collector: CollectorPc,
    pendingApply: bool,     // pendingApplyAtStartup, as the collection loop sees it
    probation: bool,
    updater: UpdaterPc,
    timerArmed: bool,
    token: bool,            // collectionSucceeded holds a token
    restart: bool,          // restartRequired holds a reason
    checks: nat, marks: nat, rollbacks: nat, successes: nat)  // calls started so far

  datatype Step =
    | CollectionFails(localPersistence: bool)
    | RollbackReturns(restart: bool)
    | CollectionSucceeds
    | ProbationFails
    | Signal
    | TimerTicks
    | LoopStops            // context done, a restart reason, or an identity restart
    | TakeToken
    | MarkAppliedReturns(restart: bool, stillPending: bool)
    | CheckTimerFires
    | CheckAndApplyReturns(restart: bool)
    | UpdaterStops         // context done

  function Start(pendingAtStartup: bool, probation: bool): World {
    World(Collecting, pendingAtStartup, probation, Selecting, !pendingAtStartup, false, false, 0, 0, 0, 0)
  }

  predicate Enabled(w: World, s: Step) {
    match s
    case CollectionFails(_) => w.collector.Collecting?
    case RollbackReturns(_) => w.collector.RollingBack?
    case CollectionSucceeds => w.collector.Collecting?
    case ProbationFails => w.collector.Collecting? && w.probation
    case Signal => w.collector.Signalling?
    case TimerTicks => w.collector.Waiting?
    case LoopStops => w.collector.Waiting?
    case TakeToken => w.updater.Selecting? && w.token
    case MarkAppliedReturns(_, _) => w.updater.Marking?
    case CheckTimerFires => w.updater.Selecting? && w.timerArmed
    case CheckAndApplyReturns(_) => w.updater.Checking?
    case UpdaterStops => w.updater.Selecting?
  }

  /** shouldRollbackPostUpdateCollection, under the guard that the loop adds. */
  predicate StartsRollback(w: World, s: Step) {
    s.CollectionFails? && w.pendingApply && !s.localPersistence
  }

  /** The step that the verdict of a collection cycle makes the collection loop take. */
  function StepOf(verdict: Agent.Verdict): Step {
    if verdict.Done? then CollectionSucceeds else CollectionFails(verdict.LocalPersistence())
  }

  /** A rollback is never started over the local storage: only when a cycle could not be filtered or chunked. */
  lemma RollbackBlamesTheCollection(w: World, verdict: Agent.Verdict)
    requires w.collector.Collecting?
    ensures Enabled(w, StepOf(verdict))
    ensures StartsRollback(w, StepOf(verdict)) <==>
            w.pendingApply && (verdict.FilterFailed? || verdict.ChunkingFailed?)
  {
  }

  function AskRestart(w: World): World {
    // a full channel drops the reason
    w.(restart := true, updater := if w.restart then Ended else RestartAsked)
  }

  function Next(w: World, s: Step): World {
    match s
    case CollectionFails(_) =>
      if StartsRollback(w, s) then w.(collector := RollingBack, rollbacks := w.rollbacks + 1)
      else w.(collector := Waiting)
    case RollbackReturns(restart) => w.(collector := if restart then Stopped else Waiting)
    case CollectionSucceeds =>
      w.(collector := Signalling, probation := false, pendingApply := false, successes := w.successes + 1)
    case ProbationFails => w.(collector := Stopped)
    case Signal => w.(collector := Waiting, token := true)
    case TimerTicks => w.(collector := Collecting)
    case LoopStops => w.(collector := Stopped)
    case TakeToken => w.(token := false, updater := Marking, marks := w.marks + 1)
    case MarkAppliedReturns(restart, stillPending) =>
      if restart then AskRestart(w)
      else w.(updater := Selecting, timerArmed := w.timerArmed || !stillPending)
    case CheckTimerFires => w.(timerArmed := false, updater := Checking, checks := w.checks + 1)
    case CheckAndApplyReturns(restart) =>
      if restart then AskRestart(w) else w.(updater := Selecting, timerArmed := true)
    case UpdaterStops => w.(updater := Ended)
  }

  ghost predicate Inv(pendingAtStartup: bool, w: World) {
    // nothing of the updater has moved while the startup state is still to be judged
    && (w.pendingApply ==> pendingAtStartup && w.successes == 0 && w.checks == 0 && !w.timerArmed)
    && (w.successes == 0 ==> !w.token && w.marks == 0 && !w.collector.Signalling? && !w.updater.Marking?)
    && (w.successes == 0 && pendingAtStartup ==> w.checks == 0 && !w.timerArmed && !w.updater.Checking?)
    && (pendingAtStartup && (w.timerArmed || w.checks > 0 || w.updater.Checking?) ==> w.marks > 0)
    && (w.updater.Marking? ==> w.marks > 0)
    && (w.collector.RollingBack? ==> w.pendingApply)
    // the only writer of the restart channel writes once, so it never finds the channel full
    && (w.restart <==> w.updater.RestartAsked?)
  }

  lemma StepKeepsInv(pendingAtStartup: bool, w: World, s: Step)
    requires Inv(pendingAtStartup, w) && Enabled(w, s)
    ensures Inv(pendingAtStartup, Next(w, s))
  {
  }

  function Run(w: World, steps: seq<Step>): World {
    if steps == [] then w else Next(Run(w, steps[..|steps| - 1]), steps[|steps| - 1])
  }

  predicate Legal(w: World, steps: seq<Step>) {
    forall i | 0 <= i < |steps| :: Enabled(Run(w, steps[..i]), steps[i])
  }

  lemma LegalPrefix(w: World, steps: seq<Step>, n: nat)
    requires Legal(w, steps) && n <= |steps|
    ensures Legal(w, steps[..n])
    ensures forall i | 0 <= i <= n :: steps[..n][..i] == steps[..i]
  {
    assert forall i | 0 <= i <= n :: steps[..n][..i] == steps[..i];
  }

  lemma {:induction false} RunKeepsInv(pendingAtStartup: bool, probation: bool, steps: seq<Step>)
    requires Legal(Start(pendingAtStartup, probation), steps)
    ensures Inv(pendingAtStartup, Run(Start(pendingAtStartup, probation), steps))
  {
    if steps != [] {
      var n := |steps| - 1;
      LegalPrefix(Start(pendingAtStartup, probation), steps, n);
      RunKeepsInv(pendingAtStartup, probation, steps[..n]);
      StepKeepsInv(pendingAtStartup, Run(Start(pendingAtStartup, probation), steps[..n]), steps[n]);
    }
  }

  predicate NoLess(w: World, w': World) {
    w.checks <= w'.checks && w.marks <= w'.marks && w.successes <= w'.successes
  }

  /** What a step starts, the next world has counted. */
  predicate Counted(s: Step, w: World, w': World) {
    NoLess(w, w') && (s.CheckTimerFires? ==> w'.checks > w.checks) && (s.TakeToken? ==> w'.marks > w.marks) &&
    (s.CollectionSucceeds? ==> w'.successes > w.successes)
  }

  lemma StepCounts(w: World, s: Step)
    ensures Counted(s, w, Next(w, s))
  {
  }

  /** The counters count: what a step of a run has started shows in the run's counters. */
  lemma {:induction false} CountersCount(w: World, steps: seq<Step>, i: nat)
    requires i < |steps|
    ensures Counted(steps[i], w, Run(w, steps))
    decreases |steps|
  {
    var n := |steps| - 1;
    StepCounts(Run(w, steps[..n]), steps[n]);
    if n > 0 {
      CountersCount(w, steps[..n], if i < n then i else 0);
    }
  }

  lemma OnlySuccessCounts(w: World, s: Step)
    ensures Next(w, s).successes == w.successes + if s.CollectionSucceeds? then 1 else 0
  {
  }

  lemma {:induction false} SuccessCameFirst(w: World, steps: seq<Step>)
    requires w.successes == 0 && Run(w, steps).successes > 0
    ensures exists i | 0 <= i < |steps| :: steps[i].CollectionSucceeds?
  {
    var n := |steps| - 1;
    OnlySuccessCounts(Run(w, steps[..n]), steps[n]);
    if !steps[n].CollectionSucceeds? {
      SuccessCameFirst(w, steps[..n]);
      var i :| 0 <= i < n && steps[..n][i].CollectionSucceeds?;
      assert steps[i].CollectionSucceeds?;
    }
  }

  /**
   In every interleaving Rollback starts only while no CheckAndApply has ever started in this
   process, no MarkApplied has started, and the updater loop is idle: the process can only roll back
   an update that was applied before it started.
   */
  lemma SelfRollbackIsImpossible(pendingAtStartup: bool, probation: bool, steps: seq<Step>, j: nat)
    requires Legal(Start(pendingAtStartup, probation), steps) && j < |steps|
    requires StartsRollback(Run(Start(pendingAtStartup, probation), steps[..j]), steps[j])
    ensures pendingAtStartup
    ensures forall i | 0 <= i < j :: !steps[i].CheckTimerFires? && !steps[i].TakeToken? && !steps[i].CollectionSucceeds?
    ensures var updater := Run(Start(pendingAtStartup, probation), steps[..j]).updater;
            !updater.Checking? && !updater.Marking?
  {
    var start := Start(pendingAtStartup, probation);
    LegalPrefix(start, steps, j);
    RunKeepsInv(pendingAtStartup, probation, steps[..j]);
    forall i | 0 <= i < j
      ensures !steps[i].CheckTimerFires? && !steps[i].TakeToken? && !steps[i].CollectionSucceeds?
    {
      assert steps[..j][i] == steps[i];
      CountersCount(start, steps[..j], i);
    }
  }

  /** While a rollback runs, CheckAndApply and MarkApplied do not start. */
  lemma RollbackRunsAlone(pendingAtStartup: bool, probation: bool, steps: seq<Step>, s: Step)
    requires Legal(Start(pendingAtStartup, probation), steps)
    requires Run(Start(pendingAtStartup, probation), steps).collector.RollingBack?
    requires Enabled(Run(Start(pendingAtStartup, probation), steps), s)
    ensures !s.CheckTimerFires? && !s.TakeToken?
  {
    RunKeepsInv(pendingAtStartup, probation, steps);
  }

  /** MarkApplied starts only after a collection has succeeded. */
  lemma MarkAppliedFollowsSuccess(pendingAtStartup: bool, probation: bool, steps: seq<Step>, j: nat)
    requires Legal(Start(pendingAtStartup, probation), steps) && j < |steps| && steps[j].TakeToken?
    ensures exists i | 0 <= i < j :: steps[i].CollectionSucceeds?
  {
    var start := Start(pendingAtStartup, probation);
    LegalPrefix(start, steps, j);
    RunKeepsInv(pendingAtStartup, probation, steps[..j]);
    SuccessCameFirst(start, steps[..j]);
    var i :| 0 <= i < j && steps[..j][i].CollectionSucceeds?;
    assert steps[i].CollectionSucceeds?;
  }

  /** An update found at startup is confirmed before the first update check. */
  lemma CheckFollowsConfirmation(probation: bool, steps: seq<Step>, j: nat)
    requires Legal(Start(true, probation), steps) && j < |steps| && steps[j].CheckTimerFires?
    ensures Run(Start(true, probation), steps[..j]).marks > 0
  {
    LegalPrefix(Start(true, probation), steps, j);
    RunKeepsInv(true, probation, steps[..j]);
  }

  /** A signalled success stays in the channel until a later MarkApplied takes it. */
  lemma {:induction false} NoSuccessIsLost(w: World, steps: seq<Step>, i: nat)
    requires i < |steps| && steps[i].Signal?
    requires forall j | i < j < |steps| :: !steps[j].TakeToken?
    ensures Run(w, steps).token
    decreases |steps|
  {
    var n := |steps| - 1;
    if i < n {
      NoSuccessIsLost(w, steps[..n], i);
    }
  }

  /** A restart request is never dropped: the channel is empty when the updater asks. */
  lemma RestartIsNeverDropped(pendingAtStartup: bool, probation: bool, steps: seq<Step>, s: Step)
    requires Legal(Start(pendingAtStartup, probation), steps)
    requires Enabled(Run(Start(pendingAtStartup, probation), steps), s)
    requires (s.MarkAppliedReturns? || s.CheckAndApplyReturns?) && s.restart
    ensures !Run(Start(pendingAtStartup, probation), steps).restart
    ensures Next(Run(Start(pendingAtStartup, probation), steps), s).updater.RestartAsked?
  {
    RunKeepsInv(pendingAtStartup, probation, steps);
  }
}
