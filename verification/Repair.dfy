/**
 After an interruption that was not clean: what a run goes on with, and which cycle puts it right.
 */
module Repair {
  import opened Wrappers
  import opened Envelope
  import opened Chunking
  import opened StateFilter
  import opened Receiver
  import opened Replication
  import opened Recovery
  import opened Delivery
  import opened Cycle
  import opened Protocol

  // ---------------------------------------------------------------- a marred run

  /** The receiver ends with what some receiver of the cache has after one of the leaks. */
  ghost predicate IsMarred(codec: Codec, cache: Cache, leaks: set<seq<Item>>, view: View) {
    exists clean, leak :: leak in leaks && Represents(codec, clean, cache) && view == ApplyAll(clean, leak)
  }

  ghost function Marred(codec: Codec, cache: Cache, leaks: set<seq<Item>>): View -> bool {
    (view: View) => IsMarred(codec, cache, leaks, view)
  }

  ghost predicate MarredInv(site: Site, w: World, leaks: set<seq<Item>>) {
    WfCache(w.memory.stateCache) && Agreement(Marred(site.codec, w.memory.stateCache, leaks), w) &&
    (w.phase.Pushing? ==> IsAttempt(site, w.memory, w.phase.attempt))
  }

  /** Without a leak, marred means in agreement. */
  lemma NothingLeakedYet(site: Site, w: World)
    requires Inv(site, w)
    ensures MarredInv(site, w, {[]})
  {
    var codec, cache := site.codec, w.memory.stateCache;
    forall k: nat | k <= |w.stale| ensures Marred(codec, cache, {[]})(w.Base(k)) {
      assert Showing(codec, cache)(w.Base(k)) && ApplyAll(w.Base(k), []) == w.Base(k);
    }
  }

  /** Everything that may escape of an interrupted cycle. */
  ghost function Leaks(w: World, step: Step): set<seq<Item>>
    requires w.phase.Pushing?
  {
    set k | 0 <= k <= Reach(w, step) :: Flatten(Escaped(w, step, k))
  }

  /** One leak after another. */
  ghost function Further(leaks: set<seq<Item>>, more: set<seq<Item>>): set<seq<Item>> {
    set leak, next | leak in leaks && next in more :: leak + next
  }

  lemma Mars(codec: Codec, view: View, cache: Cache, leaks: set<seq<Item>>, w: World, step: Step, k: nat)
    requires w.phase.Pushing? && k <= Reach(w, step) && Marred(codec, cache, leaks)(view)
    ensures Marred(codec, cache, Further(leaks, Leaks(w, step)))(Drained(view, Escaped(w, step, k)))
  {
    var next := Flatten(Escaped(w, step, k));
    var clean, leak :| leak in leaks && Represents(codec, clean, cache) && view == ApplyAll(clean, leak);
    ApplyAllConcat(clean, leak, next);
    assert next in Leaks(w, step);
    assert leak + next in Further(leaks, Leaks(w, step));
  }

  /** An interruption, clean or not, adds at worst what escapes to what had leaked before. */
  lemma InterruptionMars(site: Site, w: World, leaks: set<seq<Item>>, step: Step)
    requires MarredInv(site, w, leaks) && Enabled(site, w, step) && Interrupts(w, step)
    ensures MarredInv(site, Next(site, w, step), Further(leaks, Leaks(w, step)))
  {
    if step.Crash? {
      CrashMars(site.codec, w, leaks, step.restored);
    } else {
      RollbackMars(site.codec, w, leaks);
    }
  }

  lemma CrashMars(codec: Codec, w: World, leaks: set<seq<Item>>, restored: Memory)
    requires Agreement(Marred(codec, w.memory.stateCache, leaks), w) && w.phase.Pushing?
    ensures Agreement(Marred(codec, w.memory.stateCache, Further(leaks, Leaks(w, Crash(restored)))),
                      EndFlush(w.(memory := restored, phase := Idle)))
  {
    var cache, step := w.memory.stateCache, Crash(restored);
    RestedAgreement(Marred(codec, cache, Further(leaks, Leaks(w, step))),
                    EndFlush(w.(memory := restored, phase := Idle)));
    BaseAfterCrash(w, restored);
    Mars(codec, w.Base(0), cache, leaks, w, step, 0);
  }

  lemma RollbackMars(codec: Codec, w: World, leaks: set<seq<Item>>)
    requires Agreement(Marred(codec, w.memory.stateCache, leaks), w) && w.phase.Pushing?
    ensures Agreement(Marred(codec, w.memory.stateCache, Further(leaks, Leaks(w, RollBack))), RolledBack(w))
  {
    var cache, w' := w.memory.stateCache, RolledBack(w);
    var before, after := Marred(codec, cache, leaks), Marred(codec, cache, Further(leaks, Leaks(w, RollBack)));
    RollbackShape(w);
    if w.stale == [] {
      assert before(w.Base(0)) && |w'.stale| == Reach(w, RollBack);
      forall k: nat | k <= |w'.stale| ensures after(w'.Base(k)) {
        BaseAfterRollback(w, k);
        Mars(codec, w.Base(0), cache, leaks, w, RollBack, k);
      }
    } else {
      NothingReadAgain(before, w);
      forall k: nat | k <= |w'.stale| ensures after(w'.Base(k)) {
        assert before(w'.Base(k));
        DrainedNone(w'.Base(k));
        Mars(codec, w'.Base(k), cache, leaks, w, RollBack, 0);
      }
    }
  }

  /** Sending, failing, restarting between cycles and beginning new ones make it no worse. */
  lemma MarredStep(site: Site, w: World, leaks: set<seq<Item>>, step: Step)
    requires MarredInv(site, w, leaks) && Enabled(site, w, step) && IsPlain(w, step)
    ensures MarredInv(site, Next(site, w, step), leaks)
  {
    OtherStepKeeps(Marred(site.codec, w.memory.stateCache, leaks), site, w, step);
  }

  /** The cycle under way puts every leak right. */
  ghost predicate PutsRight(codec: Codec, leaks: set<seq<Item>>, a: Attempt)
    requires a.memories != []
  {
    forall leak | leak in leaks :: Repairs(codec, leak, Flatten(a.chunks), a.Final().stateCache)
  }

  /** The commit of such a cycle restores agreement. */
  lemma RepairingCommit(site: Site, w: World, leaks: set<seq<Item>>)
    requires MarredInv(site, w, leaks) && Enabled(site, w, Commit) && PutsRight(site.codec, leaks, w.phase.attempt)
    ensures Inv(site, Next(site, w, Commit))
  {
    var codec, a, cache := site.codec, w.phase.attempt, w.memory.stateCache;
    AttemptCarries(site, w.memory, a);
    var marred, good := Marred(codec, cache, leaks), Showing(codec, a.Final().stateCache);
    forall view | marred(view) ensures good(Drained(view, a.chunks)) {
      var clean, leak :| leak in leaks && Represents(codec, clean, cache) && view == ApplyAll(clean, leak);
      RetryRestoresIff(codec, clean, cache, leak, Flatten(a.chunks), a.Final().stateCache);
    }
    CommitAgrees(marred, w, Committed(site, a), good);
  }

  // ---------------------------------------------------------------- whole runs

  /** A possible run in which no cycle commits, no record is revived and none is lost. */
  ghost predicate Uncommitted(site: Site, w: World, steps: seq<Step>) {
    Run(site, w, steps).Some? &&
    forall i | 0 <= i < |steps| ::
      var before := Run(site, w, steps[..i]);
      before.Some? && (IsPlain(before.value, steps[i]) || Interrupts(before.value, steps[i]))
  }

  lemma UncommittedPrefix(site: Site, w: World, steps: seq<Step>)
    requires steps != [] && Uncommitted(site, w, steps)
    ensures var init, last := steps[..|steps| - 1], steps[|steps| - 1];
            Uncommitted(site, w, init) &&
            (IsPlain(Run(site, w, init).value, last) || Interrupts(Run(site, w, init).value, last))
  {
    var init := steps[..|steps| - 1];
    forall i | 0 <= i < |init| ensures init[..i] == steps[..i] && init[i] == steps[i] {
    }
  }

  /** What may have escaped of all the cycles that were interrupted on the way. */
  ghost function Leaked(site: Site, w: World, steps: seq<Step>): set<seq<Item>> {
    if steps == [] then {[]}
    else
      var init, last := steps[..|steps| - 1], steps[|steps| - 1];
      var before := Run(site, w, init);
      if before.Some? && Interrupts(before.value, last) then Further(Leaked(site, w, init), Leaks(before.value, last))
      else Leaked(site, w, init)
  }

  lemma {:induction false} MarredRun(site: Site, w: World, steps: seq<Step>)
    requires Inv(site, w) && Uncommitted(site, w, steps)
    ensures MarredInv(site, Run(site, w, steps).value, Leaked(site, w, steps))
  {
    if steps == [] {
      NothingLeakedYet(site, w);
    } else {
      var init, last := steps[..|steps| - 1], steps[|steps| - 1];
      UncommittedPrefix(site, w, steps);
      MarredRun(site, w, init);
      if Interrupts(Run(site, w, init).value, last) {
        InterruptionMars(site, Run(site, w, init).value, Leaked(site, w, init), last);
      } else {
        MarredStep(site, Run(site, w, init).value, Leaked(site, w, init), last);
      }
    }
  }

  /**
   Recovery: from a world in agreement, cycles are interrupted any number of times and however badly, with any sending,
   failing and restarting in between. The next cycle that commits brings the agreement back if it puts right what has
   escaped of them.
   */
  lemma LeaksAreRepaired(site: Site, w: World, steps: seq<Step>)
    requires Inv(site, w) && Uncommitted(site, w, steps)
    requires var late := Run(site, w, steps).value;
             Enabled(site, late, Commit) && PutsRight(site.codec, Leaked(site, w, steps), late.phase.attempt)
    ensures Inv(site, Next(site, Run(site, w, steps).value, Commit))
  {
    MarredRun(site, w, steps);
    RepairingCommit(site, Run(site, w, steps).value, Leaked(site, w, steps));
  }
}
