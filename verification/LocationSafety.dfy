/** Which interleavings of stock writes and location switches keep stock out of inactive locations. */
module LocationSafety {
  import opened Common
  import opened LocationLocks
  import opened LocationScripts

  /** A deactivation commits only with its target locked; any other step is free. */
  predicate Guarded(s: State, step: Step) {
    step.CommitSwitch? && Enabled(s, step) && !s.processes[step.process].activate ==>
    LockedItsTarget(s.processes[step.process])
  }

  predicate GuardedRun(s: State, steps: seq<Step>)
    decreases |steps|
  {
    steps == [] || (Guarded(s, steps[0]) && GuardedRun(Execute(s, steps[0]), steps[1..]))
  }

  lemma GuardedStepSafe(s: State, step: Step)
    requires Sound(s) && Safe(s) && Guarded(s, step)
    ensures Safe(Execute(s, step))
  {
    if step.CommitWriter? && Enabled(s, step) {
      CommitWriterSound(s, step.process, step.values);
    } else if step.CommitSwitch? && Enabled(s, step) {
      assert ProcessSound(s, s.processes[step.process]);
    }
  }

  /**
   * If every deactivation commits with its target among the rows it locked, no
   * interleaving ever leaves stock at an inactive location.
   */
  lemma {:induction false} GuardedRunsAreSafe(s: State, steps: seq<Step>)
    requires Sound(s) && Safe(s) && GuardedRun(s, steps)
    ensures Safe(Run(s, steps))
    decreases |steps|
  {
    if steps != [] {
      StepSound(s, steps[0]);
      GuardedStepSafe(s, steps[0]);
      GuardedRunsAreSafe(Execute(s, steps[0]), steps[1..]);
    }
  }

  // --- who meets the guard --------------------------------------------------------------

  /**
   * A deactivation that starts while its target is active, so that its locking
   * statement finds it, or while too few locations are active to go ahead.
   */
  predicate AimsWell(step: Step) {
    step.StartSwitch? && !step.activate ==> step.target in step.snapshot || |step.snapshot| < 2
  }

  /** Neither creations nor activations: no location comes into use. */
  predicate KeepsStill(step: Step) {
    !step.CreateLocation? && !(step.StartSwitch? && step.activate)
  }

  predicate Admissible(step: Step, still: bool) {
    if still then KeepsStill(step) else AimsWell(step)
  }

  /** Deactivations either have their target in their snapshot or will not get to update it. */
  predicate Aimed(s: State, w: Process, still: bool) {
    w.Switch? ==>
      && (forall l | l in w.snapshot :: l in s.locations)
      && (if w.activate then !still
          else
            && (w.target in w.snapshot || |w.snapshot| < 2 || (still && !IsActive(s, w.target)))
            && (LockedRow(w, w.target) ==> w.target in w.actives || !IsActive(s, w.target))
            && (w.phase != Locking ==> w.target in w.actives))
  }

  predicate LockedRow(w: Process, location: nat)
    requires w.Switch?
  {
    exists i | 0 <= i < w.locked && i < |w.snapshot| :: w.snapshot[i] == location
  }

  ghost predicate AllAimed(s: State, still: bool) {
    forall p | p in s.processes :: Aimed(s, s.processes[p], still)
  }

  lemma {:induction false} ElementsFew(ls: seq<nat>)
    ensures |Elements(ls)| <= |ls|
  {
    if ls != [] {
      var n := |ls| - 1;
      ElementsFew(ls[..n]);
      assert ls == ls[..n] + [ls[n]];
      assert Elements(ls) == Elements(ls[..n]) + {ls[n]};
    }
  }

  lemma SubsetSmaller(a: set<nat>, b: set<nat>)
    requires a <= b
    ensures |a| <= |b|
  {
    assert b == a + (b - a);
  }

  lemma ActivesFew(s: State, w: Process)
    requires w.Switch? && SwitchSound(s, w)
    ensures |w.actives| <= |w.snapshot|
  {
    forall l | l in w.actives
      ensures l in Elements(w.snapshot)
    {
      assert HoldsExclusive(w, LocationRow(l));
    }
    SubsetSmaller(w.actives, Elements(w.snapshot));
    ElementsFew(w.snapshot);
  }

  lemma AcquireKeepsAim(s: State, p: nat, still: bool)
    requires Sound(s) && AllAimed(s, still) && Enabled(s, Acquire(p))
    ensures AllAimed(Execute(s, Acquire(p)), still)
  {
    var after := Execute(s, Acquire(p));
    var w, next := s.processes[p], after.processes[p];
    assert Aimed(s, w, still) && ProcessSound(s, w);
    GrantKeepsAim(s, w, still);
    hide LockedRow, Granted, Wants, Free;
    forall q | q in after.processes
      ensures Aimed(after, after.processes[q], still)
    {
      assert Aimed(s, s.processes[q], still);
    }
  }

  lemma GrantKeepsAim(s: State, w: Process, still: bool)
    requires Wants(w).Some? && ProcessSound(s, w) && Aimed(s, w, still)
    requires !(w.Switch? && w.phase == Updating)
    ensures Aimed(s, Granted(s, w), still)
  {
    var next := Granted(s, w);
    if w.Switch? && !w.activate && LockedRow(next, w.target) && !LockedRow(w, w.target) {
      assert w.snapshot[w.locked] == w.target;
    }
  }

  lemma ReadTargetKeepsAim(s: State, p: nat, still: bool)
    requires Sound(s) && AllAimed(s, still) && Enabled(s, ReadTarget(p))
    ensures AllAimed(Execute(s, ReadTarget(p)), still)
  {
    var after := Execute(s, ReadTarget(p));
    var w := s.processes[p];
    assert Aimed(s, w, still) && ProcessSound(s, w);
    if p in after.processes && !w.activate {
      ActivesFew(s, w);
      assert w.target in w.snapshot;
      var i :| 0 <= i < |w.snapshot| && w.snapshot[i] == w.target;
      assert LockedRow(w, w.target);
    }
    forall q | q in after.processes
      ensures Aimed(after, after.processes[q], still)
    {
      assert Aimed(s, s.processes[q], still);
    }
  }

  lemma CommitSwitchKeepsAim(s: State, p: nat, still: bool)
    requires Sound(s) && AllAimed(s, still) && Enabled(s, CommitSwitch(p))
    ensures AllAimed(Execute(s, CommitSwitch(p)), still)
  {
    var after := Execute(s, CommitSwitch(p));
    assert Aimed(s, s.processes[p], still);
    forall q | q in after.processes
      ensures Aimed(after, after.processes[q], still)
    {
      var other := s.processes[q];
      assert Aimed(s, other, still);
      if other.Switch? && LockedRow(other, other.target) {
        assert Holds(other, LocationRow(other.target));
        SwitchLeavesLocked(s, p, q, other.target);
      }
    }
  }

  lemma CreateLocationKeepsAim(s: State, l: nat)
    requires AllAimed(s, false) && Enabled(s, CreateLocation(l))
    ensures AllAimed(Execute(s, CreateLocation(l)), false)
  {
    var after := Execute(s, CreateLocation(l));
    forall q | q in after.processes
      ensures Aimed(after, after.processes[q], false)
    {
      var w := s.processes[q];
      assert Aimed(s, w, false);
      assert w.Switch? && LockedRow(w, w.target) ==> w.target in w.snapshot;
    }
  }

  lemma StartSwitchKeepsAim(s: State, step: Step, still: bool)
    requires AllAimed(s, still) && step.StartSwitch? && Admissible(step, still) && Enabled(s, step)
    ensures AllAimed(Execute(s, step), still)
  {
    var after := Execute(s, step);
    var w := after.processes[step.process];
    assert !LockedRow(w, w.target);
    assert Aimed(after, w, still);
    forall q | q in after.processes && q != step.process
      ensures Aimed(after, after.processes[q], still)
    {
      assert Aimed(s, s.processes[q], still);
    }
  }

  /** Steps that change neither a location nor a lock of a switch. */
  lemma OtherStepKeepsAim(s: State, step: Step, still: bool)
    requires AllAimed(s, still) && Enabled(s, step)
    requires step.StartWriter? || step.CheckLocations? || step.CommitWriter? || step.CheckStock? || step.Abort?
    ensures AllAimed(Execute(s, step), still)
  {
    hide LockedRow, WriteLevels, NoStock;
    var after := Execute(s, step);
    assert after.locations == s.locations;
    forall q | q in after.processes
      ensures Aimed(after, after.processes[q], still)
    {
      if q in s.processes {
        assert Aimed(s, s.processes[q], still);
      }
      if step.CheckStock? && q == step.process {
        SameLocks(s, after, s.processes[q], still);
      }
    }
  }

  lemma SameLocks(s: State, after: State, w: Process, still: bool)
    requires w.Switch? && w.phase != Locking && Aimed(s, w, still) && after.locations == s.locations
    ensures Aimed(after, w.(phase := Updating), still)
  {
    assert LockedRow(w.(phase := Updating), w.target) <==> LockedRow(w, w.target);
  }

  lemma StepKeepsAim(s: State, step: Step, still: bool)
    requires Sound(s) && AllAimed(s, still) && Admissible(step, still)
    ensures AllAimed(Execute(s, step), still)
  {
    if Enabled(s, step) {
      match step
      case Acquire(p) => AcquireKeepsAim(s, p, still);
      case ReadTarget(p) => ReadTargetKeepsAim(s, p, still);
      case CommitSwitch(p) => CommitSwitchKeepsAim(s, p, still);
      case CreateLocation(l) => CreateLocationKeepsAim(s, l);
      case StartSwitch(_, _, _, _) => StartSwitchKeepsAim(s, step, still);
      case _ => OtherStepKeepsAim(s, step, still);
    }
  }

  lemma {:induction false} RunKeepsAim(s: State, steps: seq<Step>, still: bool)
    requires Sound(s) && AllAimed(s, still) && forall step | step in steps :: Admissible(step, still)
    ensures Sound(Run(s, steps)) && AllAimed(Run(s, steps), still) && GuardedRun(s, steps)
    decreases |steps|
  {
    if steps != [] {
      assert steps[0] in steps && forall step | step in steps[1..] :: step in steps;
      StepSound(s, steps[0]);
      StepKeepsAim(s, steps[0], still);
      AimIsGuard(s, steps[0], still);
      RunKeepsAim(Execute(s, steps[0]), steps[1..], still);
    }
  }

  lemma AimIsGuard(s: State, step: Step, still: bool)
    requires AllAimed(s, still)
    ensures Guarded(s, step)
  {
    if step.CommitSwitch? && Enabled(s, step) {
      assert Aimed(s, s.processes[step.process], still);
    }
  }

  // --- no stock is stranded ---------------------------------------------------------------

  /**
   * Stock writes and deactivations alone: whatever the deactivations aim at and however
   * the steps interleave, no stock is ever left at an inactive location.
   */
  lemma WritesAndDeactivationsAreSafe(s: State, steps: seq<Step>)
    requires Sound(s) && Safe(s) && forall p | p in s.processes :: s.processes[p].Writer?
    requires forall step | step in steps :: KeepsStill(step)
    ensures Safe(Run(s, steps))
  {
    RunKeepsAim(s, steps, true);
    GuardedRunsAreSafe(s, steps);
  }

  /**
   * With creations and activations too: it is enough that every deactivation starts while
   * its target is active, or while fewer than two locations are.
   */
  lemma WellAimedRunsAreSafe(steps: seq<Step>)
    requires forall step | step in steps :: AimsWell(step)
    ensures Sound(Run(EMPTY, steps)) && AllAimed(Run(EMPTY, steps), false) && Safe(Run(EMPTY, steps))
  {
    RunKeepsAim(EMPTY, steps, false);
    GuardedRunsAreSafe(EMPTY, steps);
  }

  // --- and otherwise it can be -------------------------------------------------------------

  /** A stock write of one unit that runs while nobody holds anything it needs. */
  function WriteOne(process: nat, item: nat, location: nat): seq<Step> {
    [StartWriter(process, item, [location]), Acquire(process), CheckLocations(process)]
      + [Acquire(process), CommitWriter(process, [1])]
  }

  lemma WriteOneRuns(s: State, q: nat, item: nat, t: nat)
    requires q !in s.processes && IsActive(s, t)
    requires forall p | p in s.processes ::
      !HoldsExclusive(s.processes[p], LocationRow(t)) && !Holds(s.processes[p], LevelRow(item, t))
    ensures Run(s, WriteOne(q, item, t)) == s.(levels := s.levels[(item, t) := 1])
  {
    var s1 := Continue(s, q, Writer(item, [t], 0, true, false, 0));
    var s2 := Continue(s, q, Writer(item, [t], 1, true, false, 0));
    var s3 := Continue(s, q, Writer(item, [t], 1, true, true, 0));
    var s4 := Continue(s, q, Writer(item, [t], 1, true, true, 1));
    assert Execute(s, StartWriter(q, item, [t])) == s1;
    assert Execute(s1, Acquire(q)) == s2;
    assert Execute(s2, CheckLocations(q)) == s3;
    assert Execute(s3, Acquire(q)) == s4;
    assert s4.processes - {q} == s.processes;
    WriteOneLevel(s.levels, item, t);
    assert Execute(s4, CommitWriter(q, [1])) == s.(levels := s.levels[(item, t) := 1]);
    RunThree(s, StartWriter(q, item, [t]), Acquire(q), CheckLocations(q));
    RunTwo(s3, Acquire(q), CommitWriter(q, [1]));
    RunConcat(s, [StartWriter(q, item, [t]), Acquire(q), CheckLocations(q)], [Acquire(q), CommitWriter(q, [1])]);
  }

  lemma WriteOneLevel(levels: map<(nat, nat), int>, item: nat, t: nat)
    ensures WriteLevels(levels, item, [t], [1]) == levels[(item, t) := 1]
  {
    assert [t][..0] == [] && [1][..0] == [];
    assert WriteLevels(levels, item, [], []) == levels;
  }

  /**
   * A deactivation about to commit without having locked its active target can always be
   * overtaken by a stock write, and then strands that stock, whoever else is at work.
   */
  lemma UnguardedStrandsStock(s: State, p: nat) returns (steps: seq<Step>)
    requires p in s.processes && s.processes[p].Switch? && s.processes[p].phase == Updating
    requires !s.processes[p].activate && IsActive(s, s.processes[p].target)
    requires !HoldsExclusive(s.processes[p], LocationRow(s.processes[p].target))
    ensures AllPlain(steps) && !Safe(Run(s, steps))
  {
    var w, q := s.processes[p], p + 1;
    var t := w.target;
    var aborts := AbortOthers(s, p);
    var alone := s.(processes := map[p := w]);
    assert Run(s, aborts) == alone;
    WriteOneRuns(alone, q, 0, t);
    var written := alone.(levels := s.levels[(0, t) := 1]);
    assert Free(written, p);
    var after := Execute(written, CommitSwitch(p));
    assert (0, t) in after.levels && after.levels[(0, t)] == 1;
    assert !IsActive(after, t) && !NoStock(after.levels, t);
    hide Run, Execute, WriteOne;
    RunOne(written, CommitSwitch(p));
    RunConcat(alone, WriteOne(q, 0, t), [CommitSwitch(p)]);
    RunConcat(s, aborts, WriteOne(q, 0, t) + [CommitSwitch(p)]);
    steps := aborts + (WriteOne(q, 0, t) + [CommitSwitch(p)]);
  }

  /** Some continuation, itself well aimed, leaves stock at an inactive location. */
  ghost predicate CanStrand(s: State, start: Step) {
    exists steps :: (forall step | step in steps :: AimsWell(step)) && !Safe(Run(s, [start] + steps))
  }

  /**
   * However many locations are active: a deactivation whose target is not among them when
   * its locking statement begins can find it activated later, and strand stock there.
   */
  lemma RaceStrandsStock(s: State, p: nat, t: nat, snapshot: seq<nat>)
    requires Safe(s) && Enabled(s, StartSwitch(p, t, false, snapshot))
    requires t !in snapshot && 2 <= |snapshot|
    ensures CanStrand(s, StartSwitch(p, t, false, snapshot))
  {
    var start := StartSwitch(p, t, false, snapshot);
    assert !IsActive(s, t);
    var update := StartsAndReachesUpdate(s, p, t, false, snapshot);
    var strand := UnguardedStrandsStock(Run(s, [start] + update), p);
    RunConcat(s, [start] + update, strand);
    assert [start] + update + strand == [start] + (update + strand);
    assert forall step | step in update + strand :: AimsWell(step);
  }

  /**
   * Location safety, exactly. In any state that well-aimed transactions reach, starting a
   * deactivation can lead to stranded stock if and only if its target is not active then
   * and at least two other locations are.
   */
  lemma StrandsExactly(before: seq<Step>, p: nat, t: nat, snapshot: seq<nat>)
    requires forall step | step in before :: AimsWell(step)
    requires Enabled(Run(EMPTY, before), StartSwitch(p, t, false, snapshot))
    ensures CanStrand(Run(EMPTY, before), StartSwitch(p, t, false, snapshot)) <==> t !in snapshot && 2 <= |snapshot|
  {
    var s, start := Run(EMPTY, before), StartSwitch(p, t, false, snapshot);
    WellAimedRunsAreSafe(before);
    if t !in snapshot && 2 <= |snapshot| {
      RaceStrandsStock(s, p, t, snapshot);
    } else {
      forall steps | forall step | step in steps :: AimsWell(step)
        ensures Safe(Run(s, [start] + steps))
      {
        assert forall step | step in before + ([start] + steps) :: AimsWell(step);
        WellAimedRunsAreSafe(before + ([start] + steps));
        RunConcat(EMPTY, before, [start] + steps);
      }
    }
  }
}
