/** Which location switches can end up waiting in a cycle. */
module LocationDeadlocks {
  import opened Common
  import opened LocationLocks
  import opened LocationScripts
  import opened LocationSafety

  /** Locations come before levels; within each, ids decide. */
  predicate Less(a: Resource, b: Resource) {
    || (a.LocationRow? && b.LevelRow?)
    || (a.LocationRow? && b.LocationRow? && a.location < b.location)
    || (a.LevelRow? && b.LevelRow? && a.location < b.location)
  }

  /** What a transaction will ask for lies above all it holds. */
  predicate AsksInOrder(p: Process) {
    p.Switch? && p.phase == Updating ==>
    HoldsExclusive(p, LocationRow(p.target)) || forall l | l in p.snapshot :: l < p.target
  }

  lemma HeldBelowWanted(s: State, p: Process, held: Resource)
    requires ProcessSound(s, p) && AsksInOrder(p)
    requires Holds(p, held) && Wants(p).Some? && !Holds(p, Wants(p).value)
    ensures Less(held, Wants(p).value)
  {
    if p.Switch? {
      var i :| 0 <= i < p.locked && i < |p.snapshot| && p.snapshot[i] == held.location;
      assert p.snapshot[i] in p.snapshot;
    } else if held.LevelRow? {
      var i :| 0 <= i < p.levels && i < |p.locations| && p.locations[i] == held.location;
      assert p.locations[i] < p.locations[p.levels];
    }
  }

  /** A cycle of transactions each waiting for the next. */
  predicate WaitCycle(s: State, ps: seq<nat>) {
    ps != [] && forall i | 0 <= i < |ps| :: Waits(s, ps[i], ps[if i + 1 == |ps| then 0 else i + 1])
  }

  lemma WaitsClimb(s: State, p: nat, q: nat, r: nat)
    requires Sound(s) && Waits(s, p, q) && Waits(s, q, r)
    requires AsksInOrder(s.processes[q])
    ensures Less(Wants(s.processes[p]).value, Wants(s.processes[q]).value)
  {
    var b := s.processes[q];
    assert ProcessSound(s, b);
    assert Compatible(b, s.processes[r]) && Compatible(s.processes[r], b);
    assert !Holds(b, Wants(b).value);
    HeldBelowWanted(s, b, Wants(s.processes[p]).value);
  }

  lemma {:induction false} CycleClimbs(s: State, ps: seq<nat>, i: nat)
    requires Sound(s) && WaitCycle(s, ps) && 0 < i < |ps|
    requires forall p | p in ps ::
      p in s.processes && AsksInOrder(s.processes[p]) && Wants(s.processes[p]).Some?
    ensures ps[0] in ps && ps[i] in ps
    ensures Less(Wants(s.processes[ps[0]]).value, Wants(s.processes[ps[i]]).value)
    decreases i
  {
    var next := ps[if i + 1 == |ps| then 0 else i + 1];
    assert Waits(s, ps[i - 1], ps[i]) && Waits(s, ps[i], next);
    assert ps[i] in ps;
    WaitsClimb(s, ps[i - 1], ps[i], next);
    if 1 < i {
      CycleClimbs(s, ps, i - 1);
    }
  }

  /** Transactions that all ask in order never wait for each other in a cycle. */
  lemma NoCycleInOrder(s: State, ps: seq<nat>)
    requires Sound(s) && forall p | p in ps && p in s.processes :: AsksInOrder(s.processes[p])
    ensures !WaitCycle(s, ps)
  {
    if WaitCycle(s, ps) {
      assert ps[0] in ps;
      forall p | p in ps
        ensures p in s.processes && AsksInOrder(s.processes[p]) && Wants(s.processes[p]).Some?
      {
        var i :| 0 <= i < |ps| && ps[i] == p;
        assert Waits(s, ps[i], ps[if i + 1 == |ps| then 0 else i + 1]);
      }
      var n := |ps| - 1;
      if 0 < n {
        CycleClimbs(s, ps, n);
        assert Waits(s, ps[n], ps[0]) && Waits(s, ps[0], ps[1]);
        WaitsClimb(s, ps[n], ps[0], ps[1]);
      }
    }
  }

  // --- orderly switches -----------------------------------------------------------------

  /**
   * What can be told when a switch starts: its target is one of the rows it will lock, or
   * lies above them all, or too few locations are active for it to go ahead.
   */
  predicate Orderly(t: nat, activate: bool, snapshot: seq<nat>) {
    t in snapshot || (forall l | l in snapshot :: l < t) || (!activate && |snapshot| < 2)
  }

  predicate StartsOrderly(step: Step) {
    step.StartSwitch? ==> Orderly(step.target, step.activate, step.snapshot)
  }

  predicate OrderlySwitch(p: Process) {
    p.Switch? ==> Orderly(p.target, p.activate, p.snapshot)
  }

  lemma OrderlyAsksInOrder(s: State, p: Process)
    requires ProcessSound(s, p) && OrderlySwitch(p)
    ensures AsksInOrder(p)
  {
    if p.Switch? && p.phase == Updating {
      if p.target in p.snapshot {
        var i :| 0 <= i < |p.snapshot| && p.snapshot[i] == p.target;
        assert HoldsExclusive(p, LocationRow(p.target));
      } else if !p.activate {
        ActivesFew(s, p);
      }
    }
  }

  lemma StepKeepsOrder(s: State, step: Step)
    requires StartsOrderly(step) && forall p | p in s.processes :: OrderlySwitch(s.processes[p])
    ensures forall p | p in Execute(s, step).processes :: OrderlySwitch(Execute(s, step).processes[p])
  {
  }

  lemma {:induction false} RunKeepsOrder(s: State, steps: seq<Step>)
    requires forall p | p in s.processes :: OrderlySwitch(s.processes[p])
    requires forall step | step in steps :: StartsOrderly(step)
    ensures forall p | p in Run(s, steps).processes :: OrderlySwitch(Run(s, steps).processes[p])
    decreases |steps|
  {
    if steps != [] {
      assert steps[0] in steps && forall step | step in steps[1..] :: step in steps;
      StepKeepsOrder(s, steps[0]);
      RunKeepsOrder(Execute(s, steps[0]), steps[1..]);
    }
  }

  /** Runs whose switches all start orderly never reach a cycle of waiting transactions. */
  lemma NoDeadlock(steps: seq<Step>, ps: seq<nat>)
    requires forall step | step in steps :: StartsOrderly(step)
    ensures !WaitCycle(Run(EMPTY, steps), ps)
  {
    var s := Run(EMPTY, steps);
    RunSound(EMPTY, steps);
    RunKeepsOrder(EMPTY, steps);
    forall p | p in s.processes
      ensures AsksInOrder(s.processes[p])
    {
      OrderlyAsksInOrder(s, s.processes[p]);
    }
    NoCycleInOrder(s, ps);
  }

  /** Stock writes, transfers and deactivations alone never do, whatever the deactivations aim at. */
  lemma WritesAndDeactivationsNeverDeadlock(s: State, steps: seq<Step>, ps: seq<nat>)
    requires Sound(s) && forall p | p in s.processes :: s.processes[p].Writer?
    requires forall step | step in steps :: KeepsStill(step)
    ensures !WaitCycle(Run(s, steps), ps)
  {
    RunKeepsAim(s, steps, true);
    var after := Run(s, steps);
    forall p | p in after.processes
      ensures AsksInOrder(after.processes[p])
    {
      assert Aimed(after, after.processes[p], true) && ProcessSound(after, after.processes[p]);
    }
    NoCycleInOrder(after, ps);
  }

  // --- the exact condition ----------------------------------------------------------------

  /** The switch `start` began is still there. */
  predicate StillThere(s: State, start: Step)
    requires start.StartSwitch?
  {
    && start.process in s.processes
    && var w := s.processes[start.process];
    && w.Switch? && w.target == start.target && w.activate == start.activate && w.snapshot == start.snapshot
  }

  /** A cycle that this switch closes: everybody else in it asks in order. */
  predicate ClosesCycle(s: State, start: Step, ps: seq<nat>)
    requires start.StartSwitch?
  {
    && WaitCycle(s, ps) && start.process in ps && StillThere(s, start)
    && forall q | q in ps && q != start.process && q in s.processes :: AsksInOrder(s.processes[q])
  }

  ghost predicate CanDeadlock(s: State, start: Step)
    requires start.StartSwitch?
  {
    exists steps, ps :: ClosesCycle(Run(s, [start] + steps), start, ps)
  }

  /** A transfer out of the target share-locks it and then waits for a row the switch holds. */
  lemma TransferWaits(s: State, p: nat, t: nat, l: nat)
    requires p in s.processes && s.processes[p].Switch? && s.processes[p].phase == Updating
    requires s.processes.Keys == {p} && s.processes[p].target == t && t < l
    requires HoldsExclusive(s.processes[p], LocationRow(l)) && !HoldsExclusive(s.processes[p], LocationRow(t))
    ensures var after := Run(s, [StartWriter(p + 1, 0, [t, l]), Acquire(p + 1)]);
      && WaitCycle(after, [p, p + 1]) && p in after.processes && p + 1 in after.processes
      && after.processes[p] == s.processes[p] && after.processes[p + 1].Writer?
  {
    var q := p + 1;
    assert [t, l][0] == t && [t, l][1] == l;
    var s5 := Continue(s, q, Writer(0, [t, l], 0, true, false, 0));
    var s6 := Continue(s, q, Writer(0, [t, l], 1, IsActive(s, t), false, 0));
    assert Execute(s, StartWriter(q, 0, [t, l])) == s5;
    assert Free(s5, q);
    assert s5.processes[q := s6.processes[q]] == s6.processes;
    assert Execute(s5, Acquire(q)) == s6;
    RunTwo(s, StartWriter(q, 0, [t, l]), Acquire(q));
    assert HoldsShare(s6.processes[q], LocationRow(t));
    assert Waits(s6, p, q) && Waits(s6, q, p);
  }

  /**
   * A switch whose target is not among the locations active when it starts, with some
   * active location above it, can deadlock with a transfer.
   */
  lemma DisorderlySwitchCanDeadlock(s: State, p: nat, t: nat, activate: bool, snapshot: seq<nat>)
    requires Safe(s) && Enabled(s, StartSwitch(p, t, activate, snapshot)) && !Orderly(t, activate, snapshot)
    ensures CanDeadlock(s, StartSwitch(p, t, activate, snapshot))
  {
    var start := StartSwitch(p, t, activate, snapshot);
    var l :| l in snapshot && t <= l;
    assert !IsActive(s, t);
    var update := StartsAndReachesUpdate(s, p, t, activate, snapshot);
    var updating := Run(s, [start] + update);
    var i :| 0 <= i < |snapshot| && snapshot[i] == l;
    assert HoldsExclusive(updating.processes[p], LocationRow(l));
    TransferWaits(updating, p, t, l);
    var transfer := [StartWriter(p + 1, 0, [t, l]), Acquire(p + 1)];
    RunConcat(s, [start] + update, transfer);
    assert [start] + update + transfer == [start] + (update + transfer);
    hide Run, WaitCycle;
    assert ClosesCycle(Run(s, [start] + (update + transfer)), start, [p, p + 1]);
  }

  /**
   * Deadlock freedom, exactly. A switch can close a cycle of waiting transactions if and
   * only if, when it starts, its target is not active, some active location has a larger
   * id, and, to deactivate, at least two are active.
   */
  lemma DeadlocksExactly(s: State, p: nat, t: nat, activate: bool, snapshot: seq<nat>)
    requires Sound(s) && Safe(s) && Enabled(s, StartSwitch(p, t, activate, snapshot))
    ensures CanDeadlock(s, StartSwitch(p, t, activate, snapshot)) <==>
      t !in snapshot && (exists l | l in snapshot :: t < l) && (activate || 2 <= |snapshot|)
  {
    var start := StartSwitch(p, t, activate, snapshot);
    if Orderly(t, activate, snapshot) {
      forall steps, ps
        ensures !ClosesCycle(Run(s, [start] + steps), start, ps)
      {
        OrderlySwitchClosesNone(s, start, steps, ps);
      }
    } else {
      DisorderlySwitchCanDeadlock(s, p, t, activate, snapshot);
      var l :| l in snapshot && t <= l;
      assert t < l;
    }
  }

  lemma OrderlySwitchClosesNone(s: State, start: Step, steps: seq<Step>, ps: seq<nat>)
    requires Sound(s) && start.StartSwitch? && Orderly(start.target, start.activate, start.snapshot)
    ensures !ClosesCycle(Run(s, [start] + steps), start, ps)
  {
    var after := Run(s, [start] + steps);
    RunSound(s, [start] + steps);
    if StillThere(after, start) {
      OrderlyAsksInOrder(after, after.processes[start.process]);
    }
    if forall q | q in ps && q != start.process && q in after.processes :: AsksInOrder(after.processes[q]) {
      if StillThere(after, start) {
        NoCycleInOrder(after, ps);
      }
    }
  }
}
