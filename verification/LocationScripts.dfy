/** Runs with a purpose: how a transaction can be made to get where it can. */
module LocationScripts {
  import opened Common
  import opened LocationLocks

  /** Steps that neither create a location nor start a switch. */
  predicate Plain(step: Step) {
    !step.CreateLocation? && !step.StartSwitch?
  }

  predicate AllPlain(steps: seq<Step>) {
    forall step | step in steps :: Plain(step)
  }

  ghost predicate NobodyElseHolds(s: State, p: nat) {
    forall q, r | q in s.processes && q != p :: !Holds(s.processes[q], r)
  }

  function Elements(ls: seq<nat>): set<nat> {
    set l | l in ls
  }

  /** Everybody else gives up. */
  lemma {:induction false} AbortOthers(s: State, p: nat) returns (steps: seq<Step>)
    requires p in s.processes
    ensures AllPlain(steps)
    ensures Run(s, steps) == s.(processes := map[p := s.processes[p]])
    decreases s.processes.Keys
  {
    if q :| q in s.processes && q != p {
      var rest := AbortOthers(End(s, q), p);
      steps := [Abort(q)] + rest;
      assert steps[1..] == rest;
    } else {
      steps := [];
      assert s.processes == map[p := s.processes[p]];
    }
  }

  /** With nobody in its way a switch locks the rest of its rows, all still active. */
  lemma {:induction false} LocksAll(s: State, p: nat) returns (steps: seq<Step>)
    requires p in s.processes && s.processes[p].Switch? && s.processes[p].phase == Locking
    requires s.processes[p].locked <= |s.processes[p].snapshot| && NobodyElseHolds(s, p)
    requires forall l | l in s.processes[p].snapshot :: IsActive(s, l)
    ensures AllPlain(steps)
    ensures var w := s.processes[p];
      Run(s, steps) == Continue(s, p,
        w.(locked := |w.snapshot|, actives := w.actives + Elements(w.snapshot[w.locked..])))
    decreases |s.processes[p].snapshot| - s.processes[p].locked
  {
    var w := s.processes[p];
    if w.locked == |w.snapshot| {
      steps := [];
      assert w.actives + Elements(w.snapshot[w.locked..]) == w.actives;
      assert s.processes[p := w] == s.processes;
    } else {
      var l := w.snapshot[w.locked];
      var next := w.(locked := w.locked + 1, actives := w.actives + {l});
      assert Free(s, p);
      assert Execute(s, Acquire(p)) == Continue(s, p, next);
      RunOne(s, Acquire(p));
      hide Run, Execute, Wants, Granted, Holds, Free;
      var rest := LocksAll(Continue(s, p, next), p);
      RunConcat(s, [Acquire(p)], rest);
      steps := [Acquire(p)] + rest;
      assert s.processes[p := next][p := Run(s, steps).processes[p]] == s.processes[p := Run(s, steps).processes[p]];
      assert w.snapshot[w.locked..] == [l] + w.snapshot[w.locked + 1..];
      assert w.actives + Elements(w.snapshot[w.locked..]) == next.actives + Elements(w.snapshot[next.locked..]);
    }
  }

  lemma TwoElements(ls: seq<nat>)
    requires Ascending(ls) && 2 <= |ls|
    ensures 1 < |Elements(ls)|
  {
    var rest := Elements(ls) - {ls[0]};
    assert ls[1] in rest;
    assert |rest| == |Elements(ls)| - 1;
  }

  /** The target can be switched: it exists, is the other way round, and if it is to go it is empty and not the last. */
  predicate Switchable(s: State, t: nat, activate: bool, snapshot: seq<nat>) {
    && t in s.locations && s.locations[t] != activate
    && (!activate ==> 2 <= |snapshot| && NoStock(s.levels, t))
  }

  lemma Checks(s: State, p: nat, t: nat, activate: bool, snapshot: seq<nat>)
    requires p in s.processes
    requires s.processes[p] == Switch(t, activate, snapshot, |snapshot|, Elements(snapshot), Locking)
    requires Ascending(snapshot) && Switchable(s, t, activate, snapshot)
    ensures Run(s, [ReadTarget(p), CheckStock(p)])
      == Continue(s, p, Switch(t, activate, snapshot, |snapshot|, Elements(snapshot), Updating))
  {
    if !activate {
      TwoElements(snapshot);
    }
    var checking := Continue(s, p, Switch(t, activate, snapshot, |snapshot|, Elements(snapshot), Checking));
    assert Execute(s, ReadTarget(p)) == checking;
    var updating := Switch(t, activate, snapshot, |snapshot|, Elements(snapshot), Updating);
    assert checking.processes[p := updating] == s.processes[p := updating];
    assert Execute(checking, CheckStock(p)) == Continue(s, p, updating);
    RunTwo(s, ReadTarget(p), CheckStock(p));
  }

  /** A switch that starts to lock gets as far as its update. */
  lemma ReachesUpdate(s: State, p: nat, t: nat, activate: bool, snapshot: seq<nat>) returns (steps: seq<Step>)
    requires p in s.processes && s.processes[p] == Switch(t, activate, snapshot, 0, {}, Locking)
    requires NobodyElseHolds(s, p) && Ascending(snapshot) && Switchable(s, t, activate, snapshot)
    requires forall l | l in snapshot :: IsActive(s, l)
    ensures AllPlain(steps)
    ensures Run(s, steps) == Continue(s, p, Switch(t, activate, snapshot, |snapshot|, Elements(snapshot), Updating))
  {
    var locking := LocksAll(s, p);
    assert {} + Elements(snapshot[0..]) == Elements(snapshot);
    var locked := Continue(s, p, Switch(t, activate, snapshot, |snapshot|, Elements(snapshot), Locking));
    assert Run(s, locking) == locked;
    Checks(locked, p, t, activate, snapshot);
    var updating := Switch(t, activate, snapshot, |snapshot|, Elements(snapshot), Updating);
    assert locked.processes[p := updating] == s.processes[p := updating];
    steps := locking + [ReadTarget(p), CheckStock(p)];
    RunConcat(s, locking, [ReadTarget(p), CheckStock(p)]);
  }

  /** A whole switch that meets no lock. */
  lemma Switches(s: State, q: nat, t: nat, activate: bool, snapshot: seq<nat>) returns (steps: seq<Step>)
    requires q !in s.processes && NobodyElseHolds(s, q)
    requires IsSnapshot(s, snapshot) && Switchable(s, t, activate, snapshot)
    ensures steps != [] && steps[0] == StartSwitch(q, t, activate, snapshot) && AllPlain(steps[1..])
    ensures Run(s, steps) == s.(locations := s.locations[t := activate])
  {
    var start := StartSwitch(q, t, activate, snapshot);
    var s1 := Continue(s, q, Switch(t, activate, snapshot, 0, {}, Locking));
    assert Execute(s, start) == s1;
    var middle := ReachesUpdate(s1, q, t, activate, snapshot);
    var s2 := Continue(s, q, Switch(t, activate, snapshot, |snapshot|, Elements(snapshot), Updating));
    assert s1.processes[q := s2.processes[q]] == s2.processes;
    assert Run(s1, middle) == s2;
    assert Free(s2, q);
    assert s2.processes - {q} == s.processes;
    assert Execute(s2, CommitSwitch(q)) == s.(locations := s.locations[t := activate]);
    RunOne(s2, CommitSwitch(q));
    RunConcat(s1, middle, [CommitSwitch(q)]);
    steps := [start] + (middle + [CommitSwitch(q)]);
    assert steps[1..] == middle + [CommitSwitch(q)];
  }

  function InsertSorted(ls: seq<nat>, t: nat): (r: seq<nat>)
    requires Ascending(ls) && t !in ls
    ensures Ascending(r) && |r| == |ls| + 1
    ensures forall l: nat :: l in r <==> l == t || l in ls
  {
    if ls == [] then [t]
    else if t < ls[0] then [t] + ls
    else
      assert forall l | l in ls[1..] :: l in ls;
      var rest := InsertSorted(ls[1..], t);
      assert forall i | 0 <= i < |rest| :: rest[i] == t || rest[i] in ls[1..];
      [ls[0]] + rest
  }

  /**
   * While a switch waits with nothing locked, its target can be turned the way it needs
   * it: by another switch, or by creating the location first.
   */
  lemma Prepared(s: State, p: nat, t: nat, activate: bool, snapshot: seq<nat>) returns (steps: seq<Step>)
    requires s.processes == map[p := Switch(t, activate, snapshot, 0, {}, Locking)]
    requires IsSnapshot(s, snapshot) && t !in snapshot && NoStock(s.levels, t)
    requires activate ==> snapshot != []
    ensures Run(s, steps) == s.(locations := s.locations[t := !activate])
    ensures forall step | step in steps && step.StartSwitch? && !step.activate :: step.target in step.snapshot
  {
    var q := p + 1;
    assert !IsActive(s, t);
    if t !in s.locations {
      var created := s.(locations := s.locations[t := true]);
      RunOne(s, CreateLocation(t));
      steps := [CreateLocation(t)];
      if activate {
        var wider := InsertSorted(snapshot, t);
        assert forall l | l in wider :: IsActive(created, l);
        var off := Switches(created, q, t, false, wider);
        assert created.locations[t := false] == s.locations[t := false];
        RunConcat(s, steps, off);
        assert off == [off[0]] + off[1..] && t in wider;
        steps := steps + off;
      }
    } else if !activate {
      steps := Switches(s, q, t, true, snapshot);
      assert steps == [steps[0]] + steps[1..];
    } else {
      steps := [];
      assert s.locations[t := false] == s.locations;
    }
  }

  /**
   * A switch that starts with its target not in its snapshot can be brought to its
   * update: alone, holding its whole snapshot, and not its target.
   */
  lemma StartsAndReachesUpdate(s: State, p: nat, t: nat, activate: bool, snapshot: seq<nat>)
    returns (steps: seq<Step>)
    requires Enabled(s, StartSwitch(p, t, activate, snapshot)) && t !in snapshot && NoStock(s.levels, t)
    requires if activate then snapshot != [] else 2 <= |snapshot|
    ensures forall step | step in steps && step.StartSwitch? && !step.activate :: step.target in step.snapshot
    ensures Run(s, [StartSwitch(p, t, activate, snapshot)] + steps) ==
      State(s.locations[t := !activate], s.levels,
            map[p := Switch(t, activate, snapshot, |snapshot|, Elements(snapshot), Updating)])
  {
    var start := StartSwitch(p, t, activate, snapshot);
    var s1 := Execute(s, start);
    assert s1 == Continue(s, p, Switch(t, activate, snapshot, 0, {}, Locking));
    hide Run, Execute;
    var aborts := AbortOthers(s1, p);
    var s2 := s1.(processes := map[p := s1.processes[p]]);
    var turn := Prepared(s2, p, t, activate, snapshot);
    var s3 := s2.(locations := s2.locations[t := !activate]);
    var update := ReachesUpdate(s3, p, t, activate, snapshot);
    RunConcat(s1, aborts, turn);
    RunConcat(s1, aborts + turn, update);
    steps := aborts + turn + update;
    RunOne(s, start);
    RunConcat(s, [start], steps);
  }
}
