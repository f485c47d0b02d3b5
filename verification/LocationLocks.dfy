/**
 * Stock writes and location switches with their row locks as separate steps.
 * Stock writes share-lock their locations; a switch locks, in id order, the
 * locations that were active when its locking statement began.
 */
module LocationLocks {
  import opened Common

  /** A location row, or an item's level row at a location. */
  datatype Resource = LocationRow(location: nat) | LevelRow(item: nat, location: nat)

  datatype Phase = Locking | Checking | Updating

  /**
   * A transaction in progress. A writer has share-locked its first `locked`
   * locations and locked its first `levels` level rows; `checked` means it found
   * all its locations active. A switch has locked the first `locked` rows of its
   * statement's snapshot; `actives` are those that were still active then.
   */
  datatype Process =
    | Writer(item: nat, locations: seq<nat>, locked: nat, allActive: bool, checked: bool, levels: nat)
    | Switch(target: nat, activate: bool, snapshot: seq<nat>, locked: nat, actives: set<nat>, phase: Phase)

  /** Committed rows: which locations exist and are active, and the stock of live items. */
  datatype State = State(locations: map<nat, bool>, levels: map<(nat, nat), int>, processes: map<nat, Process>)

  const EMPTY := State(map[], map[], map[])

  predicate Ascending(s: seq<nat>) {
    forall i, j | 0 <= i < j < |s| :: s[i] < s[j]
  }

  predicate IsActive(s: State, location: nat) {
    location in s.locations && s.locations[location]
  }

  /** No live item has stock at the location. */
  predicate NoStock(levels: map<(nat, nat), int>, location: nat) {
    forall k | k in levels && k.1 == location :: levels[k] == 0
  }

  // --- locks ----------------------------------------------------------------------

  predicate HoldsShare(p: Process, r: Resource) {
    p.Writer? && r.LocationRow? && exists i | 0 <= i < p.locked && i < |p.locations| :: p.locations[i] == r.location
  }

  predicate HoldsExclusive(p: Process, r: Resource) {
    match p
    case Writer(item, locations, _, _, _, levels) =>
      r.LevelRow? && r.item == item && exists i | 0 <= i < levels && i < |locations| :: locations[i] == r.location
    case Switch(_, _, snapshot, locked, _, _) =>
      r.LocationRow? && exists i | 0 <= i < locked && i < |snapshot| :: snapshot[i] == r.location
  }

  predicate Holds(p: Process, r: Resource) {
    HoldsShare(p, r) || HoldsExclusive(p, r)
  }

  /** The lock a transaction asks for next. */
  function Wants(p: Process): Option<Resource> {
    match p
    case Writer(item, locations, locked, _, checked, levels) =>
      if locked < |locations| then Some(LocationRow(locations[locked]))
      else if checked && levels < |locations| then Some(LevelRow(item, locations[levels]))
      else None
    case Switch(target, _, snapshot, locked, _, phase) =>
      if phase == Locking && locked < |snapshot| then Some(LocationRow(snapshot[locked]))
      else if phase == Updating then Some(LocationRow(target))
      else None
  }

  predicate WantsShare(p: Process) {
    p.Writer? && p.locked < |p.locations|
  }

  /** `q` holds what `p` wants, in a mode that conflicts. */
  predicate Blocks(p: Process, q: Process) {
    Wants(p).Some?
    && (if WantsShare(p) then HoldsExclusive(q, Wants(p).value) else Holds(q, Wants(p).value))
  }

  predicate Waits(s: State, p: nat, q: nat) {
    p in s.processes && q in s.processes && p != q && Blocks(s.processes[p], s.processes[q])
  }

  predicate Free(s: State, p: nat) {
    forall q | q in s.processes :: !Waits(s, p, q)
  }

  // --- steps ----------------------------------------------------------------------

  datatype Step =
    | CreateLocation(location: nat)
    | StartWriter(process: nat, item: nat, locations: seq<nat>)
    | StartSwitch(process: nat, target: nat, activate: bool, snapshot: seq<nat>)
    | Acquire(process: nat)
    | CheckLocations(process: nat)
    | CommitWriter(process: nat, values: seq<int>)
    | ReadTarget(process: nat)
    | CheckStock(process: nat)
    | CommitSwitch(process: nat)
    | Abort(process: nat)

  /** A snapshot lists the active locations in id order. */
  predicate IsSnapshot(s: State, snapshot: seq<nat>) {
    && Ascending(snapshot)
    && (forall l | l in snapshot :: IsActive(s, l))
    && (forall l | l in s.locations && s.locations[l] :: l in snapshot)
  }

  predicate Enabled(s: State, step: Step) {
    match step
    case CreateLocation(l) => l !in s.locations
    case StartWriter(p, _, locations) => p !in s.processes && locations != [] && Ascending(locations)
    case StartSwitch(p, _, _, snapshot) => p !in s.processes && IsSnapshot(s, snapshot)
    case Acquire(p) =>
      && p in s.processes && Wants(s.processes[p]).Some? && Free(s, p)
      && !(s.processes[p].Switch? && s.processes[p].phase == Updating)
    case CheckLocations(p) =>
      && p in s.processes && s.processes[p].Writer?
      && s.processes[p].locked == |s.processes[p].locations| && !s.processes[p].checked
    case CommitWriter(p, values) =>
      && p in s.processes && s.processes[p].Writer? && s.processes[p].checked
      && s.processes[p].levels == |s.processes[p].locations| == |values|
    case ReadTarget(p) =>
      && p in s.processes && s.processes[p].Switch? && s.processes[p].phase == Locking
      && s.processes[p].locked == |s.processes[p].snapshot|
    case CheckStock(p) => p in s.processes && s.processes[p].Switch? && s.processes[p].phase == Checking
    case CommitSwitch(p) =>
      && p in s.processes && s.processes[p].Switch? && s.processes[p].phase == Updating
      && s.processes[p].target in s.locations && Free(s, p)
    case Abort(p) => p in s.processes
  }

  function Continue(s: State, p: nat, next: Process): State {
    s.(processes := s.processes[p := next])
  }

  function End(s: State, p: nat): State {
    s.(processes := s.processes - {p})
  }

  /** A lock is granted; a switch looks again whether the row it locked is still active. */
  function Granted(s: State, p: Process): Process
    requires Wants(p).Some?
  {
    match p
    case Writer(_, locations, locked, allActive, _, levels) =>
      if locked < |locations| then p.(locked := locked + 1, allActive := allActive && IsActive(s, locations[locked]))
      else p.(levels := levels + 1)
    case Switch(_, _, snapshot, locked, actives, _) =>
      if locked < |snapshot| then
        p.(locked := locked + 1,
           actives := if IsActive(s, snapshot[locked]) then actives + {snapshot[locked]} else actives)
      else p
  }

  function WriteLevels(levels: map<(nat, nat), int>, item: nat, locations: seq<nat>, values: seq<int>): map<(nat, nat), int>
    requires |locations| == |values|
  {
    if locations == [] then levels
    else
      var n := |locations| - 1;
      WriteLevels(levels, item, locations[..n], values[..n])[(item, locations[n]) := values[n]]
  }

  function Execute(s: State, step: Step): State {
    if !Enabled(s, step) then s
    else
      match step
      case CreateLocation(l) => s.(locations := s.locations[l := true])
      case StartWriter(p, item, locations) => Continue(s, p, Writer(item, locations, 0, true, false, 0))
      case StartSwitch(p, target, activate, snapshot) => Continue(s, p, Switch(target, activate, snapshot, 0, {}, Locking))
      case Acquire(p) => Continue(s, p, Granted(s, s.processes[p]))
      case CheckLocations(p) =>
        if s.processes[p].allActive then Continue(s, p, s.processes[p].(checked := true)) else End(s, p)
      case CommitWriter(p, values) =>
        var w := s.processes[p];
        End(s.(levels := WriteLevels(s.levels, w.item, w.locations, values)), p)
      case ReadTarget(p) =>
        var w := s.processes[p];
        if w.target !in s.locations || s.locations[w.target] == w.activate then End(s, p)
        else if !w.activate && |w.actives| <= 1 then End(s, p)
        else Continue(s, p, w.(phase := Checking))
      case CheckStock(p) =>
        var w := s.processes[p];
        if !w.activate && !NoStock(s.levels, w.target) then End(s, p) else Continue(s, p, w.(phase := Updating))
      case CommitSwitch(p) =>
        var w := s.processes[p];
        End(s.(locations := s.locations[w.target := w.activate]), p)
      case Abort(p) => End(s, p)
  }

  function Run(s: State, steps: seq<Step>): State
    decreases |steps|
  {
    if steps == [] then s else Run(Execute(s, steps[0]), steps[1..])
  }

  /** The switch found its target among the rows it locked. */
  predicate LockedItsTarget(p: Process) {
    p.Switch? && p.target in p.actives
  }

  // --- invariant ------------------------------------------------------------------

  /** What a writer knows about the locations it has locked. */
  predicate WriterSound(s: State, w: Process)
    requires w.Writer?
  {
    && Ascending(w.locations)
    && w.locked <= |w.locations| && w.levels <= |w.locations|
    && (w.levels != 0 ==> w.checked)
    && (w.checked ==> w.locked == |w.locations| && w.allActive)
    && (w.allActive ==> forall i | 0 <= i < w.locked :: IsActive(s, w.locations[i]))
  }

  /** What a switch knows about the locations it has locked. */
  predicate SwitchSound(s: State, w: Process)
    requires w.Switch?
  {
    && Ascending(w.snapshot)
    && w.locked <= |w.snapshot|
    && (w.phase != Locking ==> w.locked == |w.snapshot|)
    && (forall l | l in w.actives :: IsActive(s, l) && HoldsExclusive(w, LocationRow(l)))
    && (w.phase != Locking && !w.activate ==> 1 < |w.actives|)
    && (w.phase == Updating && !w.activate && LockedItsTarget(w) ==> NoStock(s.levels, w.target))
  }

  predicate ProcessSound(s: State, w: Process) {
    if w.Writer? then WriterSound(s, w) else SwitchSound(s, w)
  }

  ghost predicate Compatible(a: Process, b: Process) {
    forall r :: !(HoldsExclusive(a, r) && Holds(b, r))
  }

  ghost predicate Sound(s: State) {
    && (forall p | p in s.processes :: ProcessSound(s, s.processes[p]))
    && (forall p, q | p in s.processes && q in s.processes && p != q :: Compatible(s.processes[p], s.processes[q]))
  }

  /** No stock sits at a location that is not active. */
  ghost predicate Safe(s: State) {
    forall l: nat | !IsActive(s, l) :: NoStock(s.levels, l)
  }

  // --- every step keeps it ------------------------------------------------------------

  lemma GrantedCompatible(s: State, p: nat, q: nat)
    requires Sound(s) && Enabled(s, Acquire(p)) && q in s.processes && p != q
    ensures Compatible(Granted(s, s.processes[p]), s.processes[q])
    ensures Compatible(s.processes[q], Granted(s, s.processes[p]))
  {
    var a, b := s.processes[p], s.processes[q];
    var after := Granted(s, a);
    assert !Waits(s, p, q);
    assert !Blocks(a, b);
    forall r | Holds(after, r) && !Holds(a, r)
      ensures r == Wants(a).value
    {
    }
  }

  lemma AcquireSound(s: State, p: nat)
    requires Sound(s) && Enabled(s, Acquire(p))
    ensures Sound(Execute(s, Acquire(p)))
  {
    var after := Execute(s, Acquire(p));
    forall q | q in s.processes && q != p
      ensures Compatible(after.processes[p], after.processes[q])
      ensures Compatible(after.processes[q], after.processes[p])
    {
      GrantedCompatible(s, p, q);
    }
    GrantedSound(s, p);
    forall q | q in after.processes
      ensures ProcessSound(after, after.processes[q])
    {
      assert ProcessSound(s, s.processes[q]);
    }
  }

  lemma GrantedSound(s: State, p: nat)
    requires Sound(s) && Enabled(s, Acquire(p))
    ensures ProcessSound(s, Granted(s, s.processes[p]))
  {
    var w := s.processes[p];
    assert ProcessSound(s, w);
    if w.Switch? {
      var after := Granted(s, w);
      forall l | l in after.actives
        ensures IsActive(s, l) && HoldsExclusive(after, LocationRow(l))
      {
        if l !in w.actives {
          assert after.snapshot[w.locked] == l;
        }
      }
    }
  }

  /** Starting and ending transactions, and moving between phases, touches no rows and takes no locks. */
  lemma ReadTargetSound(s: State, p: nat)
    requires Sound(s) && Enabled(s, ReadTarget(p))
    ensures Sound(Execute(s, ReadTarget(p)))
  {
    var after := Execute(s, ReadTarget(p));
    assert ProcessSound(s, s.processes[p]);
    hide NoStock, WriteLevels, Granted, Free;
    forall q | q in after.processes
      ensures ProcessSound(after, after.processes[q])
    {
      assert ProcessSound(s, s.processes[q]);
    }
    SameHoldings(s, after);
  }

  lemma CheckStockSound(s: State, p: nat)
    requires Sound(s) && Enabled(s, CheckStock(p))
    ensures Sound(Execute(s, CheckStock(p)))
  {
    var after := Execute(s, CheckStock(p));
    assert ProcessSound(s, s.processes[p]);
    forall q | q in after.processes
      ensures ProcessSound(after, after.processes[q])
    {
      assert ProcessSound(s, s.processes[q]);
    }
    SameHoldings(s, after);
  }

  lemma CheckLocationsSound(s: State, p: nat)
    requires Sound(s) && Enabled(s, CheckLocations(p))
    ensures Sound(Execute(s, CheckLocations(p)))
  {
    var after := Execute(s, CheckLocations(p));
    assert ProcessSound(s, s.processes[p]);
    forall q | q in after.processes
      ensures ProcessSound(after, after.processes[q])
    {
      assert ProcessSound(s, s.processes[q]);
    }
    SameHoldings(s, after);
  }

  /** Processes that hold what they held, or end, or start empty-handed, stay compatible. */
  lemma SameHoldings(s: State, after: State)
    requires forall p, q | p in s.processes && q in s.processes && p != q :: Compatible(s.processes[p], s.processes[q])
    requires forall p | p in after.processes && p in s.processes ::
      forall r :: (HoldsExclusive(after.processes[p], r) <==> HoldsExclusive(s.processes[p], r))
        && (Holds(after.processes[p], r) <==> Holds(s.processes[p], r))
    requires forall p | p in after.processes && p !in s.processes :: forall r :: !Holds(after.processes[p], r)
    ensures forall p, q | p in after.processes && q in after.processes && p != q ::
      Compatible(after.processes[p], after.processes[q])
  {
    forall p, q | p in after.processes && q in after.processes && p != q
      ensures Compatible(after.processes[p], after.processes[q])
    {
      forall r
        ensures !(HoldsExclusive(after.processes[p], r) && Holds(after.processes[q], r))
      {
        if p in s.processes && q in s.processes {
          assert Compatible(s.processes[p], s.processes[q]);
          assert HoldsExclusive(after.processes[p], r) <==> HoldsExclusive(s.processes[p], r);
          assert Holds(after.processes[q], r) <==> Holds(s.processes[q], r);
        } else {
          assert HoldsExclusive(after.processes[p], r) ==> Holds(after.processes[p], r);
        }
      }
    }
  }

  lemma StartSound(s: State, step: Step)
    requires Sound(s) && Enabled(s, step)
    requires step.StartWriter? || step.StartSwitch? || step.CreateLocation? || step.Abort?
    ensures Sound(Execute(s, step))
  {
    var after := Execute(s, step);
    forall q | q in after.processes
      ensures ProcessSound(after, after.processes[q])
    {
      if q in s.processes {
        assert ProcessSound(s, s.processes[q]);
      }
    }
    SameHoldings(s, after);
  }

  lemma {:induction false} WriteLevelsElsewhere(
    levels: map<(nat, nat), int>, item: nat, locations: seq<nat>, values: seq<int>, k: (nat, nat))
    requires |locations| == |values| && k.1 !in locations
    ensures k in WriteLevels(levels, item, locations, values) <==> k in levels
    ensures k in levels ==> WriteLevels(levels, item, locations, values)[k] == levels[k]
    decreases |locations|
  {
    if locations != [] {
      var n := |locations| - 1;
      assert locations[n] in locations;
      assert forall l | l in locations[..n] :: l in locations;
      WriteLevelsElsewhere(levels, item, locations[..n], values[..n], k);
    }
  }

  lemma WriteKeepsNoStock(levels: map<(nat, nat), int>, item: nat, locations: seq<nat>, values: seq<int>, location: nat)
    requires |locations| == |values| && location !in locations && NoStock(levels, location)
    ensures NoStock(WriteLevels(levels, item, locations, values), location)
  {
    var after := WriteLevels(levels, item, locations, values);
    forall k | k in after && k.1 == location
      ensures after[k] == 0
    {
      WriteLevelsElsewhere(levels, item, locations, values, k);
    }
  }

  /** A location some switch holds is none of a committing writer's. */
  lemma WriterKeepsOut(s: State, p: nat, q: nat, location: nat)
    requires Sound(s) && p in s.processes && q in s.processes
    requires s.processes[p].Writer? && s.processes[p].checked
    requires s.processes[q].Switch? && HoldsExclusive(s.processes[q], LocationRow(location))
    ensures location !in s.processes[p].locations
  {
    var w := s.processes[p];
    assert ProcessSound(s, w) && p != q;
    assert Compatible(s.processes[q], w);
    assert !Holds(w, LocationRow(location));
  }

  lemma CommitWriterSound(s: State, p: nat, values: seq<int>)
    requires Sound(s) && Enabled(s, CommitWriter(p, values))
    ensures Sound(Execute(s, CommitWriter(p, values)))
    ensures Safe(s) ==> Safe(Execute(s, CommitWriter(p, values)))
  {
    var w := s.processes[p];
    var after := Execute(s, CommitWriter(p, values));
    assert ProcessSound(s, w);
    forall q | q in after.processes
      ensures ProcessSound(after, after.processes[q])
    {
      var other := s.processes[q];
      assert ProcessSound(s, other);
      if other.Switch? && other.phase == Updating && !other.activate && LockedItsTarget(other) {
        WriterKeepsOut(s, p, q, other.target);
        WriteKeepsNoStock(s.levels, w.item, w.locations, values, other.target);
      }
    }
    SameHoldings(s, after);
    if Safe(s) {
      forall l: nat | !IsActive(after, l)
        ensures NoStock(after.levels, l)
      {
        assert forall i | 0 <= i < |w.locations| :: IsActive(s, w.locations[i]);
        WriteKeepsNoStock(s.levels, w.item, w.locations, values, l);
      }
    }
  }

  /** A switch that commits changes no location that another transaction has locked. */
  lemma SwitchLeavesLocked(s: State, p: nat, q: nat, location: nat)
    requires Sound(s) && Enabled(s, CommitSwitch(p)) && q in s.processes && q != p
    requires Holds(s.processes[q], LocationRow(location))
    ensures location != s.processes[p].target
  {
    assert !Waits(s, p, q);
  }

  lemma CommitSwitchSound(s: State, p: nat)
    requires Sound(s) && Enabled(s, CommitSwitch(p))
    ensures Sound(Execute(s, CommitSwitch(p)))
  {
    var after := Execute(s, CommitSwitch(p));
    var w := s.processes[p];
    forall q | q in after.processes
      ensures ProcessSound(after, after.processes[q])
    {
      var other := s.processes[q];
      assert ProcessSound(s, other);
      if other.Writer? {
        forall i | 0 <= i < other.locked
          ensures other.locations[i] != w.target
        {
          assert HoldsShare(other, LocationRow(other.locations[i]));
          SwitchLeavesLocked(s, p, q, other.locations[i]);
        }
      } else {
        forall l | l in other.actives
          ensures l != w.target
        {
          SwitchLeavesLocked(s, p, q, l);
        }
      }
    }
    SameHoldings(s, after);
  }

  lemma StepSound(s: State, step: Step)
    requires Sound(s)
    ensures Sound(Execute(s, step))
  {
    if Enabled(s, step) {
      match step
      case Acquire(p) => AcquireSound(s, p);
      case CheckLocations(p) => CheckLocationsSound(s, p);
      case CommitWriter(p, values) => CommitWriterSound(s, p, values);
      case ReadTarget(p) => ReadTargetSound(s, p);
      case CheckStock(p) => CheckStockSound(s, p);
      case CommitSwitch(p) => CommitSwitchSound(s, p);
      case _ => StartSound(s, step);
    }
  }

  lemma {:induction false} RunSound(s: State, steps: seq<Step>)
    requires Sound(s)
    ensures Sound(Run(s, steps))
    decreases |steps|
  {
    if steps != [] {
      StepSound(s, steps[0]);
      RunSound(Execute(s, steps[0]), steps[1..]);
    }
  }

  // --- runs ------------------------------------------------------------------------

  lemma RunOne(s: State, a: Step)
    ensures Run(s, [a]) == Execute(s, a)
  {
    assert [a][1..] == [];
  }

  lemma RunTwo(s: State, a: Step, b: Step)
    ensures Run(s, [a, b]) == Execute(Execute(s, a), b)
  {
    assert [a, b][1..] == [b];
    RunOne(Execute(s, a), b);
  }

  lemma RunThree(s: State, a: Step, b: Step, c: Step)
    ensures Run(s, [a, b, c]) == Execute(Execute(Execute(s, a), b), c)
  {
    assert [a, b, c][1..] == [b, c];
    RunTwo(Execute(s, a), b, c);
  }

  lemma {:induction false} RunConcat(s: State, first: seq<Step>, second: seq<Step>)
    ensures Run(s, first + second) == Run(Run(s, first), second)
    decreases |first|
  {
    if first == [] {
      assert first + second == second;
    } else {
      assert (first + second)[1..] == first[1..] + second;
      RunConcat(Execute(s, first[0]), first[1..], second);
    }
  }

  // --- one location stays active -----------------------------------------------------------

  ghost predicate SomeActive(s: State) {
    exists l: nat :: IsActive(s, l)
  }

  lemma StepKeepsSomeActive(s: State, step: Step)
    requires Sound(s) && SomeActive(s)
    ensures SomeActive(Execute(s, step))
  {
    var after := Execute(s, step);
    if step.CommitSwitch? && Enabled(s, step) && !s.processes[step.process].activate {
      var w := s.processes[step.process];
      assert ProcessSound(s, w);
      var others := w.actives - {w.target};
      assert |others| >= |w.actives| - 1;
      var l :| l in others;
      assert IsActive(after, l);
    } else {
      var l: nat :| IsActive(s, l);
      assert IsActive(after, l);
    }
  }

  /** A store that has an active location keeps one, in every interleaving. */
  lemma {:induction false} OneLocationStaysActive(s: State, steps: seq<Step>)
    requires Sound(s) && SomeActive(s)
    ensures SomeActive(Run(s, steps))
    decreases |steps|
  {
    if steps != [] {
      StepSound(s, steps[0]);
      StepKeepsSomeActive(s, steps[0]);
      OneLocationStaysActive(Execute(s, steps[0]), steps[1..]);
    }
  }

  // --- what a transaction that goes on does ----------------------------------------------

  lemma {:induction false} LevelsWritten(
    levels: map<(nat, nat), int>, item: nat, locations: seq<nat>, values: seq<int>, k: (nat, nat))
    requires |locations| == |values| && Ascending(locations)
    ensures var after := WriteLevels(levels, item, locations, values);
      && (forall i | 0 <= i < |locations| && k == (item, locations[i]) :: k in after && after[k] == values[i])
      && ((k.0 != item || k.1 !in locations) ==>
          (k in after <==> k in levels) && (k in levels ==> after[k] == levels[k]))
    decreases |locations|
  {
    if locations != [] {
      var n := |locations| - 1;
      LevelsWritten(levels, item, locations[..n], values[..n], k);
      assert locations == locations[..n] + [locations[n]];
    }
  }

  /** A stock write gives each of its locations its own value, and touches nothing else. */
  lemma WritesExactly(s: State, p: nat, values: seq<int>)
    requires Sound(s) && Enabled(s, CommitWriter(p, values))
    ensures var after := Execute(s, CommitWriter(p, values)); var w := s.processes[p];
      && after.locations == s.locations && after.processes == s.processes - {p}
      && (forall i | 0 <= i < |w.locations| ::
          (w.item, w.locations[i]) in after.levels && after.levels[(w.item, w.locations[i])] == values[i])
      && (forall k: (nat, nat) | k.0 != w.item || k.1 !in w.locations ::
          (k in after.levels <==> k in s.levels) && (k in s.levels ==> after.levels[k] == s.levels[k]))
  {
    var w := s.processes[p];
    assert ProcessSound(s, w);
    forall k: (nat, nat)
      ensures forall i | 0 <= i < |w.locations| && k == (w.item, w.locations[i]) ::
        k in Execute(s, CommitWriter(p, values)).levels && Execute(s, CommitWriter(p, values)).levels[k] == values[i]
      ensures (k.0 != w.item || k.1 !in w.locations) ==>
        (k in Execute(s, CommitWriter(p, values)).levels <==> k in s.levels)
        && (k in s.levels ==> Execute(s, CommitWriter(p, values)).levels[k] == s.levels[k])
    {
      LevelsWritten(s.levels, w.item, w.locations, values, k);
    }
  }

  /**
   * A switch goes on exactly if there is something to switch; to deactivate, it must also
   * have found another location active, and no stock at its target.
   */
  lemma SwitchGoesOnExactly(s: State, p: nat)
    ensures Enabled(s, ReadTarget(p)) ==> var w := s.processes[p]; var after := Execute(s, ReadTarget(p));
      (p in after.processes <==>
        && w.target in s.locations && s.locations[w.target] != w.activate
        && (!w.activate ==> 2 <= |w.actives|))
    ensures Enabled(s, CheckStock(p)) ==> var w := s.processes[p]; var after := Execute(s, CheckStock(p));
      (p in after.processes <==>
        w.activate || forall k | k in s.levels && k.1 == w.target :: s.levels[k] == 0)
  {
  }

  /** A switch that commits gives its target the state asked for, and touches nothing else. */
  lemma SwitchesExactly(s: State, p: nat)
    requires Enabled(s, CommitSwitch(p))
    ensures var after := Execute(s, CommitSwitch(p)); var w := s.processes[p];
      && after.levels == s.levels && after.processes == s.processes - {p}
      && after.locations.Keys == s.locations.Keys
      && forall l | l in s.locations :: after.locations[l] == if l == w.target then w.activate else s.locations[l]
  {
  }

  // --- what a lock is good for -------------------------------------------------------------

  predicate SameLevel(before: map<(nat, nat), int>, after: map<(nat, nat), int>, k: (nat, nat)) {
    (k in before <==> k in after) && (k in before ==> after[k] == before[k])
  }

  lemma HoldsLevel(w: Process, i: nat)
    requires w.Writer? && i < w.levels && i < |w.locations|
    ensures HoldsExclusive(w, LevelRow(w.item, w.locations[i]))
  {
  }

  lemma HoldsLocation(w: Process, i: nat)
    requires w.Writer? && i < w.locked && i < |w.locations|
    ensures HoldsShare(w, LocationRow(w.locations[i]))
  {
  }

  /** A level a writer has locked keeps its value until that writer commits: no update is ever lost. */
  lemma LockedLevelsStay(s: State, p: nat, i: nat, step: Step)
    requires Sound(s) && p in s.processes && s.processes[p].Writer?
    requires i < s.processes[p].levels && i < |s.processes[p].locations|
    requires !(step.CommitWriter? && step.process == p)
    ensures SameLevel(
      s.levels, Execute(s, step).levels, (s.processes[p].item, s.processes[p].locations[i]))
  {
    var w := s.processes[p];
    if step.CommitWriter? && Enabled(s, step) {
      var v := s.processes[step.process];
      assert ProcessSound(s, v);
      assert Compatible(w, v);
      HoldsLevel(w, i);
      forall j | 0 <= j < |v.locations|
        ensures v.item != w.item || v.locations[j] != w.locations[i]
      {
        HoldsLevel(v, j);
      }
      LevelsWritten(s.levels, v.item, v.locations, step.values, (w.item, w.locations[i]));
    }
  }

  /** A location a writer has share-locked keeps its state until that writer is done. */
  lemma LockedLocationsStay(s: State, p: nat, i: nat, step: Step)
    requires Sound(s) && p in s.processes && s.processes[p].Writer?
    requires i < s.processes[p].locked && i < |s.processes[p].locations|
    requires s.processes[p].locations[i] in s.locations
    ensures var l := s.processes[p].locations[i];
      l in Execute(s, step).locations && Execute(s, step).locations[l] == s.locations[l]
  {
    HoldsLocation(s.processes[p], i);
    if step.CommitSwitch? && step.process in s.processes {
      SwitchWaits(s, p, s.processes[p].locations[i], step.process);
    }
  }

  /** A switch about to write waits for everybody who holds its target. */
  lemma SwitchWaits(s: State, p: nat, location: nat, q: nat)
    requires p in s.processes && q in s.processes && HoldsShare(s.processes[p], LocationRow(location))
    ensures s.processes[q].Switch? && s.processes[q].phase == Updating && s.processes[q].target == location ==>
      !Free(s, q)
  {
    var w := s.processes[q];
    if w.Switch? && w.phase == Updating && w.target == location {
      assert Blocks(w, s.processes[p]);
      assert Waits(s, q, p);
    }
  }
}
