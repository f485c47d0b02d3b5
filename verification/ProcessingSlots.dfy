/** The counting semaphore around image processing, where a newcomer may take a freed slot first. */
module ProcessingSlots {
  import opened Common

  const PROCESSING_SLOTS := 2

  /**
   * `processing` and `waiting` are the module's own variables. `woken` tasks had
   * their promise resolved but have not run again yet; `running` tasks hold a slot.
   */
  datatype Slots = Slots(processing: nat, waiting: seq<nat>, woken: set<nat>, running: set<nat>)

  const EMPTY := Slots(0, [], {}, {})

  /** A task arrives, a woken task runs again and tests the counter, or a running task finishes. */
  datatype Step = Arrive(task: nat) | Resume(task: nat) | Finish(task: nat)

  predicate Enabled(s: Slots, step: Step) {
    match step
    case Arrive(t) => t !in s.waiting && t !in s.woken && t !in s.running
    case Resume(t) => t in s.woken
    case Finish(t) => t in s.running && 0 < s.processing
  }

  /** The test of the while loop: take a slot, or queue (again, at the back). */
  function Enter(s: Slots, t: nat): Slots {
    if PROCESSING_SLOTS <= s.processing then s.(waiting := s.waiting + [t])
    else s.(processing := s.processing + 1, running := s.running + {t})
  }

  function Execute(s: Slots, step: Step): Slots
    requires Enabled(s, step)
  {
    match step
    case Arrive(t) => Enter(s, t)
    case Resume(t) => Enter(s.(woken := s.woken - {t}), t)
    case Finish(t) =>
      var freed := s.(processing := s.processing - 1, running := s.running - {t});
      if s.waiting == [] then freed
      else freed.(waiting := s.waiting[1..], woken := s.woken + {s.waiting[0]})
  }

  predicate Allowed(s: Slots, steps: seq<Step>)
    decreases |steps|
  {
    steps == [] || (Enabled(s, steps[0]) && Allowed(Execute(s, steps[0]), steps[1..]))
  }

  function Run(s: Slots, steps: seq<Step>): Slots
    requires Allowed(s, steps)
    decreases |steps|
  {
    if steps == [] then s else Run(Execute(s, steps[0]), steps[1..])
  }

  class Semaphore {
    var processing: nat
    var waiting: seq<nat>
    ghost var woken: set<nat>
    ghost var running: set<nat>

    ghost function State(): Slots
      reads this
    {
      Slots(processing, waiting, woken, running)
    }

    constructor ()
      ensures State() == EMPTY
    {
      processing, waiting, woken, running := 0, [], {}, {};
    }

    /** One turn of the loop that waits for a slot; false means the task queued. */
    method TryEnter(t: nat) returns (entered: bool)
      modifies this
      ensures State() == Enter(old(State()).(woken := old(woken) - {t}), t)
      ensures entered <==> old(processing) < PROCESSING_SLOTS
    {
      woken := woken - {t};
      if PROCESSING_SLOTS <= processing {
        waiting := waiting + [t];
        return false;
      }
      processing := processing + 1;
      running := running + {t};
      return true;
    }

    /** Gives the slot back and wakes the first in the queue. */
    method Leave(t: nat)
      requires Enabled(State(), Finish(t))
      modifies this
      ensures State() == Execute(old(State()), Finish(t))
    {
      processing := processing - 1;
      running := running - {t};
      if waiting != [] {
        woken := woken + {waiting[0]};
        waiting := waiting[1..];
      }
    }
  }

  // --- invariant --------------------------------------------------------------------

  /** Every task is in one place, the counter counts the running, and no wake-up was lost. */
  ghost predicate Sound(s: Slots) {
    && s.processing == |s.running| <= PROCESSING_SLOTS
    && NoDuplicates(s.waiting)
    && (forall t | t in s.waiting :: t !in s.woken && t !in s.running)
    && s.woken !! s.running
    && (s.waiting != [] ==> PROCESSING_SLOTS <= |s.running| + |s.woken|)
  }

  lemma SizeWithout(s: set<nat>, t: nat)
    requires t in s
    ensures |s - {t}| == |s| - 1
  {
  }

  lemma SizeWith(s: set<nat>, t: nat)
    requires t !in s
    ensures |s + {t}| == |s| + 1
  {
  }

  lemma EnterSound(s: Slots, t: nat)
    requires s.processing == |s.running| <= PROCESSING_SLOTS
    requires NoDuplicates(s.waiting) && s.woken !! s.running
    requires forall u | u in s.waiting :: u !in s.woken && u !in s.running
    requires t !in s.waiting && t !in s.woken && t !in s.running
    requires s.waiting != [] ==> PROCESSING_SLOTS - 1 <= |s.running| + |s.woken|
    ensures Sound(Enter(s, t))
  {
    SizeWith(s.running, t);
  }

  lemma FinishSound(s: Slots, t: nat)
    requires Sound(s) && Enabled(s, Finish(t))
    ensures Sound(Execute(s, Finish(t)))
  {
    SizeWithout(s.running, t);
    if s.waiting != [] {
      assert s.waiting[0] in s.waiting;
      assert forall u | u in s.waiting[1..] :: u in s.waiting;
      SizeWith(s.woken, s.waiting[0]);
    }
  }

  lemma StepSound(s: Slots, step: Step)
    requires Sound(s) && Enabled(s, step)
    ensures Sound(Execute(s, step))
  {
    match step
    case Arrive(t) => EnterSound(s, t);
    case Resume(t) =>
      SizeWithout(s.woken, t);
      EnterSound(s.(woken := s.woken - {t}), t);
    case Finish(t) => FinishSound(s, t);
  }

  lemma {:induction false} RunSound(s: Slots, steps: seq<Step>)
    requires Sound(s) && Allowed(s, steps)
    ensures Sound(Run(s, steps))
    decreases |steps|
  {
    if steps != [] {
      StepSound(s, steps[0]);
      RunSound(Execute(s, steps[0]), steps[1..]);
    }
  }

  /** In every interleaving at most two tasks process at once. */
  lemma AtMostTwoRun(steps: seq<Step>)
    requires Allowed(EMPTY, steps)
    ensures |Run(EMPTY, steps).running| <= PROCESSING_SLOTS
  {
    RunSound(EMPTY, steps);
  }

  /** Whenever someone waits, running and woken tasks together number at least two. */
  lemma NoWakeUpIsLost(steps: seq<Step>)
    requires Allowed(EMPTY, steps)
    ensures var s := Run(EMPTY, steps);
      s.waiting != [] ==> PROCESSING_SLOTS <= |s.running| + |s.woken|
  {
    RunSound(EMPTY, steps);
  }

  // --- who goes next --------------------------------------------------------------------

  /** Arriving or running again takes a free slot, or the last place in the queue when there is none. */
  lemma EntersExactly(s: Slots, step: Step)
    requires Sound(s) && Enabled(s, step) && !step.Finish?
    ensures var after := Execute(s, step);
      && after.woken == s.woken - {step.task}
      && (|s.running| < 2 ==> after.running == s.running + {step.task} && after.waiting == s.waiting)
      && (2 <= |s.running| ==> after.running == s.running && after.waiting == s.waiting + [step.task])
  {
  }

  /** Finishing frees the slot and wakes exactly the task that queued first. */
  lemma FinishesExactly(s: Slots, task: nat)
    requires Sound(s) && Enabled(s, Finish(task))
    ensures var after := Execute(s, Finish(task));
      && after.running == s.running - {task}
      && after.processing == s.processing - 1
      && (s.waiting == [] ==> after.waiting == [] && after.woken == s.woken)
      && (s.waiting != [] ==> after.woken == s.woken + {s.waiting[0]} && s.waiting == [s.waiting[0]] + after.waiting)
  {
  }

  /**
   * Over any run the queue is served first come, first served: what waits at the end is
   * what waited at the start followed by those who queued since, less those at the front.
   */
  lemma {:induction false} QueueIsFair(s: Slots, steps: seq<Step>) returns (queued: seq<nat>, served: nat)
    requires Allowed(s, steps)
    ensures served <= |s.waiting + queued| && Run(s, steps).waiting == (s.waiting + queued)[served..]
    ensures |queued| + served <= |steps|
    decreases |steps|
  {
    if steps == [] {
      queued, served := [], 0;
      assert (s.waiting + [])[0..] == s.waiting;
    } else {
      var next := Execute(s, steps[0]);
      queued, served := QueueIsFair(next, steps[1..]);
      if next.waiting == s.waiting {
      } else if steps[0].Finish? {
        assert s.waiting + queued == [s.waiting[0]] + (next.waiting + queued);
        served := served + 1;
      } else {
        assert next.waiting + queued == s.waiting + ([steps[0].task] + queued);
        queued := [steps[0].task] + queued;
      }
    }
  }

  // --- everyone gets through ----------------------------------------------------------

  /** What is left to happen to the tasks present. */
  function Remaining(s: Slots): nat {
    2 * |s.waiting| + 3 * |s.woken| + 2 * |s.running|
  }

  lemma StepProgresses(s: Slots, step: Step)
    requires Sound(s) && Enabled(s, step) && !step.Arrive?
    ensures Remaining(Execute(s, step)) < Remaining(s)
  {
    match step
    case Resume(t) =>
      SizeWithout(s.woken, t);
      SizeWith(s.running, t);
    case Finish(t) =>
      SizeWithout(s.running, t);
      if s.waiting != [] {
        assert s.waiting[0] in s.waiting;
        SizeWith(s.woken, s.waiting[0]);
      }
  }

  /**
   * Without newcomers every interleaving ends, and it can only end when every
   * task present has had its turn: nobody is left waiting.
   */
  lemma {:induction false} EveryoneGetsThrough(s: Slots, steps: seq<Step>)
    requires Sound(s) && Allowed(s, steps)
    requires forall i | 0 <= i < |steps| :: !steps[i].Arrive?
    ensures |steps| <= Remaining(s)
    ensures var after := Run(s, steps);
      (forall step: Step | !step.Arrive? :: !Enabled(after, step)) ==>
      after.waiting == [] && after.woken == {} && after.running == {}
    decreases |steps|
  {
    if steps == [] {
      if s.woken != {} {
        var t :| t in s.woken;
        assert Enabled(s, Resume(t));
      } else if s.running != {} {
        var t :| t in s.running;
        assert s.processing != 0;
        assert Enabled(s, Finish(t));
      }
    } else {
      StepSound(s, steps[0]);
      StepProgresses(s, steps[0]);
      EveryoneGetsThrough(Execute(s, steps[0]), steps[1..]);
    }
  }
}
