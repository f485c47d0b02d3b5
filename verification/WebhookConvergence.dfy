/**
 * Reordered and repeated webhook deliveries: when every delivery order of one
 * provider subscription's events ends at the newest snapshot.
 */
module WebhookConvergence {
  import opened Common
  import opened StateMachine
  import opened Subscriptions
  import opened Webhooks
  import opened WebhookDeliveries
  import opened StaffActions
  import opened SubscriptionSweep
  import opened BillingRuns

  /** One provider subscription: its reference, its owner, and all its events. */
  datatype Stream = Stream(
    cat: Catalogue, organisation: string, provider: Provider, reference: string, events: set<BillingEvent>)

  /** The events belong to the stream's subscription and have ids of their own. */
  ghost predicate WellFormed(s: Stream) {
    && (forall e | e in s.events ::
      && e.provider == s.provider
      && e.snapshot.subscriptionRef == s.reference
      && CustomerKey(e.provider, e.snapshot.customerRef) in s.cat.customers
      && s.cat.customers[CustomerKey(e.provider, e.snapshot.customerRef)] == s.organisation)
    && (forall a, b | a in s.events && b in s.events && a.Key() == b.Key() :: a == b)
  }

  /** The event passes every check that does not depend on what is stored. */
  predicate Applicable(cat: Catalogue, e: BillingEvent) {
    PlanOffered(cat, e) && Complete(e.snapshot)
  }

  ghost predicate Newest(s: Stream, n: BillingEvent) {
    && n in s.events
    && Applicable(s.cat, n)
    && forall e | e in s.events && Applicable(s.cat, e) && e != n :: e.version < n.version
  }

  /** The later status is a legal move, and a cancellation is taken back while its access lasts. */
  predicate MayFollow(earlier: Snapshot, later: BillingEvent) {
    && CanTransition(Some(earlier.status), later.snapshot.status)
    && (earlier.status == CANCELLED && later.snapshot.status == ACTIVE ==>
        earlier.accessEndsAt.Some? && later.occurredAt < earlier.accessEndsAt.value)
  }

  /** The newest status may follow each older snapshot directly. */
  ghost predicate NewestFollowsAll(s: Stream, n: BillingEvent) {
    forall e | e in s.events && Applicable(s.cat, e) && e != n :: MayFollow(e.snapshot, n)
  }

  /** Nothing of the stream was seen yet and its organisation has no live subscription. */
  ghost predicate Fresh(db: Db, s: Stream) {
    && Consistent(db.tables)
    && FindByReference(db.tables.subscriptions, s.provider, s.reference).None?
    && FindLive(db.tables.subscriptions, s.organisation).None?
    && forall e | e in s.events && e.Key() in db.ledger :: !Settled(db.ledger[e.Key()])
  }

  /** The stream's row shows what the event reported, as of its version. */
  predicate Holds(rows: seq<Subscription>, s: Stream, e: BillingEvent) {
    var k := FindByReference(rows, s.provider, s.reference);
    && k.Some?
    && rows[k.value].organisation == s.organisation
    && Shows(rows[k.value].state, e)
    && rows[k.value].syncedAt == Some(e.version)
  }

  predicate Converged(db: Db, s: Stream, n: BillingEvent) {
    Holds(db.tables.subscriptions, s, n)
  }

  ghost predicate IsDelivery(s: Stream, step: Step) {
    step.Deliver? && step.cat == s.cat && step.event in s.events
  }

  /**
   * Any other traffic that is not about this organisation: staff working on other
   * organisations, other customers' webhooks, and every expiry sweep.
   */
  ghost predicate IsElsewhere(s: Stream, step: Step) {
    match step
    case Staff(_, organisation, _, _) => organisation != s.organisation
    case Deliver(cat, e, _) =>
      && !(e.provider == s.provider && e.snapshot.subscriptionRef == s.reference)
      && (forall own | own in s.events :: own.Key() != e.Key())
      && (var customer := CustomerKey(e.provider, e.snapshot.customerRef);
          customer in cat.customers ==> cat.customers[customer] != s.organisation)
    case Sweep(_, _) => true
  }

  ghost predicate Traffic(s: Stream, steps: seq<Step>) {
    forall i | 0 <= i < |steps| :: IsDelivery(s, steps[i]) || IsElsewhere(s, steps[i])
  }

  ghost predicate Delivers(steps: seq<Step>, s: Stream, n: BillingEvent) {
    exists i | 0 <= i < |steps| :: IsDelivery(s, steps[i]) && steps[i].event == n
  }

  // --- what traffic elsewhere leaves alone ---------------------------------------------

  predicate About(o: Origin, s: Stream) {
    o.provider == Some(s.provider) && o.reference == Some(s.reference)
  }

  /** Rows of the organisation are untouched and none is added for it or its reference. */
  ghost predicate RowsApart(before: seq<Subscription>, after: seq<Subscription>, s: Stream) {
    && |before| <= |after|
    && (forall i | 0 <= i < |before| :: after[i].origin == before[i].origin)
    && (forall i | 0 <= i < |before| :: after[i].organisation == before[i].organisation)
    && (forall i | 0 <= i < |before| && before[i].organisation == s.organisation :: after[i] == before[i])
    && (forall i | |before| <= i < |after| :: after[i].organisation != s.organisation && !About(after[i].origin, s))
  }

  lemma RowsApartTransitive(a: seq<Subscription>, b: seq<Subscription>, c: seq<Subscription>, s: Stream)
    requires RowsApart(a, b, s) && RowsApart(b, c, s)
    ensures RowsApart(a, c, s)
  {
  }

  lemma ChangeApart(t: Tables, c: Change, s: Stream)
    requires CurrentExists(t, c) && ApplyChange(t, c).Ok?
    requires c.organisation != s.organisation
    requires c.origin.Some? ==> !About(c.origin.value, s)
    ensures RowsApart(t.subscriptions, ApplyChange(t, c).value.subscriptions, s)
  {
  }

  lemma {:induction false} ChangesApart(t: Tables, changes: seq<Change>, s: Stream)
    requires forall c | c in changes :: CurrentExists(t, c)
    requires forall c | c in changes ::
      c.organisation != s.organisation && (c.origin.Some? ==> !About(c.origin.value, s))
    requires ApplyAll(t, changes).Ok?
    ensures RowsApart(t.subscriptions, ApplyAll(t, changes).value.subscriptions, s)
    decreases |changes|
  {
    if changes != [] {
      ChangeApart(t, changes[0], s);
      var next := ApplyChange(t, changes[0]).value;
      forall c | c in changes[1..]
        ensures CurrentExists(next, c)
        ensures c.organisation != s.organisation && (c.origin.Some? ==> !About(c.origin.value, s))
      {
        assert CurrentExists(t, c);
      }
      ChangesApart(next, changes[1..], s);
      RowsApartTransitive(t.subscriptions, next.subscriptions, ApplyAll(t, changes).value.subscriptions, s);
    }
  }

  /** While the organisation has no live MANUAL row, a sweep of MANUAL rows cannot reach it. */
  lemma {:induction false} SweepApart(t: Tables, ids: seq<nat>, now: Time, s: Stream)
    requires Consistent(t)
    requires forall id | id in ids :: id < |t.subscriptions| && t.subscriptions[id].origin.source == MANUAL
    requires forall i | 0 <= i < |t.subscriptions| && t.subscriptions[i].organisation == s.organisation ::
      t.subscriptions[i].origin.source == MANUAL ==> t.subscriptions[i].state.status == EXPIRED
    ensures RowsApart(t.subscriptions, SweepRows(t, ids, now).tables.subscriptions, s)
    decreases |ids|
  {
    if ids != [] {
      assert forall id | id in ids[1..] :: id in ids;
      if Expirable(t, ids[0], now) {
        var c := Expiry(ids[0], t.subscriptions[ids[0]], now);
        assert ids[0] in ids;
        ExpirySucceeds(t, ids[0], now);
        ChangeKeepsConsistent(t, c);
        ChangeApart(t, c, s);
        var next := ApplyChange(t, c).value;
        SweepApart(next, ids[1..], now, s);
        RowsApartTransitive(t.subscriptions, next.subscriptions, SweepRows(t, ids, now).tables.subscriptions, s);
      } else {
        SweepApart(t, ids[1..], now, s);
      }
    }
  }

  // --- the invariant ------------------------------------------------------------------

  /** The stored row is some applicable event `best` of the stream, live or tombstone. */
  ghost predicate Mirrors(rows: seq<Subscription>, s: Stream, best: BillingEvent) {
    && best in s.events && Applicable(s.cat, best)
    && Holds(rows, s, best)
    && var k := FindByReference(rows, s.provider, s.reference);
    && rows[k.value].origin.source != MANUAL
    && forall i | 0 <= i < |rows| && i != k.value && rows[i].organisation == s.organisation ::
        rows[i].state.status == EXPIRED
  }

  /** Nothing applicable was seen yet, or the row mirrors `best`; the newest event, once settled, is best. */
  ghost predicate Tracks(db: Db, s: Stream, n: BillingEvent, best: Option<BillingEvent>) {
    && Consistent(db.tables)
    && (match best
        case None =>
          && FindByReference(db.tables.subscriptions, s.provider, s.reference).None?
          && FindLive(db.tables.subscriptions, s.organisation).None?
          && forall e | e in s.events && Applicable(s.cat, e) && e.Key() in db.ledger ::
              !Settled(db.ledger[e.Key()])
        case Some(b) => Mirrors(db.tables.subscriptions, s, b))
    && (n.Key() in db.ledger && Settled(db.ledger[n.Key()]) ==> best == Some(n))
  }

  /** What an event changes belongs to its customer's organisation and its own reference. */
  lemma VerdictConcerns(t: Tables, cat: Catalogue, e: BillingEvent, now: Time)
    requires Judge(t, cat, e, now).Accept?
    ensures CustomerKey(e.provider, e.snapshot.customerRef) in cat.customers
    ensures forall c | c in Judge(t, cat, e, now).changes ::
      c.organisation == cat.customers[CustomerKey(e.provider, e.snapshot.customerRef)]
      && (c.origin.Some? ==> c.origin.value == OriginOf(e))
  {
  }

  lemma ForeignDeliveryApart(db: Db, s: Stream, step: Step)
    requires Consistent(db.tables) && step.Deliver? && IsElsewhere(s, step)
    requires forall i | 0 <= i < |db.tables.subscriptions|
        && db.tables.subscriptions[i].organisation == s.organisation ::
      db.tables.subscriptions[i].origin.source == MANUAL ==> db.tables.subscriptions[i].state.status == EXPIRED
    ensures RowsApart(db.tables.subscriptions, Execute(db, step).tables.subscriptions, s)
  {
    var e := step.event;
    var received := db.(ledger := Receive(db.ledger, e.Key()));
    var v := Judge(db.tables, step.cat, e, step.now);
    hide Judge, ApplyChange, Consistent;
    if !Settled(received.ledger[e.Key()]) && v.Accept? {
      AcceptedEventsApply(db.tables, step.cat, e, step.now);
      VerdictConcerns(db.tables, step.cat, e, step.now);
      ChangesApart(db.tables, v.changes, s);
    }
  }

  lemma ElsewhereKeepsTables(db: Db, s: Stream, step: Step)
    requires Consistent(db.tables)
    requires IsElsewhere(s, step)
    requires forall i | 0 <= i < |db.tables.subscriptions|
        && db.tables.subscriptions[i].organisation == s.organisation ::
      db.tables.subscriptions[i].origin.source == MANUAL ==> db.tables.subscriptions[i].state.status == EXPIRED
    ensures RowsApart(db.tables.subscriptions, Execute(db, step).tables.subscriptions, s)
  {
    hide Judge, Decide, ApplyChange, Consistent;
    match step
    case Staff(cat, organisation, action, now) =>
      var r := Decide(db.tables, cat, organisation, action, now);
      if r.Ok? && ApplyChange(db.tables, r.value).Ok? {
        ChangeApart(db.tables, r.value, s);
      }
    case Deliver(cat, e, now) => ForeignDeliveryApart(db, s, step);
    case Sweep(ids, now) => SweepApart(db.tables, ManualOnly(db.tables.subscriptions, ids), now, s);
  }

  lemma ElsewhereKeepsLedger(db: Db, s: Stream, step: Step, e: BillingEvent)
    requires IsElsewhere(s, step) && e in s.events
    ensures var after := Execute(db, step).ledger;
      (e.Key() in after <==> e.Key() in db.ledger) && (e.Key() in db.ledger ==> after[e.Key()] == db.ledger[e.Key()])
  {
    if step.Deliver? {
      assert e.Key() != step.event.Key();
    }
  }

  lemma ElsewhereTracks(db: Db, s: Stream, n: BillingEvent, best: Option<BillingEvent>, step: Step)
    requires n in s.events
    requires Tracks(db, s, n, best) && IsElsewhere(s, step)
    ensures Tracks(Execute(db, step), s, n, best)
  {
    var rows := db.tables.subscriptions;
    var after := Execute(db, step);
    hide Execute;
    StepGrows(db, step);
    ElsewhereKeepsTables(db, s, step);
    forall e | e in s.events
      ensures (e.Key() in after.ledger <==> e.Key() in db.ledger)
      ensures e.Key() in db.ledger ==> after.ledger[e.Key()] == db.ledger[e.Key()]
    {
      ElsewhereKeepsLedger(db, s, step, e);
    }
    if best.Some? {
      var k := FindByReference(rows, s.provider, s.reference).value;
      ReferenceIsUnique(after.tables.subscriptions, k, s.provider, s.reference);
    }
  }

  // --- one delivery of the stream --------------------------------------------------------

  /** An event that is settled, or is not applied, moves nothing but its own ledger row. */
  lemma UnappliedTracks(db: Db, s: Stream, n: BillingEvent, best: Option<BillingEvent>, e: BillingEvent, now: Time)
    requires WellFormed(s) && Newest(s, n) && e in s.events
    requires Tracks(db, s, n, best)
    requires (e.Key() in db.ledger && Settled(db.ledger[e.Key()])) || Judge(db.tables, s.cat, e, now).Ignore?
    requires e == n ==> best == Some(n)
    requires best.None? ==> !Applicable(s.cat, e)
    ensures Tracks(Ingest(db, s.cat, e, now).0, s, n, best)
  {
  }

  /** An event that asks for one change leaves the changed tables and a settled ledger row. */
  lemma AppliedDelivery(db: Db, cat: Catalogue, e: BillingEvent, now: Time, organisation: string, c: Change)
    requires Consistent(db.tables)
    requires !(e.Key() in db.ledger && Settled(db.ledger[e.Key()]))
    requires CurrentExists(db.tables, c) && Judge(db.tables, cat, e, now) == Accept(organisation, [c])
    ensures ApplyChange(db.tables, c).Ok?
    ensures Ingest(db, cat, e, now).0 == Db(
      ApplyChange(db.tables, c).value,
      Settle(Receive(db.ledger, e.Key()), e.Key(), PROCESSED, None, Some(organisation)))
  {
    AcceptedEventsApply(db.tables, cat, e, now);
    ApplyOne(db.tables, c);
  }

  lemma ObservedMirrors(t: Tables, s: Stream, e: BillingEvent, now: Time)
    requires Consistent(t) && WellFormed(s) && e in s.events && Applicable(s.cat, e)
    requires FindByReference(t.subscriptions, s.provider, s.reference).None?
    requires FindLive(t.subscriptions, s.organisation).None?
    ensures var c := Observe(s.organisation, e, now);
      && Judge(t, s.cat, e, now) == Accept(s.organisation, [c])
      && (ApplyChange(t, c).Ok? ==> Mirrors(ApplyChange(t, c).value.subscriptions, s, e))
  {
    var c := Observe(s.organisation, e, now);
    if ApplyChange(t, c).Ok? {
      ReferenceIsUnique(ApplyChange(t, c).value.subscriptions, |t.subscriptions|, s.provider, s.reference);
    }
  }

  lemma FirstObservationTracks(db: Db, s: Stream, n: BillingEvent, e: BillingEvent, now: Time)
    requires WellFormed(s) && Newest(s, n) && e in s.events && Applicable(s.cat, e)
    requires Tracks(db, s, n, None)
    ensures Tracks(Ingest(db, s.cat, e, now).0, s, n, Some(e))
  {
    var c := Observe(s.organisation, e, now);
    ObservedMirrors(db.tables, s, e, now);
    AppliedDelivery(db, s.cat, e, now, s.organisation, c);
    ChangeKeepsConsistent(db.tables, c);
  }

  lemma SynchronisedMirrors(t: Tables, s: Stream, best: BillingEvent, e: BillingEvent, now: Time)
    requires Consistent(t) && WellFormed(s) && e in s.events && Applicable(s.cat, e)
    requires Mirrors(t.subscriptions, s, best)
    requires Judge(t, s.cat, e, now).Accept?
    ensures var c := Synchronise(
        s.organisation, FindByReference(t.subscriptions, s.provider, s.reference).value, e, now);
      && Judge(t, s.cat, e, now) == Accept(s.organisation, [c])
      && (ApplyChange(t, c).Ok? ==> Mirrors(ApplyChange(t, c).value.subscriptions, s, e))
  {
    var k := FindByReference(t.subscriptions, s.provider, s.reference).value;
    var c := Synchronise(s.organisation, k, e, now);
    if ApplyChange(t, c).Ok? {
      ReferenceIsUnique(ApplyChange(t, c).value.subscriptions, k, s.provider, s.reference);
    }
  }

  lemma SynchronisedTracks(
    db: Db, s: Stream, n: BillingEvent, best: BillingEvent, e: BillingEvent, now: Time)
    requires WellFormed(s) && Newest(s, n) && e in s.events && Applicable(s.cat, e)
    requires Tracks(db, s, n, Some(best))
    requires !(e.Key() in db.ledger && Settled(db.ledger[e.Key()]))
    requires Judge(db.tables, s.cat, e, now).Accept?
    requires best == n ==> e == n
    ensures Tracks(Ingest(db, s.cat, e, now).0, s, n, Some(e))
  {
    var k := FindByReference(db.tables.subscriptions, s.provider, s.reference).value;
    var c := Synchronise(s.organisation, k, e, now);
    SynchronisedMirrors(db.tables, s, best, e, now);
    AppliedDelivery(db, s.cat, e, now, s.organisation, c);
    ChangeKeepsConsistent(db.tables, c);
  }

  /** The row never leaves the newest snapshot, and the newest event always takes it. */
  lemma DeliveryTracks(
    db: Db, s: Stream, n: BillingEvent, best: Option<BillingEvent>, e: BillingEvent, now: Time)
    returns (next: Option<BillingEvent>)
    requires WellFormed(s) && Newest(s, n) && NewestFollowsAll(s, n) && e in s.events
    requires Tracks(db, s, n, best)
    ensures Tracks(Ingest(db, s.cat, e, now).0, s, n, next)
    ensures e == n || best == Some(n) ==> next == Some(n)
  {
    next := best;
    if e.Key() in db.ledger && Settled(db.ledger[e.Key()]) {
      UnappliedTracks(db, s, n, best, e, now);
    } else if best.None? && Applicable(s.cat, e) {
      FirstObservationTracks(db, s, n, e, now);
      next := Some(e);
    } else if Judge(db.tables, s.cat, e, now).Ignore? {
      UnappliedTracks(db, s, n, best, e, now);
    } else {
      SynchronisedTracks(db, s, n, best.value, e, now);
      next := Some(e);
    }
  }

  // --- every run of traffic -------------------------------------------------------------

  lemma {:induction false} TrafficTracks(
    db: Db, s: Stream, n: BillingEvent, best: Option<BillingEvent>, steps: seq<Step>)
    returns (last: Option<BillingEvent>)
    requires WellFormed(s) && Newest(s, n) && NewestFollowsAll(s, n)
    requires Tracks(db, s, n, best) && Traffic(s, steps)
    ensures Tracks(Run(db, steps), s, n, last)
    ensures best == Some(n) || Delivers(steps, s, n) ==> last == Some(n)
    decreases |steps|
  {
    if steps == [] {
      last := best;
    } else {
      var step := steps[0];
      var next := best;
      if IsDelivery(s, step) {
        next := DeliveryTracks(db, s, n, best, step.event, step.now);
      } else {
        ElsewhereTracks(db, s, n, best, step);
      }
      hide Execute, Tracks, Newest, NewestFollowsAll;
      assert Traffic(s, steps[1..]);
      last := TrafficTracks(Execute(db, step), s, n, next, steps[1..]);
      if Delivers(steps, s, n) && !(IsDelivery(s, step) && step.event == n) {
        var i :| 0 <= i < |steps| && IsDelivery(s, steps[i]) && steps[i].event == n;
        assert steps[1..][i - 1] == steps[i];
      }
    }
  }

  /** Whatever the order, repetition and unrelated traffic, the newest snapshot wins. */
  ghost predicate AlwaysConverges(db: Db, s: Stream, n: BillingEvent) {
    forall steps | Traffic(s, steps) && Delivers(steps, s, n) :: Converged(Run(db, steps), s, n)
  }

  lemma FollowsAllConverges(db: Db, s: Stream, n: BillingEvent, steps: seq<Step>)
    requires WellFormed(s) && Newest(s, n) && Fresh(db, s) && NewestFollowsAll(s, n)
    requires Traffic(s, steps) && Delivers(steps, s, n)
    ensures Converged(Run(db, steps), s, n)
  {
    var last := TrafficTracks(db, s, n, None, steps);
  }

  /**
   * What the organisation is then granted: the newest snapshot's plan, at exactly the
   * times the newest snapshot gives access.
   */
  lemma ConvergedEntitlement(db: Db, s: Stream, n: BillingEvent, steps: seq<Step>, at: Time)
    requires WellFormed(s) && Newest(s, n) && Fresh(db, s) && NewestFollowsAll(s, n)
    requires Traffic(s, steps) && Delivers(steps, s, n)
    ensures EntitlingPlan(Run(db, steps).tables.subscriptions, s.organisation, at)
      == if GrantsAt(n.snapshot, at) then Some(n.snapshot.planKey) else None
  {
    var last := TrafficTracks(db, s, n, None, steps);
    MirroredPlan(Run(db, steps).tables.subscriptions, s, n, at);
  }

  lemma MirroredPlan(rows: seq<Subscription>, s: Stream, best: BillingEvent, at: Time)
    requires Mirrors(rows, s, best) && OneLivePerOrganisation(rows)
    ensures EntitlingPlan(rows, s.organisation, at)
      == if GrantsAt(best.snapshot, at) then Some(best.snapshot.planKey) else None
  {
    var k := FindByReference(rows, s.provider, s.reference).value;
    ShownGrants(rows[k].state, best, at);
    if best.snapshot.status != EXPIRED {
      LiveIsUnique(rows, k);
    }
  }

  /** If the newest snapshot may not follow `e`, delivering `e` first keeps the row at `e`. */
  lemma BlockedDelivery(db: Db, s: Stream, n: BillingEvent, e: BillingEvent)
    requires WellFormed(s) && Newest(s, n) && Fresh(db, s)
    requires e in s.events && Applicable(s.cat, e) && e != n
    requires !MayFollow(e.snapshot, n)
    ensures var steps := [Deliver(s.cat, e, 0), Deliver(s.cat, n, 0)];
      && Traffic(s, steps) && Delivers(steps, s, n)
      && Converged(Run(db, steps), s, e)
      && !Converged(Run(db, steps), s, n)
  {
    var first, second := Deliver(s.cat, e, 0), Deliver(s.cat, n, 0);
    var steps := [first, second];
    assert IsDelivery(s, steps[0]) && IsDelivery(s, steps[1]);
    assert steps[1..] == [second] && [second][1..] == [];
    FirstObservationTracks(db, s, n, e, 0);
    var mid := Execute(db, first);
    assert n.Key() in mid.ledger ==> !Settled(mid.ledger[n.Key()]);
    assert Judge(mid.tables, s.cat, n, 0).Ignore?;
    assert Run(db, steps) == Run(mid, [second]) == Execute(mid, second);
  }

  /**
   * Deliveries converge in every order, with any repetition and among any traffic
   * elsewhere, exactly when the newest snapshot may directly follow each older one.
   */
  lemma ConvergenceIffNewestFollowsAll(db: Db, s: Stream, n: BillingEvent)
    requires WellFormed(s) && Newest(s, n) && Fresh(db, s)
    ensures AlwaysConverges(db, s, n) <==> NewestFollowsAll(s, n)
  {
    if NewestFollowsAll(s, n) {
      forall steps | Traffic(s, steps) && Delivers(steps, s, n)
        ensures Converged(Run(db, steps), s, n)
      {
        FollowsAllConverges(db, s, n, steps);
      }
    } else {
      var e :| e in s.events && Applicable(s.cat, e) && e != n && !MayFollow(e.snapshot, n);
      BlockedDelivery(db, s, n, e);
      var steps := [Deliver(s.cat, e, 0), Deliver(s.cat, n, 0)];
      assert Traffic(s, steps) && Delivers(steps, s, n);
    }
  }

  /**
   * CANCELLED may not become PAST_DUE, so a cancellation that was undone before a
   * payment failed breaks convergence: some order leaves the row CANCELLED.
   */
  lemma CancelledThenPastDueDiverges(db: Db, s: Stream, n: BillingEvent, e: BillingEvent)
    requires WellFormed(s) && Newest(s, n) && Fresh(db, s)
    requires e in s.events && Applicable(s.cat, e)
    requires e.snapshot.status == CANCELLED && n.snapshot.status == PAST_DUE
    ensures !AlwaysConverges(db, s, n)
  {
    ConvergenceIffNewestFollowsAll(db, s, n);
    assert !CanTransition(Some(CANCELLED), PAST_DUE);
  }

  // --- a concrete stream --------------------------------------------------------------

  function Report(id: string, status: Status, version: Time): BillingEvent {
    BillingEvent(MOCK_PROVIDER, id, "renewed", version,
      Snapshot("sub_1", "cus_1", "business", Some(MONTH), status, 0, None, None, None, None,
               Some(1000), None, None, Some(1000), None),
      version)
  }

  const SHOP := Catalogue(
    {"org_1"}, map["business" := Plan(PLAN_ACTIVE, 14)], map[CustomerKey(MOCK_PROVIDER, "cus_1") := "org_1"])

  /** Cancelled, reactivated, then past due: each status may follow the one before it. */
  const UNDONE_CANCELLATION := Stream(SHOP, "org_1", MOCK_PROVIDER, "sub_1",
    {Report("evt_1", CANCELLED, 1), Report("evt_2", ACTIVE, 2), Report("evt_3", PAST_DUE, 3)})

  lemma UndoneCancellationDiverges()
    ensures WellFormed(UNDONE_CANCELLATION) && Newest(UNDONE_CANCELLATION, Report("evt_3", PAST_DUE, 3))
    ensures Fresh(EMPTY, UNDONE_CANCELLATION)
    ensures CanTransition(Some(CANCELLED), ACTIVE) && CanTransition(Some(ACTIVE), PAST_DUE)
    ensures !AlwaysConverges(EMPTY, UNDONE_CANCELLATION, Report("evt_3", PAST_DUE, 3))
  {
    var s := UNDONE_CANCELLATION;
    var first, second, third := Report("evt_1", CANCELLED, 1), Report("evt_2", ACTIVE, 2), Report("evt_3", PAST_DUE, 3);
    assert first.eventId[4] == '1' && second.eventId[4] == '2' && third.eventId[4] == '3';
    assert Applicable(SHOP, first) && Applicable(SHOP, second) && Applicable(SHOP, third);
    CancelledThenPastDueDiverges(EMPTY, s, third, first);
  }
}
