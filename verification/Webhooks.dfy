/**
 * The billing webhook pipeline, after a delivery's signature and payload were
 * accepted: ledger, checks, and the changes an event asks for.
 */
module Webhooks {
  import opened Common
  import opened StateMachine
  import opened Subscriptions

  /** A provider's view of a subscription. */
  datatype Snapshot = Snapshot(
    subscriptionRef: string,
    customerRef: string,
    planKey: string,
    interval: Option<Interval>,
    status: Status,
    startedAt: Time,
    trialStartsAt: Option<Time>,
    trialEndsAt: Option<Time>,
    currentPeriodStart: Option<Time>,
    currentPeriodEnd: Option<Time>,
    accessEndsAt: Option<Time>,
    cancelledAt: Option<Time>,
    pastDueSince: Option<Time>,
    graceEndsAt: Option<Time>,
    endedAt: Option<Time>)

  datatype BillingEvent = BillingEvent(
    provider: Provider, eventId: string, kind: string, occurredAt: Time, snapshot: Snapshot, version: Time)
  {
    function Key(): LedgerKey {
      LedgerKey(provider, eventId)
    }
  }

  datatype LedgerKey = LedgerKey(provider: Provider, eventId: string)

  datatype LedgerStatus = RECEIVED | PROCESSED | IGNORED | FAILED

  datatype LedgerRow = LedgerRow(
    status: LedgerStatus, outcome: Option<IgnoreReason>, organisation: Option<string>, attempts: nat)

  datatype IgnoreReason =
    | UnknownSubscription
    | CustomerMismatch
    | Stale
    | UnknownPlan
    | ArchivedPlan
    | InvalidState
    | IllegalMove

  datatype Outcome = Processed | Duplicate | Ignored(reason: IgnoreReason) | Failed(error: Error)

  datatype PlanStatus = PLAN_ACTIVE | PLAN_LEGACY | PLAN_ARCHIVED

  datatype Plan = Plan(status: PlanStatus, trialDays: int)

  datatype CustomerKey = CustomerKey(provider: Provider, reference: string)

  /** Reference data the billing code only reads. */
  datatype Catalogue = Catalogue(
    organisations: set<string>, plans: map<string, Plan>, customers: map<CustomerKey, string>)

  datatype Db = Db(tables: Tables, ledger: map<LedgerKey, LedgerRow>)

  function OrElse(value: Option<Time>, default: Time): Option<Time> {
    if value.Some? then value else Some(default)
  }

  /** Maps a provider snapshot onto the subscription columns. */
  function StateFromSnapshot(e: BillingEvent): SubscriptionState {
    var s := e.snapshot;
    SubscriptionState(
      planKey := s.planKey,
      status := s.status,
      billingInterval := s.interval,
      startedAt := s.startedAt,
      trialStartsAt := s.trialStartsAt,
      trialEndsAt := s.trialEndsAt,
      currentPeriodStart := s.currentPeriodStart,
      currentPeriodEnd := s.currentPeriodEnd,
      expiresAt := if s.status == CANCELLED then s.accessEndsAt else None,
      cancelledAt := if s.status == CANCELLED then OrElse(s.cancelledAt, e.occurredAt) else None,
      pastDueSince := if s.status == PAST_DUE then OrElse(s.pastDueSince, e.occurredAt) else None,
      graceEndsAt := if s.status == PAST_DUE then s.graceEndsAt else None,
      endedAt := if s.status == EXPIRED then OrElse(s.endedAt, e.occurredAt) else None)
  }

  function SourceOf(provider: Provider): Source {
    if provider == MOCK_PROVIDER then MOCK else PAYMENT_PROVIDER
  }

  function OriginOf(e: BillingEvent): Origin {
    Origin(SourceOf(e.provider), Some(e.provider), Some(e.snapshot.subscriptionRef))
  }

  /** The version a live subscription must be older than to be superseded. */
  function LiveVersion(live: Subscription): Time {
    if live.syncedAt.Some? then live.syncedAt.value else live.updatedAt
  }

  function Supersede(organisation: string, id: nat, live: Subscription, e: BillingEvent, now: Time): Change {
    Change(organisation, Some(id), None, live.state.(status := EXPIRED, endedAt := Some(e.occurredAt)),
           None, false, "superseded", Some(e.eventId), e.occurredAt, now)
  }

  function Observe(organisation: string, e: BillingEvent, now: Time): Change {
    Change(organisation, None, Some(OriginOf(e)), StateFromSnapshot(e),
           Some(e.version), true, e.kind, Some(e.eventId), e.occurredAt, now)
  }

  function Synchronise(organisation: string, id: nat, e: BillingEvent, now: Time): Change {
    Change(organisation, Some(id), None, StateFromSnapshot(e),
           Some(e.version), false, e.kind, Some(e.eventId), e.occurredAt, now)
  }

  /** What an event asks for once every check has been made. */
  datatype Verdict =
    | Ignore(reason: IgnoreReason, owner: Option<string>)
    | Accept(organisation: string, changes: seq<Change>)

  function Judge(t: Tables, cat: Catalogue, e: BillingEvent, now: Time): (v: Verdict)
    ensures v.Accept? ==> forall c | c in v.changes :: CurrentExists(t, c)
  {
    var customer := CustomerKey(e.provider, e.snapshot.customerRef);
    if customer !in cat.customers then Ignore(UnknownSubscription, None)
    else
      var organisation := cat.customers[customer];
      var existing := FindByReference(t.subscriptions, e.provider, e.snapshot.subscriptionRef);
      if existing.Some? && t.subscriptions[existing.value].organisation != organisation then
        Ignore(CustomerMismatch, Some(organisation))
      else if existing.Some? && t.subscriptions[existing.value].syncedAt.Some?
        && e.version < t.subscriptions[existing.value].syncedAt.value then
        Ignore(Stale, Some(organisation))
      else if e.snapshot.planKey !in cat.plans then Ignore(UnknownPlan, Some(organisation))
      else if cat.plans[e.snapshot.planKey].status == PLAN_ARCHIVED then Ignore(ArchivedPlan, Some(organisation))
      else if !StateValid(StateFromSnapshot(e)) then Ignore(InvalidState, Some(organisation))
      else if existing.Some? then
        if !TransitionAllowed(
            Some(t.subscriptions[existing.value].state.Terms()), e.snapshot.status, e.occurredAt, false)
        then Ignore(IllegalMove, Some(organisation))
        else Accept(organisation, [Synchronise(organisation, existing.value, e, now)])
      else
        var live := FindLive(t.subscriptions, organisation);
        if e.snapshot.status == EXPIRED || live.None? then
          Accept(organisation, [Observe(organisation, e, now)])
        else if e.version <= LiveVersion(t.subscriptions[live.value]) then Ignore(Stale, Some(organisation))
        else
          Accept(organisation, [
            Supersede(organisation, live.value, t.subscriptions[live.value], e, now),
            Observe(organisation, e, now)])
  }

  /** Changes made one after the other in one transaction: all of them or none. */
  function ApplyAll(t: Tables, changes: seq<Change>): Result<Tables, Error>
    requires forall c | c in changes :: CurrentExists(t, c)
    decreases |changes|
  {
    if changes == [] then Ok(t)
    else
      match ApplyChange(t, changes[0])
      case Err(error) => Err(error)
      case Ok(next) =>
        assert |t.subscriptions| <= |next.subscriptions|;
        assert forall i | 0 <= i < |changes[1..]| :: changes[1..][i] == changes[i + 1] && CurrentExists(t, changes[i + 1]);
        ApplyAll(next, changes[1..])
  }

  lemma ApplyOne(t: Tables, c: Change)
    requires CurrentExists(t, c)
    ensures ApplyAll(t, [c]) == ApplyChange(t, c)
  {
    match ApplyChange(t, c)
    case Err(error) =>
    case Ok(next) =>
      assert [c][1..] == [];
      assert ApplyAll(next, []) == Ok(next);
  }

  /** Two changes in a row: the second starts from the first one's tables. */
  lemma ApplyTwo(t: Tables, first: Change, second: Change)
    requires CurrentExists(t, first) && CurrentExists(t, second)
    ensures ApplyChange(t, first).Err? ==> ApplyAll(t, [first, second]) == ApplyChange(t, first)
    ensures ApplyChange(t, first).Ok? ==>
      ApplyAll(t, [first, second]) == ApplyChange(ApplyChange(t, first).value, second)
  {
    if ApplyChange(t, first).Ok? {
      assert [first, second][1..] == [second];
      ApplyOne(ApplyChange(t, first).value, second);
    }
  }

  predicate Settled(row: LedgerRow) {
    row.status == PROCESSED || row.status == IGNORED
  }

  function Receive(ledger: map<LedgerKey, LedgerRow>, key: LedgerKey): map<LedgerKey, LedgerRow> {
    if key in ledger then ledger else ledger[key := LedgerRow(RECEIVED, None, None, 0)]
  }

  function Settle(
    ledger: map<LedgerKey, LedgerRow>, key: LedgerKey, status: LedgerStatus,
    outcome: Option<IgnoreReason>, organisation: Option<string>): map<LedgerKey, LedgerRow>
    requires key in ledger
  {
    ledger[key := LedgerRow(status, outcome, organisation, ledger[key].attempts + 1)]
  }

  /** One transaction over a received event. An error means nothing was written. */
  function Process(db: Db, cat: Catalogue, e: BillingEvent, now: Time): Result<(Db, Outcome), Error>
    requires e.Key() in db.ledger
  {
    if Settled(db.ledger[e.Key()]) then Ok((db, Duplicate))
    else
      match Judge(db.tables, cat, e, now)
      case Ignore(reason, owner) =>
        Ok((db.(ledger := Settle(db.ledger, e.Key(), IGNORED, Some(reason), owner)), Ignored(reason)))
      case Accept(organisation, changes) =>
        match ApplyAll(db.tables, changes)
        case Err(error) => Err(error)
        case Ok(tables) =>
          Ok((Db(tables, Settle(db.ledger, e.Key(), PROCESSED, None, Some(organisation))), Processed))
  }

  /** A delivery: record it, process it, and record a failure for the provider to retry. */
  function Ingest(db: Db, cat: Catalogue, e: BillingEvent, now: Time): (Db, Outcome) {
    var received := db.(ledger := Receive(db.ledger, e.Key()));
    match Process(received, cat, e, now)
    case Ok((after, outcome)) => (after, outcome)
    case Err(error) =>
      var row := received.ledger[e.Key()];
      (received.(ledger := received.ledger[e.Key() := row.(status := FAILED, attempts := row.attempts + 1)]),
       Failed(error))
  }

  // --- the pipeline's promises -----------------------------------------------------

  lemma SynchroniseSucceeds(t: Tables, cat: Catalogue, e: BillingEvent, now: Time, id: nat)
    requires Consistent(t)
    requires Judge(t, cat, e, now).Accept?
    requires FindByReference(t.subscriptions, e.provider, e.snapshot.subscriptionRef) == Some(id)
    ensures ApplyAll(t, Judge(t, cat, e, now).changes).Ok?
  {
    var v := Judge(t, cat, e, now);
    assert v.changes == [Synchronise(v.organisation, id, e, now)];
    UpdateNeverViolates(t, v.changes[0]);
  }

  lemma ObserveSucceeds(t: Tables, organisation: string, e: BillingEvent, now: Time)
    requires Consistent(t)
    requires FindByReference(t.subscriptions, e.provider, e.snapshot.subscriptionRef).None?
    requires e.snapshot.status == EXPIRED || FindLive(t.subscriptions, organisation).None?
    requires StateValid(StateFromSnapshot(e))
    ensures ApplyChange(t, Observe(organisation, e, now)).Ok?
  {
    var c := Observe(organisation, e, now);
    CreateViolatesOnlyWhenTaken(
      t.subscriptions, Subscription(organisation, OriginOf(e), c.next, c.syncedAt, now));
  }

  /** Ending the live row leaves the organisation without one and touches no reference. */
  lemma SupersedeFrees(t: Tables, organisation: string, id: nat, e: BillingEvent, now: Time)
    requires Consistent(t)
    requires FindLive(t.subscriptions, organisation) == Some(id)
    ensures var c := Supersede(organisation, id, t.subscriptions[id], e, now);
      && ApplyChange(t, c).Ok?
      && Consistent(ApplyChange(t, c).value)
      && FindLive(ApplyChange(t, c).value.subscriptions, organisation).None?
  {
    var c := Supersede(organisation, id, t.subscriptions[id], e, now);
    hide ApplyChange, Consistent;
    UpdateNeverViolates(t, c);
    ChangeKeepsConsistent(t, c);
    LiveEnded(t, organisation, id, c);
  }

  lemma LiveEnded(t: Tables, organisation: string, id: nat, c: Change)
    requires Consistent(t) && CurrentExists(t, c) && ApplyChange(t, c).Ok?
    requires FindLive(t.subscriptions, organisation) == Some(id)
    requires c.current == Some(id) && c.next.status == EXPIRED
    ensures FindLive(ApplyChange(t, c).value.subscriptions, organisation).None?
  {
  }

  lemma ReferenceStaysFree(t: Tables, c: Change, provider: Provider, reference: string)
    requires CurrentExists(t, c) && c.current.Some? && ApplyChange(t, c).Ok?
    requires FindByReference(t.subscriptions, provider, reference).None?
    ensures FindByReference(ApplyChange(t, c).value.subscriptions, provider, reference).None?
  {
  }

  lemma SupersedeThenObserveSucceeds(t: Tables, organisation: string, id: nat, e: BillingEvent, now: Time)
    requires Consistent(t)
    requires FindLive(t.subscriptions, organisation) == Some(id)
    requires FindByReference(t.subscriptions, e.provider, e.snapshot.subscriptionRef).None?
    requires StateValid(StateFromSnapshot(e))
    ensures var changes := [Supersede(organisation, id, t.subscriptions[id], e, now), Observe(organisation, e, now)];
      ApplyAll(t, changes).Ok?
  {
    var first := Supersede(organisation, id, t.subscriptions[id], e, now);
    SupersedeFrees(t, organisation, id, e, now);
    var mid := ApplyChange(t, first).value;
    ReferenceStaysFree(t, first, e.provider, e.snapshot.subscriptionRef);
    ObserveSucceeds(mid, organisation, e, now);
    ApplyTwo(t, first, Observe(organisation, e, now));
  }

  /**
   * Once the checks pass nothing can throw: in particular the supersede-then-create
   * pair never stops half-way.
   */
  lemma AcceptedEventsApply(t: Tables, cat: Catalogue, e: BillingEvent, now: Time)
    requires Consistent(t)
    requires Judge(t, cat, e, now).Accept?
    ensures ApplyAll(t, Judge(t, cat, e, now).changes).Ok?
  {
    var v := Judge(t, cat, e, now);
    var existing := FindByReference(t.subscriptions, e.provider, e.snapshot.subscriptionRef);
    if existing.Some? {
      SynchroniseSucceeds(t, cat, e, now, existing.value);
    } else {
      var live := FindLive(t.subscriptions, v.organisation);
      if e.snapshot.status == EXPIRED || live.None? {
        assert v.changes == [Observe(v.organisation, e, now)];
        ObserveSucceeds(t, v.organisation, e, now);
      } else {
        SupersedeThenObserveSucceeds(t, v.organisation, live.value, e, now);
      }
    }
  }

  /**
   * An overlapping delivery: the creation an event asked for on earlier tables fails on
   * later ones exactly when a live subscription of the organisation or a row with the
   * reference appeared meanwhile. The delivery is then recorded FAILED for the provider
   * to retry.
   */
  lemma LateObservationViolates(earlier: Tables, later: Tables, organisation: string, e: BillingEvent, now: Time)
    requires Consistent(later) && |earlier.subscriptions| <= |later.subscriptions|
    requires ApplyChange(earlier, Observe(organisation, e, now)).Ok?
    ensures var live := FindLive(later.subscriptions, organisation);
      var row := FindByReference(later.subscriptions, e.provider, e.snapshot.subscriptionRef);
      (ApplyChange(later, Observe(organisation, e, now)) == Err(UniqueViolation)) ==
      ((e.snapshot.status != EXPIRED && live.Some?) || row.Some?)
  {
    LateChange(earlier, later, Observe(organisation, e, now));
  }

  /** A delivery that no other transaction overlaps settles its ledger row: it is never recorded FAILED. */
  lemma DeliverySettles(db: Db, cat: Catalogue, e: BillingEvent, now: Time)
    requires Consistent(db.tables)
    ensures var (after, outcome) := Ingest(db, cat, e, now);
      && !outcome.Failed?
      && e.Key() in after.ledger && Settled(after.ledger[e.Key()])
  {
    var received := db.(ledger := Receive(db.ledger, e.Key()));
    if !Settled(received.ledger[e.Key()]) && Judge(db.tables, cat, e, now).Accept? {
      AcceptedEventsApply(db.tables, cat, e, now);
    }
  }

  /** A settled event is never applied again, whatever its copy says. */
  lemma SettledIsDuplicate(db: Db, cat: Catalogue, e: BillingEvent, now: Time)
    requires e.Key() in db.ledger && Settled(db.ledger[e.Key()])
    ensures Ingest(db, cat, e, now) == (db, Duplicate)
  {
  }
}
