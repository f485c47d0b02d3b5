/** What a webhook delivery leaves behind, read off the provider's own snapshot. */
module WebhookDeliveries {
  import opened Common
  import opened StateMachine
  import opened Entitlements
  import opened Subscriptions
  import opened Webhooks

  /** The reported date, or the moment the event happened when none was reported. */
  predicate DateOrMoment(column: Option<Time>, reported: Option<Time>, moment: Time) {
    column.Some? && column.value == if reported.Some? then reported.value else moment
  }

  /** The columns say what the provider reported. */
  predicate Shows(s: SubscriptionState, e: BillingEvent) {
    var p := e.snapshot;
    && s.planKey == p.planKey && s.status == p.status && s.billingInterval == p.interval
    && s.startedAt == p.startedAt
    && s.trialStartsAt == p.trialStartsAt && s.trialEndsAt == p.trialEndsAt
    && s.currentPeriodStart == p.currentPeriodStart && s.currentPeriodEnd == p.currentPeriodEnd
    && (if p.status == CANCELLED
        then s.expiresAt == p.accessEndsAt && DateOrMoment(s.cancelledAt, p.cancelledAt, e.occurredAt)
        else s.expiresAt.None? && s.cancelledAt.None?)
    && (if p.status == PAST_DUE
        then s.graceEndsAt == p.graceEndsAt && DateOrMoment(s.pastDueSince, p.pastDueSince, e.occurredAt)
        else s.graceEndsAt.None? && s.pastDueSince.None?)
    && (if p.status == EXPIRED then DateOrMoment(s.endedAt, p.endedAt, e.occurredAt) else s.endedAt.None?)
  }

  /** Whether the provider says the customer has access at `at`. */
  predicate GrantsAt(p: Snapshot, at: Time) {
    || (p.status == TRIAL && p.trialEndsAt.Some? && at < p.trialEndsAt.value)
    || p.status == ACTIVE
    || (p.status == PAST_DUE && p.graceEndsAt.Some? && at < p.graceEndsAt.value)
    || (p.status == CANCELLED && p.accessEndsAt.Some? && at < p.accessEndsAt.value)
  }

  /** The dates a status needs are there, and no trial or billing period ends before it starts. */
  predicate Complete(p: Snapshot) {
    && (p.status == TRIAL ==> p.trialEndsAt.Some?)
    && (p.status == PAST_DUE ==> p.graceEndsAt.Some?)
    && (p.status == CANCELLED ==> p.accessEndsAt.Some?)
    && (p.trialStartsAt.Some? && p.trialEndsAt.Some? ==> p.trialStartsAt.value < p.trialEndsAt.value)
    && (p.currentPeriodStart.Some? && p.currentPeriodEnd.Some? ==> p.currentPeriodStart.value < p.currentPeriodEnd.value)
  }

  /** A row that shows the event grants access exactly when the provider says so. */
  lemma ShownGrants(s: SubscriptionState, e: BillingEvent, at: Time)
    requires Shows(s, e)
    ensures IsEntitling(s.Terms(), at) <==> GrantsAt(e.snapshot, at)
  {
  }

  lemma ShownIsMapped(s: SubscriptionState, e: BillingEvent)
    ensures Shows(s, e) <==> s == StateFromSnapshot(e)
    ensures StateValid(StateFromSnapshot(e)) <==> Complete(e.snapshot)
  {
  }

  // --- the verdict ----------------------------------------------------------------------

  predicate About(s: Subscription, e: BillingEvent) {
    s.origin.provider == Some(e.provider) && s.origin.reference == Some(e.snapshot.subscriptionRef)
  }

  predicate PlanOffered(cat: Catalogue, e: BillingEvent) {
    e.snapshot.planKey in cat.plans && cat.plans[e.snapshot.planKey].status != PLAN_ARCHIVED
  }

  /** The subscription's own row may take the snapshot: same customer, not newer, a legal move. */
  predicate RowAdmits(s: Subscription, organisation: string, e: BillingEvent) {
    && s.organisation == organisation
    && (s.syncedAt.Some? ==> s.syncedAt.value <= e.version)
    && CanTransition(Some(s.state.status), e.snapshot.status)
    && (s.state.status == CANCELLED && e.snapshot.status == ACTIVE ==>
        s.state.expiresAt.Some? && e.occurredAt < s.state.expiresAt.value)
  }

  /** A live row of the organisation gives way: it was last written by something strictly older. */
  predicate GivesWay(s: Subscription, e: BillingEvent) {
    if s.syncedAt.Some? then s.syncedAt.value < e.version else s.updatedAt < e.version
  }

  /** Exactly which events are applied, in terms of the stored rows and the snapshot. */
  lemma AcceptedExactly(t: Tables, cat: Catalogue, e: BillingEvent, now: Time)
    requires Consistent(t)
    ensures var rows := t.subscriptions; var customer := CustomerKey(e.provider, e.snapshot.customerRef);
      Judge(t, cat, e, now).Accept? <==>
        (&& customer in cat.customers
         && PlanOffered(cat, e)
         && Complete(e.snapshot)
         && (forall i | 0 <= i < |rows| && About(rows[i], e) :: RowAdmits(rows[i], cat.customers[customer], e))
         && ((forall i | 0 <= i < |rows| :: !About(rows[i], e)) && e.snapshot.status != EXPIRED ==>
             forall i | 0 <= i < |rows| && rows[i].organisation == cat.customers[customer]
               && rows[i].state.status != EXPIRED :: GivesWay(rows[i], e)))
  {
    var rows := t.subscriptions;
    ShownIsMapped(StateFromSnapshot(e), e);
    var customer := CustomerKey(e.provider, e.snapshot.customerRef);
    if customer in cat.customers {
      var existing := FindByReference(rows, e.provider, e.snapshot.subscriptionRef);
      if existing.Some? {
        OwnRowDecides(rows, e, existing.value, cat.customers[customer]);
      } else {
        LiveRowDecides(rows, e, cat.customers[customer]);
      }
    }
  }

  lemma OwnRowDecides(rows: seq<Subscription>, e: BillingEvent, k: nat, organisation: string)
    requires OneRowPerReference(rows)
    requires k < |rows| && About(rows[k], e)
    ensures (forall i | 0 <= i < |rows| && About(rows[i], e) :: RowAdmits(rows[i], organisation, e))
      <==> RowAdmits(rows[k], organisation, e)
  {
    forall i | 0 <= i < |rows| && About(rows[i], e)
      ensures i == k
    {
      ReferenceIsUnique(rows, i, e.provider, e.snapshot.subscriptionRef);
      ReferenceIsUnique(rows, k, e.provider, e.snapshot.subscriptionRef);
    }
  }

  lemma LiveRowDecides(rows: seq<Subscription>, e: BillingEvent, organisation: string)
    requires OneLivePerOrganisation(rows)
    ensures var live := FindLive(rows, organisation);
      (forall i | 0 <= i < |rows| && rows[i].organisation == organisation && rows[i].state.status != EXPIRED ::
        GivesWay(rows[i], e))
      <==> (live.Some? ==> GivesWay(rows[live.value], e))
  {
    var live := FindLive(rows, organisation);
    if live.Some? {
      forall i | 0 <= i < |rows| && rows[i].organisation == organisation && rows[i].state.status != EXPIRED
        ensures i == live.value
      {
        LiveIsUnique(rows, i);
      }
    }
  }

  /**
   * Each reason is true, and in the order of the checks: an event is turned away as
   * invalid exactly when its customer, its row's owner and version and its plan pass
   * and a date its status needs is missing or out of order.
   */
  lemma IgnoredForItsReason(t: Tables, cat: Catalogue, e: BillingEvent, now: Time)
    requires Consistent(t)
    ensures var rows := t.subscriptions; var customer := CustomerKey(e.provider, e.snapshot.customerRef);
      var v := Judge(t, cat, e, now);
      && (v == Ignore(UnknownSubscription, None) <==> customer !in cat.customers)
      && (customer in cat.customers ==>
          var organisation := cat.customers[customer];
          var foreign := exists i | 0 <= i < |rows| :: About(rows[i], e) && rows[i].organisation != organisation;
          var older := exists i | 0 <= i < |rows| ::
            About(rows[i], e) && rows[i].syncedAt.Some? && e.version < rows[i].syncedAt.value;
          && (v.Ignore? ==> v.owner == Some(organisation))
          && (v.Accept? ==> v.organisation == organisation)
          && (v == Ignore(CustomerMismatch, Some(organisation)) <==> foreign)
          && (!foreign && older ==> v == Ignore(Stale, Some(organisation)))
          && (v == Ignore(UnknownPlan, Some(organisation)) <==>
              !foreign && !older && e.snapshot.planKey !in cat.plans)
          && (v == Ignore(ArchivedPlan, Some(organisation)) <==>
              !foreign && !older && e.snapshot.planKey in cat.plans && !PlanOffered(cat, e))
          && (v == Ignore(InvalidState, Some(organisation)) <==>
              !foreign && !older && PlanOffered(cat, e) && !Complete(e.snapshot)))
  {
    var rows := t.subscriptions;
    ShownIsMapped(StateFromSnapshot(e), e);
    var existing := FindByReference(rows, e.provider, e.snapshot.subscriptionRef);
    if existing.Some? {
      assert About(rows[existing.value], e);
      forall i | 0 <= i < |rows| && About(rows[i], e)
        ensures i == existing.value
      {
        ReferenceIsUnique(rows, i, e.provider, e.snapshot.subscriptionRef);
      }
    }
  }

  // --- the tables afterwards --------------------------------------------------------------

  /** The row after a delivery: what the provider reported, and as of which version. */
  predicate RowShows(s: Subscription, organisation: string, e: BillingEvent, now: Time) {
    && About(s, e)
    && s.organisation == organisation
    && Shows(s.state, e)
    && s.syncedAt == Some(e.version)
    && s.updatedAt == now
  }

  /** A subscription that gave way: it ended when the event happened and is otherwise as it was. */
  predicate GaveWay(before: Subscription, after: Subscription, organisation: string, e: BillingEvent, now: Time) {
    && before.organisation == organisation && before.state.status != EXPIRED
    && after == before.(state := after.state, updatedAt := now)
    && after.state == before.state.(status := EXPIRED, endedAt := Some(e.occurredAt))
  }

  predicate EventShows(
    entry: SubscriptionEvent, kind: string, before: Option<Subscription>, after: Subscription, id: nat, e: BillingEvent)
  {
    && entry.subscription == id && entry.organisation == after.organisation
    && entry.kind == kind && entry.source == after.origin.source
    && entry.providerEventId == Some(e.eventId) && entry.occurredAt == e.occurredAt
    && entry.toStatus == after.state.status && entry.toPlan == after.state.planKey
    && entry.fromStatus == (if before.Some? then Some(before.value.state.status) else None)
    && entry.fromPlan == (if before.Some? then Some(before.value.state.planKey) else None)
  }

  /** The subscription had a row already: it alone is rewritten. */
  predicate Resynchronised(before: Tables, after: Tables, organisation: string, e: BillingEvent, now: Time, k: nat) {
    && k < |before.subscriptions| == |after.subscriptions|
    && About(before.subscriptions[k], e)
    && after.subscriptions[k].origin == before.subscriptions[k].origin
    && (forall i | 0 <= i < |before.subscriptions| && i != k :: after.subscriptions[i] == before.subscriptions[i])
    && |after.events| == |before.events| + 1 && before.events <= after.events
    && EventShows(after.events[|before.events|], e.kind, Some(before.subscriptions[k]), after.subscriptions[k], k, e)
  }

  /** The subscription's first row is appended; a live row of the organisation gave way unless this one is over. */
  predicate Observed(before: Tables, after: Tables, organisation: string, e: BillingEvent, now: Time) {
    var k := |before.subscriptions|;
    var live := FindLive(before.subscriptions, organisation);
    && |after.subscriptions| == k + 1
    && after.subscriptions[k].origin.source == (if e.provider == MOCK_PROVIDER then MOCK else PAYMENT_PROVIDER)
    && before.events <= after.events
    && |after.events| > |before.events|
    && EventShows(after.events[|after.events| - 1], e.kind, None, after.subscriptions[k], k, e)
    && if e.snapshot.status == EXPIRED || live.None? then
        && |after.events| == |before.events| + 1
        && forall i | 0 <= i < k :: after.subscriptions[i] == before.subscriptions[i]
      else
        && |after.events| == |before.events| + 2
        && GaveWay(before.subscriptions[live.value], after.subscriptions[live.value], organisation, e, now)
        && EventShows(after.events[|before.events|], "superseded", Some(before.subscriptions[live.value]),
                      after.subscriptions[live.value], live.value, e)
        && forall i | 0 <= i < k && i != live.value :: after.subscriptions[i] == before.subscriptions[i]
  }

  lemma SynchroniseShows(t: Tables, organisation: string, k: nat, e: BillingEvent, now: Time)
    requires k < |t.subscriptions| && About(t.subscriptions[k], e)
    requires ApplyChange(t, Synchronise(organisation, k, e, now)).Ok?
    ensures var after := ApplyChange(t, Synchronise(organisation, k, e, now)).value;
      && Resynchronised(t, after, organisation, e, now, k)
      && RowShows(after.subscriptions[k], organisation, e, now)
  {
    ShownIsMapped(StateFromSnapshot(e), e);
  }

  lemma ObserveShows(t: Tables, organisation: string, e: BillingEvent, now: Time)
    requires ApplyChange(t, Observe(organisation, e, now)).Ok?
    ensures var after := ApplyChange(t, Observe(organisation, e, now)).value; var k := |t.subscriptions|;
      && |after.subscriptions| == k + 1
      && RowShows(after.subscriptions[k], organisation, e, now)
      && after.subscriptions[k].origin.source == (if e.provider == MOCK_PROVIDER then MOCK else PAYMENT_PROVIDER)
      && (forall i | 0 <= i < k :: after.subscriptions[i] == t.subscriptions[i])
      && |after.events| == |t.events| + 1 && t.events <= after.events
      && EventShows(after.events[|t.events|], e.kind, None, after.subscriptions[k], k, e)
  {
    ShownIsMapped(StateFromSnapshot(e), e);
  }

  lemma SupersedeShows(t: Tables, organisation: string, k: nat, e: BillingEvent, now: Time)
    requires k < |t.subscriptions|
    requires t.subscriptions[k].organisation == organisation && t.subscriptions[k].state.status != EXPIRED
    requires ApplyChange(t, Supersede(organisation, k, t.subscriptions[k], e, now)).Ok?
    ensures var after := ApplyChange(t, Supersede(organisation, k, t.subscriptions[k], e, now)).value;
      && |after.subscriptions| == |t.subscriptions|
      && GaveWay(t.subscriptions[k], after.subscriptions[k], organisation, e, now)
      && (forall i | 0 <= i < |t.subscriptions| && i != k :: after.subscriptions[i] == t.subscriptions[i])
      && |after.events| == |t.events| + 1 && t.events <= after.events
      && EventShows(after.events[|t.events|], "superseded", Some(t.subscriptions[k]), after.subscriptions[k], k, e)
  {
  }

  lemma ObservationLeaves(t: Tables, cat: Catalogue, e: BillingEvent, now: Time)
    requires Consistent(t) && Judge(t, cat, e, now).Accept?
    requires FindByReference(t.subscriptions, e.provider, e.snapshot.subscriptionRef).None?
    ensures var v := Judge(t, cat, e, now); var r := ApplyAll(t, v.changes);
      && r.Ok?
      && Observed(t, r.value, v.organisation, e, now)
      && RowShows(r.value.subscriptions[|t.subscriptions|], v.organisation, e, now)
  {
    var v := Judge(t, cat, e, now);
    AcceptedEventsApply(t, cat, e, now);
    var live := FindLive(t.subscriptions, v.organisation);
    var last := Observe(v.organisation, e, now);
    if e.snapshot.status == EXPIRED || live.None? {
      assert v.changes == [last];
      ApplyOne(t, last);
      ObserveShows(t, v.organisation, e, now);
    } else {
      var first := Supersede(v.organisation, live.value, t.subscriptions[live.value], e, now);
      assert v.changes == [first, last];
      ApplyTwo(t, first, last);
      SupersedeShows(t, v.organisation, live.value, e, now);
      ObserveShows(ApplyChange(t, first).value, v.organisation, e, now);
    }
  }

  lemma SynchronisationLeaves(t: Tables, cat: Catalogue, e: BillingEvent, now: Time)
    requires Consistent(t) && Judge(t, cat, e, now).Accept?
    requires FindByReference(t.subscriptions, e.provider, e.snapshot.subscriptionRef).Some?
    ensures var v := Judge(t, cat, e, now); var r := ApplyAll(t, v.changes);
      var k := FindByReference(t.subscriptions, e.provider, e.snapshot.subscriptionRef).value;
      && r.Ok?
      && Resynchronised(t, r.value, v.organisation, e, now, k)
      && RowShows(r.value.subscriptions[k], v.organisation, e, now)
  {
    var v := Judge(t, cat, e, now);
    AcceptedEventsApply(t, cat, e, now);
    var k := FindByReference(t.subscriptions, e.provider, e.snapshot.subscriptionRef).value;
    assert v.changes == [Synchronise(v.organisation, k, e, now)];
    ApplyOne(t, v.changes[0]);
    SynchroniseShows(t, v.organisation, k, e, now);
  }

  /**
   * An accepted delivery: the subscription's row carries the provider's plan, status,
   * dates and version, it grants access exactly when the snapshot does, and no other row
   * changes but a live one that gave way to a first observation.
   */
  lemma ProcessedDelivery(db: Db, cat: Catalogue, e: BillingEvent, now: Time)
    requires Consistent(db.tables)
    requires Ingest(db, cat, e, now).1 == Processed
    ensures CustomerKey(e.provider, e.snapshot.customerRef) in cat.customers
    ensures var organisation := cat.customers[CustomerKey(e.provider, e.snapshot.customerRef)];
      var after := Ingest(db, cat, e, now).0.tables;
      var was := FindByReference(db.tables.subscriptions, e.provider, e.snapshot.subscriptionRef);
      var k := if was.Some? then was.value else |db.tables.subscriptions|;
      && k < |after.subscriptions|
      && RowShows(after.subscriptions[k], organisation, e, now)
      && (forall at :: IsEntitling(after.subscriptions[k].state.Terms(), at) <==> GrantsAt(e.snapshot, at))
      && (if was.Some? then Resynchronised(db.tables, after, organisation, e, now, k)
          else Observed(db.tables, after, organisation, e, now))
  {
    hide ApplyAll, Consistent, RowShows, Observed, Resynchronised;
    var v := Judge(db.tables, cat, e, now);
    if FindByReference(db.tables.subscriptions, e.provider, e.snapshot.subscriptionRef).Some? {
      SynchronisationLeaves(db.tables, cat, e, now);
    } else {
      ObservationLeaves(db.tables, cat, e, now);
    }
    RowGrants(db, cat, e, now);
  }

  lemma RowGrants(db: Db, cat: Catalogue, e: BillingEvent, now: Time)
    ensures forall s: Subscription, organisation: string, at ::
      RowShows(s, organisation, e, now) ==> (IsEntitling(s.state.Terms(), at) <==> GrantsAt(e.snapshot, at))
  {
    forall s: Subscription, organisation: string, at | RowShows(s, organisation, e, now)
      ensures IsEntitling(s.state.Terms(), at) <==> GrantsAt(e.snapshot, at)
    {
      ShownGrants(s.state, e, at);
    }
  }

  /**
   * The ledger: each delivery of an unsettled event adds an attempt and records its
   * outcome; what is not processed leaves the subscription tables as they were.
   */
  lemma DeliveryRecorded(db: Db, cat: Catalogue, e: BillingEvent, now: Time)
    ensures var (after, outcome) := Ingest(db, cat, e, now);
      var tries := if e.Key() in db.ledger then db.ledger[e.Key()].attempts else 0;
      && e.Key() in after.ledger
      && after.ledger.Keys == db.ledger.Keys + {e.Key()}
      && (forall k | k in db.ledger && k != e.Key() :: after.ledger[k] == db.ledger[k])
      && (!outcome.Processed? ==> after.tables == db.tables)
      && (outcome.Duplicate? <==> e.Key() in db.ledger && db.ledger[e.Key()].status in {PROCESSED, IGNORED})
      && (outcome.Duplicate? ==> after == db)
      && (!outcome.Duplicate? ==> after.ledger[e.Key()].attempts == tries + 1)
      && (outcome.Processed? ==> after.ledger[e.Key()].status == PROCESSED && after.ledger[e.Key()].outcome.None?)
      && (outcome.Ignored? ==>
          after.ledger[e.Key()].status == IGNORED && after.ledger[e.Key()].outcome == Some(outcome.reason))
      && (outcome.Failed? ==> after.ledger[e.Key()].status == FAILED)
  {
  }

  /** The outcome reported is the verdict reached on the tables the delivery found. */
  lemma OutcomeIsVerdict(db: Db, cat: Catalogue, e: BillingEvent, now: Time)
    requires Consistent(db.tables)
    requires e.Key() in db.ledger ==> db.ledger[e.Key()].status in {RECEIVED, FAILED}
    ensures var (after, outcome) := Ingest(db, cat, e, now); var v := Judge(db.tables, cat, e, now);
      && (outcome.Processed? <==> v.Accept?)
      && (v.Ignore? ==> outcome == Ignored(v.reason) && after.ledger[e.Key()].organisation == v.owner)
      && (v.Accept? ==> after.ledger[e.Key()].organisation == Some(v.organisation))
  {
    if Judge(db.tables, cat, e, now).Accept? {
      AcceptedEventsApply(db.tables, cat, e, now);
    }
  }
}
