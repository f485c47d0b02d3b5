/** The billing tables in place: every writer of Subscription rows as it runs. */
module BillingService {
  import opened Common
  import opened StateMachine
  import opened Entitlements
  import opened Subscriptions
  import opened Webhooks
  import opened WebhookDeliveries
  import opened StaffActions
  import opened SubscriptionSweep

  class BillingDatabase {
    var subscriptions: seq<Subscription>
    var events: seq<SubscriptionEvent>
    var ledger: map<LedgerKey, LedgerRow>

    constructor ()
      ensures State() == Db(Tables([], []), map[])
    {
      subscriptions, events, ledger := [], [], map[];
    }

    function Rows(): Tables
      reads this`subscriptions, this`events
    {
      Tables(subscriptions, events)
    }

    function State(): Db
      reads this
    {
      Db(Rows(), ledger)
    }

    /** Applies one change in the caller's transaction. */
    method ApplySubscriptionChange(c: Change) returns (r: Result<nat, Error>)
      requires CurrentExists(Rows(), c)
      modifies this`subscriptions, this`events
      ensures match ApplyChange(old(Rows()), c)
        case Ok(tables) =>
          Rows() == tables && r == Ok(if c.current.Some? then c.current.value else |old(subscriptions)|)
        case Err(error) => Rows() == old(Rows()) && r == Err(error)
    {
      var current: Option<Subscription> := None;
      if c.current.Some? {
        current := Some(subscriptions[c.current.value]);
        if current.value.organisation != c.organisation {
          return Err(WrongOrganisation);
        }
      }
      var mirror := c.mirror && current.None? && !(c.origin.Some? && c.origin.value.source == MANUAL);
      var from: Option<EntitlingFields> := if current.Some? then Some(current.value.state.Terms()) else None;
      if !TransitionAllowed(from, c.next.status, c.occurredAt, mirror) {
        return Err(IllegalTransition);
      }
      if !StateValid(c.next) {
        return Err(ValidationFailed);
      }
      var id: nat;
      var source: Source;
      if current.Some? {
        id := c.current.value;
        source := current.value.origin.source;
        var row := current.value.(state := c.next, updatedAt := c.now);
        if c.syncedAt.Some? {
          row := row.(syncedAt := c.syncedAt);
        }
        if !IndexesHold(subscriptions[id := row]) {
          return Err(UniqueViolation);
        }
        subscriptions := subscriptions[id := row];
      } else {
        if c.origin.None? {
          return Err(MissingOrigin);
        }
        id := |subscriptions|;
        source := c.origin.value.source;
        var row := Subscription(c.organisation, c.origin.value, c.next, c.syncedAt, c.now);
        if !IndexesHold(subscriptions + [row]) {
          return Err(UniqueViolation);
        }
        subscriptions := subscriptions + [row];
      }
      events := events + [EventOf(current, id, source, c)];
      return Ok(id);
    }

    method Finish(e: BillingEvent, status: LedgerStatus, outcome: Option<IgnoreReason>, organisation: Option<string>)
      requires e.Key() in ledger
      modifies this`ledger
      ensures ledger == Settle(old(ledger), e.Key(), status, outcome, organisation)
    {
      var row := ledger[e.Key()];
      ledger := ledger[e.Key() := LedgerRow(status, outcome, organisation, row.attempts + 1)];
    }

    /** One webhook transaction: it commits as a whole, or an error rolls it back. */
    method ApplyWebhook(cat: Catalogue, e: BillingEvent, now: Time) returns (r: Result<Outcome, Error>)
      requires e.Key() in ledger
      modifies this
      ensures match Process(old(State()), cat, e, now)
        case Ok((db, outcome)) => State() == db && r == Ok(outcome)
        case Err(error) => State() == old(State()) && r == Err(error)
    {
      hide ApplyChange, StateValid, TransitionAllowed, FindByReference, FindLive, ApplyAll;
      var status := ledger[e.Key()].status;
      if status == PROCESSED || status == IGNORED {
        return Ok(Duplicate);
      }
      var customer := CustomerKey(e.provider, e.snapshot.customerRef);
      if customer !in cat.customers {
        Finish(e, IGNORED, Some(UnknownSubscription), None);
        return Ok(Ignored(UnknownSubscription));
      }
      var organisation := cat.customers[customer];
      var existing := FindByReference(subscriptions, e.provider, e.snapshot.subscriptionRef);
      if existing.Some? {
        var row := subscriptions[existing.value];
        if row.organisation != organisation {
          Finish(e, IGNORED, Some(CustomerMismatch), Some(organisation));
          return Ok(Ignored(CustomerMismatch));
        }
        if row.syncedAt.Some? && e.version < row.syncedAt.value {
          Finish(e, IGNORED, Some(Stale), Some(organisation));
          return Ok(Ignored(Stale));
        }
      }
      if e.snapshot.planKey !in cat.plans {
        Finish(e, IGNORED, Some(UnknownPlan), Some(organisation));
        return Ok(Ignored(UnknownPlan));
      }
      if cat.plans[e.snapshot.planKey].status == PLAN_ARCHIVED {
        Finish(e, IGNORED, Some(ArchivedPlan), Some(organisation));
        return Ok(Ignored(ArchivedPlan));
      }
      var next := StateFromSnapshot(e);
      if !StateValid(next) {
        Finish(e, IGNORED, Some(InvalidState), Some(organisation));
        return Ok(Ignored(InvalidState));
      }
      if existing.None? {
        var saved, savedEvents := subscriptions, events;
        if next.status != EXPIRED {
          var live := FindLive(subscriptions, organisation);
          if live.Some? {
            var row := subscriptions[live.value];
            var liveVersion := if row.syncedAt.Some? then row.syncedAt.value else row.updatedAt;
            if e.version <= liveVersion {
              Finish(e, IGNORED, Some(Stale), Some(organisation));
              return Ok(Ignored(Stale));
            }
            ApplyTwo(Rows(), Supersede(organisation, live.value, row, e, now), Observe(organisation, e, now));
            var ended := ApplySubscriptionChange(Supersede(organisation, live.value, row, e, now));
            if ended.Err? {
              return Err(ended.error);
            }
          }
        }
        ApplyOne(Rows(), Observe(organisation, e, now));
        var created := ApplySubscriptionChange(Observe(organisation, e, now));
        if created.Err? {
          subscriptions, events := saved, savedEvents;
          return Err(created.error);
        }
      } else {
        if !TransitionAllowed(
            Some(subscriptions[existing.value].state.Terms()), next.status, e.occurredAt, false) {
          Finish(e, IGNORED, Some(IllegalMove), Some(organisation));
          return Ok(Ignored(IllegalMove));
        }
        ApplyOne(Rows(), Synchronise(organisation, existing.value, e, now));
        var synced := ApplySubscriptionChange(Synchronise(organisation, existing.value, e, now));
        if synced.Err? {
          return Err(synced.error);
        }
      }
      Finish(e, PROCESSED, None, Some(organisation));
      return Ok(Processed);
    }

    /** Entry point for every accepted webhook delivery. */
    method IngestBillingWebhook(cat: Catalogue, e: BillingEvent, now: Time) returns (outcome: Outcome)
      modifies this
      ensures (State(), outcome) == Ingest(old(State()), cat, e, now)
      ensures Consistent(old(Rows())) && outcome.Processed? ==>
        var customer := CustomerKey(e.provider, e.snapshot.customerRef);
        && customer in cat.customers
        && exists k | 0 <= k < |subscriptions| :: RowShows(subscriptions[k], cat.customers[customer], e, now)
    {
      if e.Key() !in ledger {
        ledger := ledger[e.Key() := LedgerRow(RECEIVED, None, None, 0)];
      }
      var r := ApplyWebhook(cat, e, now);
      if r.Err? {
        var row := ledger[e.Key()];
        ledger := ledger[e.Key() := row.(status := FAILED, attempts := row.attempts + 1)];
        return Failed(r.error);
      }
      outcome := r.value;
      if outcome.Processed? && Consistent(old(Rows())) {
        ProcessedDelivery(old(State()), cat, e, now);
      }
    }

    /** One staff transaction. */
    method PerformStaffAction(cat: Catalogue, organisation: string, a: Action, now: Time)
      returns (r: Result<nat, Error>)
      modifies this`subscriptions, this`events
      ensures match Act(old(Rows()), cat, organisation, a, now)
        case Ok(tables) => r.Ok? && Rows() == tables
        case Err(error) => r == Err(error) && Rows() == old(Rows())
    {
      var decision := Decide(Rows(), cat, organisation, a, now);
      if decision.Err? {
        return Err(decision.error);
      }
      r := ApplySubscriptionChange(decision.value);
    }

    /** The rows the sweep's query returns, in table order, at most one batch. */
    method FindDue(now: Time) returns (due: seq<nat>)
      ensures NoDuplicates(due) && |due| <= BATCH
      ensures forall id | id in due :: id < |subscriptions| && Due(subscriptions[id], now)
      ensures |due| < BATCH ==> forall id | 0 <= id < |subscriptions| && Due(subscriptions[id], now) :: id in due
    {
      due := [];
      var id := 0;
      while id < |subscriptions| && |due| < BATCH
        invariant id <= |subscriptions| && |due| <= BATCH
        invariant NoDuplicates(due)
        invariant forall k | k in due :: k < id && Due(subscriptions[k], now)
        invariant forall k | 0 <= k < id && Due(subscriptions[k], now) :: k in due
      {
        if Due(subscriptions[id], now) {
          due := due + [id];
        }
        id := id + 1;
      }
    }

    /** Expires every MANUAL subscription whose entitlement has ended. */
    method SweepSubscriptionExpiry(now: Time) returns (expired: nat, failure: Option<Error>, ghost due: seq<nat>)
      modifies this`subscriptions, this`events
      ensures NoDuplicates(due) && |due| <= BATCH
      ensures forall id | id in due :: id < |old(subscriptions)| && Due(old(subscriptions)[id], now)
      ensures |due| < BATCH ==>
        forall id | 0 <= id < |old(subscriptions)| && Due(old(subscriptions)[id], now) :: id in due
      ensures Swept(Rows(), expired, failure) == SweepRows(old(Rows()), due, now)
    {
      var ids := FindDue(now);
      due := ids;
      expired, failure := 0, None;
      var k := 0;
      while k < |ids|
        invariant k <= |ids|
        invariant
          var rest := SweepRows(Rows(), ids[k..], now);
          SweepRows(old(Rows()), ids, now) == rest.(expired := rest.expired + expired)
      {
        var id := ids[k];
        assert ids[k..][1..] == ids[k + 1..];
        if id < |subscriptions| && subscriptions[id].state.status != EXPIRED
          && !IsEntitling(subscriptions[id].state.Terms(), now) {
          var changed := ApplySubscriptionChange(Expiry(id, subscriptions[id], now));
          if changed.Err? {
            failure := Some(changed.error);
            return;
          }
          expired := expired + 1;
        }
        k := k + 1;
      }
    }
  }
}
