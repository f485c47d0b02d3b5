/** Whole runs of the billing system: staff, provider webhooks and the sweep in any order. */
module BillingRuns {
  import opened Common
  import opened StateMachine
  import opened Subscriptions
  import opened Webhooks
  import opened StaffActions
  import opened SubscriptionSweep

  /**
   * One committed transaction (or one whole sweep). Reference data and clocks
   * may differ from step to step. A sweep works through rows its query found,
   * now or earlier; a row's source never changes, so only MANUAL ones count.
   */
  datatype Step =
    | Staff(cat: Catalogue, organisation: string, action: Action, now: Time)
    | Deliver(cat: Catalogue, event: BillingEvent, now: Time)
    | Sweep(ids: seq<nat>, now: Time)

  function ManualOnly(rows: seq<Subscription>, ids: seq<nat>): (r: seq<nat>)
    ensures forall id | id in r :: id < |rows| && rows[id].origin.source == MANUAL
  {
    if ids == [] then []
    else if ids[0] < |rows| && rows[ids[0]].origin.source == MANUAL then [ids[0]] + ManualOnly(rows, ids[1..])
    else ManualOnly(rows, ids[1..])
  }

  function Execute(db: Db, step: Step): Db {
    match step
    case Staff(cat, organisation, action, now) =>
      (match Act(db.tables, cat, organisation, action, now)
       case Ok(tables) => db.(tables := tables)
       case Err(_) => db)
    case Deliver(cat, event, now) => Ingest(db, cat, event, now).0
    case Sweep(ids, now) => db.(tables := SweepRows(db.tables, ManualOnly(db.tables.subscriptions, ids), now).tables)
  }

  function Run(db: Db, steps: seq<Step>): Db
    decreases |steps|
  {
    if steps == [] then db else Run(Execute(db, steps[0]), steps[1..])
  }

  const EMPTY := Db(Tables([], []), map[])

  /** Settled ledger rows are final. */
  ghost predicate LedgerKept(before: map<LedgerKey, LedgerRow>, after: map<LedgerKey, LedgerRow>) {
    forall k | k in before :: k in after && (Settled(before[k]) ==> after[k] == before[k])
  }

  /** What no step ever takes back. */
  ghost predicate Grows(before: Db, after: Db) {
    && Advances(before.tables.subscriptions, after.tables.subscriptions)
    && before.tables.events <= after.tables.events
    && LedgerKept(before.ledger, after.ledger)
  }

  lemma AdvancesTransitive(a: seq<Subscription>, b: seq<Subscription>, c: seq<Subscription>)
    requires Advances(a, b) && Advances(b, c)
    ensures Advances(a, c)
  {
  }

  lemma GrowsTransitive(a: Db, b: Db, c: Db)
    requires Grows(a, b) && Grows(b, c)
    ensures Grows(a, c)
  {
    AdvancesTransitive(a.tables.subscriptions, b.tables.subscriptions, c.tables.subscriptions);
  }

  // --- every step ------------------------------------------------------------------

  lemma {:induction false} ApplyAllKeepsConsistent(t: Tables, changes: seq<Change>)
    requires forall c | c in changes :: CurrentExists(t, c)
    requires forall c | c in changes && c.origin.Some? :: OriginValid(c.origin.value)
    requires Consistent(t) && ApplyAll(t, changes).Ok?
    ensures var after := ApplyAll(t, changes).value;
      && Consistent(after)
      && Advances(t.subscriptions, after.subscriptions)
      && t.events <= after.events
    decreases |changes|
  {
    if changes != [] {
      ChangeKeepsConsistent(t, changes[0]);
      var next := ApplyChange(t, changes[0]).value;
      forall c | c in changes[1..]
        ensures CurrentExists(next, c) && (c.origin.Some? ==> OriginValid(c.origin.value))
      {
        assert CurrentExists(t, c);
      }
      ApplyAllKeepsConsistent(next, changes[1..]);
      AdvancesTransitive(t.subscriptions, next.subscriptions, ApplyAll(t, changes).value.subscriptions);
    }
  }

  lemma DeliveryGrows(db: Db, cat: Catalogue, e: BillingEvent, now: Time)
    requires Consistent(db.tables)
    ensures var after := Ingest(db, cat, e, now).0;
      Consistent(after.tables) && Grows(db, after)
  {
    hide ApplyAll, Consistent, StateValid, TransitionAllowed, FindLive, FindByReference;
    var received := db.(ledger := Receive(db.ledger, e.Key()));
    if !Settled(received.ledger[e.Key()]) {
      var v := Judge(db.tables, cat, e, now);
      if v.Accept? {
        AcceptedEventsApply(db.tables, cat, e, now);
        ApplyAllKeepsConsistent(db.tables, v.changes);
      }
    }
  }

  lemma StaffGrows(t: Tables, cat: Catalogue, organisation: string, a: Action, now: Time)
    requires Consistent(t) && Act(t, cat, organisation, a, now).Ok?
    ensures var after := Act(t, cat, organisation, a, now).value;
      Consistent(after) && Advances(t.subscriptions, after.subscriptions) && t.events < after.events
  {
    ChangeKeepsConsistent(t, Decide(t, cat, organisation, a, now).value);
  }

  lemma {:induction false} SweepGrows(t: Tables, ids: seq<nat>, now: Time)
    requires Consistent(t)
    ensures var after := SweepRows(t, ids, now).tables;
      Consistent(after) && Advances(t.subscriptions, after.subscriptions) && t.events <= after.events
    decreases |ids|
  {
    if ids != [] {
      if Expirable(t, ids[0], now) {
        var c := Expiry(ids[0], t.subscriptions[ids[0]], now);
        ExpirySucceeds(t, ids[0], now);
        ChangeKeepsConsistent(t, c);
        var next := ApplyChange(t, c).value;
        SweepGrows(next, ids[1..], now);
        AdvancesTransitive(t.subscriptions, next.subscriptions, SweepRows(t, ids, now).tables.subscriptions);
      } else {
        SweepGrows(t, ids[1..], now);
      }
    }
  }

  lemma StepGrows(db: Db, step: Step)
    requires Consistent(db.tables)
    ensures Consistent(Execute(db, step).tables) && Grows(db, Execute(db, step))
  {
    match step
    case Staff(cat, organisation, action, now) =>
      if Act(db.tables, cat, organisation, action, now).Ok? {
        StaffGrows(db.tables, cat, organisation, action, now);
      }
    case Deliver(cat, event, now) => DeliveryGrows(db, cat, event, now);
    case Sweep(ids, now) => SweepGrows(db.tables, ManualOnly(db.tables.subscriptions, ids), now);
  }

  // --- every run -------------------------------------------------------------------

  lemma {:induction false} RunConcat(db: Db, first: seq<Step>, second: seq<Step>)
    ensures Run(db, first + second) == Run(Run(db, first), second)
    decreases |first|
  {
    if first == [] {
      assert first + second == second;
    } else {
      assert (first + second)[1..] == first[1..] + second;
      RunConcat(Execute(db, first[0]), first[1..], second);
    }
  }

  /**
   * Safety over whole runs: the tables stay consistent (one live subscription
   * per organisation, valid rows, an event log that replays to the rows), rows
   * that expired are frozen, history is append-only and settled events final.
   */
  lemma {:induction false} RunKeepsConsistent(db: Db, steps: seq<Step>)
    requires Consistent(db.tables)
    ensures Consistent(Run(db, steps).tables) && Grows(db, Run(db, steps))
    decreases |steps|
  {
    if steps != [] {
      StepGrows(db, steps[0]);
      RunKeepsConsistent(Execute(db, steps[0]), steps[1..]);
      GrowsTransitive(db, Execute(db, steps[0]), Run(db, steps));
    }
  }

  /** In every reachable state an organisation has at most one subscription that is not EXPIRED. */
  lemma OneLiveSubscription(steps: seq<Step>, i: nat, j: nat)
    requires i < |Run(EMPTY, steps).tables.subscriptions| && j < |Run(EMPTY, steps).tables.subscriptions|
    requires var rows := Run(EMPTY, steps).tables.subscriptions;
      && rows[i].organisation == rows[j].organisation
      && rows[i].state.status != EXPIRED && rows[j].state.status != EXPIRED
    ensures i == j
  {
    RunKeepsConsistent(EMPTY, steps);
    var rows := Run(EMPTY, steps).tables.subscriptions;
    LiveIsUnique(rows, i);
    LiveIsUnique(rows, j);
  }

  /** In every reachable state the event log, replayed, gives each row's status and plan. */
  lemma HistoryExplainsRows(steps: seq<Step>, id: nat)
    requires id < |Run(EMPTY, steps).tables.subscriptions|
    ensures var t := Run(EMPTY, steps).tables;
      && Replay(t.events).Some?
      && id in Replay(t.events).value
      && Replay(t.events).value[id] == StandingOf(t.subscriptions[id])
      && StateValid(t.subscriptions[id].state)
  {
    RunKeepsConsistent(EMPTY, steps);
  }

  /** In every reachable state each subscription's events form a chain of legal moves from its creation on. */
  lemma HistoryIsChained(steps: seq<Step>, i: nat)
    requires i < |Run(EMPTY, steps).tables.events|
    ensures var events := Run(EMPTY, steps).tables.events; var e := events[i];
      && ((forall j | 0 <= j < i :: events[j].subscription != e.subscription) ==> e.fromStatus.None? && e.fromPlan.None?)
      && forall j: nat | IsLatest(events, e.subscription, i, j) ::
        && e.fromStatus == Some(events[j].toStatus) && e.fromPlan == Some(events[j].toPlan)
        && CanTransition(e.fromStatus, e.toStatus)
  {
    RunKeepsConsistent(EMPTY, steps);
    ReplayedIsChained(Run(EMPTY, steps).tables.events, i);
  }

  /**
   * In every reachable state the columns that a status is read with are filled in, no
   * trial or billing period ends before it starts, and the provider columns fit the source.
   */
  lemma RowsAreReadable(steps: seq<Step>, id: nat)
    requires id < |Run(EMPTY, steps).tables.subscriptions|
    ensures var row := Run(EMPTY, steps).tables.subscriptions[id]; var s := row.state;
      && (s.status == TRIAL ==> s.trialEndsAt.Some?)
      && (s.status == PAST_DUE ==> s.pastDueSince.Some? && s.graceEndsAt.Some?)
      && (s.status == CANCELLED ==> s.cancelledAt.Some? && s.expiresAt.Some?)
      && (s.status == EXPIRED ==> s.endedAt.Some?)
      && (s.trialStartsAt.Some? && s.trialEndsAt.Some? ==> s.trialStartsAt.value < s.trialEndsAt.value)
      && (s.currentPeriodStart.Some? && s.currentPeriodEnd.Some? ==>
          s.currentPeriodStart.value < s.currentPeriodEnd.value)
      && (row.origin.source == MANUAL <==> row.origin.provider.None?)
      && (row.origin.source == MOCK <==> row.origin.provider == Some(MOCK_PROVIDER))
      && (row.origin.provider.Some? <==> row.origin.reference.Some?)
  {
    RunKeepsConsistent(EMPTY, steps);
  }

  /** A row that expired is never written again, whatever happens next. */
  lemma ExpiredIsForever(before: seq<Step>, after: seq<Step>, id: nat)
    requires id < |Run(EMPTY, before).tables.subscriptions|
    requires Run(EMPTY, before).tables.subscriptions[id].state.status == EXPIRED
    ensures var rows := Run(EMPTY, before + after).tables.subscriptions;
      id < |rows| && rows[id] == Run(EMPTY, before).tables.subscriptions[id]
  {
    RunKeepsConsistent(EMPTY, before);
    RunKeepsConsistent(Run(EMPTY, before), after);
    RunConcat(EMPTY, before, after);
  }

  /** An event counts once: any later delivery of the same event id changes nothing. */
  lemma EventsCountOnce(
    before: seq<Step>, between: seq<Step>, cat: Catalogue, e: BillingEvent, now: Time,
    cat': Catalogue, copy: BillingEvent, now': Time)
    requires copy.Key() == e.Key()
    ensures var db := Run(EMPTY, before + [Deliver(cat, e, now)] + between);
      Ingest(db, cat', copy, now') == (db, Duplicate)
  {
    RunKeepsConsistent(EMPTY, before);
    var db0 := Run(EMPTY, before);
    DeliverySettles(db0, cat, e, now);
    RunConcat(EMPTY, before, [Deliver(cat, e, now)]);
    var db1 := Ingest(db0, cat, e, now).0;
    assert Run(db0, [Deliver(cat, e, now)]) == db1;
    StepGrows(db0, Deliver(cat, e, now));
    RunConcat(EMPTY, before + [Deliver(cat, e, now)], between);
    RunKeepsConsistent(db1, between);
    SettledIsDuplicate(Run(db1, between), cat', copy, now');
  }
}
