/**
 * The Subscription Service: the only code that writes Subscription rows.
 * Rows and events are never deleted, so a row's identity is its index.
 */
module Subscriptions {
  import opened Common
  import opened StateMachine
  import opened Entitlements

  datatype Interval = MONTH | YEAR

  datatype Source = MANUAL | MOCK | PAYMENT_PROVIDER

  datatype Provider = MOCK_PROVIDER | RAZORPAY | STRIPE

  /** Every mutable column of a subscription. Plans are identified by their key. */
  datatype SubscriptionState = SubscriptionState(
    planKey: string,
    status: Status,
    billingInterval: Option<Interval>,
    startedAt: Time,
    trialStartsAt: Option<Time>,
    trialEndsAt: Option<Time>,
    currentPeriodStart: Option<Time>,
    currentPeriodEnd: Option<Time>,
    expiresAt: Option<Time>,
    cancelledAt: Option<Time>,
    pastDueSince: Option<Time>,
    graceEndsAt: Option<Time>,
    endedAt: Option<Time>)
  {
    function Terms(): EntitlingFields {
      EntitlingFields(status, trialEndsAt, expiresAt, graceEndsAt)
    }
  }

  /** Who manages the subscription; immutable after creation. */
  datatype Origin = Origin(source: Source, provider: Option<Provider>, reference: Option<string>)

  datatype Subscription = Subscription(
    organisation: string, origin: Origin, state: SubscriptionState, syncedAt: Option<Time>, updatedAt: Time)

  datatype SubscriptionEvent = SubscriptionEvent(
    subscription: nat,
    organisation: string,
    kind: string,
    source: Source,
    fromStatus: Option<Status>,
    toStatus: Status,
    fromPlan: Option<string>,
    toPlan: string,
    providerEventId: Option<string>,
    occurredAt: Time)

  datatype Change = Change(
    organisation: string,
    current: Option<nat>,
    origin: Option<Origin>,
    next: SubscriptionState,
    syncedAt: Option<Time>,
    mirror: bool,
    kind: string,
    providerEventId: Option<string>,
    occurredAt: Time,
    now: Time)

  datatype Error =
    | NotFound
    | Conflict
    | ValidationFailed
    | IllegalTransition
    | UniqueViolation
    | WrongOrganisation
    | MissingOrigin

  /** The two tables this service owns. */
  datatype Tables = Tables(subscriptions: seq<Subscription>, events: seq<SubscriptionEvent>)

  // --- rules ------------------------------------------------------------------

  /** The state machine plus: a CANCELLED subscription reactivates only while access lasts. */
  predicate TransitionAllowed(current: Option<EntitlingFields>, next: Status, at: Time, mirror: bool) {
    match current
    case None => mirror || CanTransition(None, next)
    case Some(fields) =>
      && CanTransition(Some(fields.status), next)
      && !(fields.status == CANCELLED && next == ACTIVE && !IsEntitling(fields, at))
  }

  predicate Ordered(start: Option<Time>, end: Option<Time>) {
    start.Some? && end.Some? ==> start.value < end.value
  }

  predicate StateValid(s: SubscriptionState) {
    && (s.status == TRIAL ==> s.trialEndsAt.Some?)
    && Ordered(s.trialStartsAt, s.trialEndsAt)
    && (s.status == PAST_DUE ==> s.pastDueSince.Some? && s.graceEndsAt.Some?)
    && (s.status == CANCELLED ==> s.cancelledAt.Some? && s.expiresAt.Some?)
    && (s.status == EXPIRED ==> s.endedAt.Some?)
    && Ordered(s.currentPeriodStart, s.currentPeriodEnd)
  }

  /** The database's unique indexes: one live row per organisation, one row per provider reference. */
  predicate IndexesHold(rows: seq<Subscription>) {
    && OneLivePerOrganisation(rows)
    && OneRowPerReference(rows)
  }

  predicate OneLivePerOrganisation(rows: seq<Subscription>) {
    forall i, j | 0 <= i < j < |rows| ::
      rows[i].organisation == rows[j].organisation ==>
      rows[i].state.status == EXPIRED || rows[j].state.status == EXPIRED
  }

  predicate OneRowPerReference(rows: seq<Subscription>) {
    forall i, j | 0 <= i < j < |rows| :: !SameReference(rows[i].origin, rows[j].origin)
  }

  predicate SameReference(a: Origin, b: Origin) {
    a.provider.Some? && a.reference.Some? && a.provider == b.provider && a.reference == b.reference
  }

  // --- lookups ------------------------------------------------------------------

  function FindByReference(rows: seq<Subscription>, provider: Provider, reference: string): (r: Option<nat>)
    ensures r.Some? ==>
      (r.value < |rows|
       && rows[r.value].origin.provider == Some(provider) && rows[r.value].origin.reference == Some(reference))
    ensures r.None? ==> forall i | 0 <= i < |rows| ::
      !(rows[i].origin.provider == Some(provider) && rows[i].origin.reference == Some(reference))
  {
    if rows == [] then None
    else
      var last := rows[|rows| - 1];
      if last.origin.provider == Some(provider) && last.origin.reference == Some(reference) then Some(|rows| - 1)
      else FindByReference(rows[..|rows| - 1], provider, reference)
  }

  function FindLive(rows: seq<Subscription>, organisation: string): (r: Option<nat>)
    ensures r.Some? ==>
      (r.value < |rows| && rows[r.value].organisation == organisation && rows[r.value].state.status != EXPIRED)
    ensures r.None? ==> forall i | 0 <= i < |rows| ::
      rows[i].organisation == organisation ==> rows[i].state.status == EXPIRED
  {
    if rows == [] then None
    else
      var last := rows[|rows| - 1];
      if last.organisation == organisation && last.state.status != EXPIRED then Some(|rows| - 1)
      else FindLive(rows[..|rows| - 1], organisation)
  }

  // --- specification of one change ------------------------------------------------

  function EventOf(current: Option<Subscription>, id: nat, source: Source, c: Change): SubscriptionEvent {
    SubscriptionEvent(
      id, c.organisation, c.kind, source,
      if current.Some? then Some(current.value.state.status) else None, c.next.status,
      if current.Some? then Some(current.value.state.planKey) else None, c.next.planKey,
      c.providerEventId, c.occurredAt)
  }

  predicate CurrentExists(t: Tables, c: Change) {
    c.current.Some? ==> c.current.value < |t.subscriptions|
  }

  /** What one change does to the tables, or why it is refused. A refused change writes nothing. */
  function ApplyChange(t: Tables, c: Change): (r: Result<Tables, Error>)
    requires CurrentExists(t, c)
    ensures r.Ok? ==> |t.subscriptions| <= |r.value.subscriptions|
  {
    var current := if c.current.Some? then Some(t.subscriptions[c.current.value]) else None;
    var mirror := c.mirror && current.None? && !(c.origin.Some? && c.origin.value.source == MANUAL);
    if current.Some? && current.value.organisation != c.organisation then Err(WrongOrganisation)
    else if !TransitionAllowed(
        if current.Some? then Some(current.value.state.Terms()) else None, c.next.status, c.occurredAt, mirror)
      then Err(IllegalTransition)
    else if !StateValid(c.next) then Err(ValidationFailed)
    else if current.Some? then
      var row := current.value.(
        state := c.next, updatedAt := c.now,
        syncedAt := if c.syncedAt.Some? then c.syncedAt else current.value.syncedAt);
      var rows := t.subscriptions[c.current.value := row];
      if !IndexesHold(rows) then Err(UniqueViolation)
      else Ok(Tables(rows, t.events + [EventOf(current, c.current.value, row.origin.source, c)]))
    else if c.origin.None? then Err(MissingOrigin)
    else
      var row := Subscription(c.organisation, c.origin.value, c.next, c.syncedAt, c.now);
      var rows := t.subscriptions + [row];
      if !IndexesHold(rows) then Err(UniqueViolation)
      else Ok(Tables(rows, t.events + [EventOf(None, |t.subscriptions|, row.origin.source, c)]))
  }

  // --- history ------------------------------------------------------------------

  /** What a subscription's events say about it: its status and plan. */
  datatype Standing = Standing(status: Status, planKey: string)

  /** An event either opens a subscription's history or continues it by a legal transition. */
  predicate Continues(standings: map<nat, Standing>, e: SubscriptionEvent) {
    if e.subscription in standings then
      var was := standings[e.subscription];
      && e.fromStatus == Some(was.status)
      && e.fromPlan == Some(was.planKey)
      && CanTransition(Some(was.status), e.toStatus)
    else
      e.fromStatus.None? && e.fromPlan.None?
  }

  /** Replays the event log; None when some event does not continue the history before it. */
  function Replay(events: seq<SubscriptionEvent>): Option<map<nat, Standing>> {
    if events == [] then Some(map[])
    else
      var before := Replay(events[..|events| - 1]);
      var e := events[|events| - 1];
      if before.Some? && Continues(before.value, e)
      then Some(before.value[e.subscription := Standing(e.toStatus, e.toPlan)])
      else None
  }

  function StandingOf(s: Subscription): Standing {
    Standing(s.state.status, s.state.planKey)
  }

  function Standings(rows: seq<Subscription>): map<nat, Standing> {
    map i: nat | 0 <= i < |rows| :: StandingOf(rows[i])
  }

  /** Event `j` is the latest one before `i` about the subscription. */
  predicate IsLatest(events: seq<SubscriptionEvent>, subscription: nat, i: nat, j: nat)
    requires i <= |events|
  {
    && j < i && events[j].subscription == subscription
    && forall k | j < k < i :: events[k].subscription != subscription
  }

  lemma {:induction false} PrefixReplays(events: seq<SubscriptionEvent>, n: nat)
    requires Replay(events).Some? && n <= |events|
    ensures Replay(events[..n]).Some?
    decreases |events|
  {
    if n == |events| {
      assert events[..n] == events;
    } else {
      var last := |events| - 1;
      PrefixReplays(events[..last], n);
      assert events[..last][..n] == events[..n];
    }
  }

  /** Replaying knows a subscription by its latest event, and knows none without events. */
  lemma {:induction false} ReplayIsLatest(events: seq<SubscriptionEvent>, subscription: nat, j: nat)
    requires Replay(events).Some? && IsLatest(events, subscription, |events|, j)
    ensures subscription in Replay(events).value
    ensures Replay(events).value[subscription] == Standing(events[j].toStatus, events[j].toPlan)
    decreases |events|
  {
    var n := |events| - 1;
    if j != n {
      assert events[n].subscription != subscription;
      ReplayIsLatest(events[..n], subscription, j);
    }
  }

  lemma {:induction false} ReplayKnowsNoOther(events: seq<SubscriptionEvent>, subscription: nat)
    requires Replay(events).Some?
    requires forall j | 0 <= j < |events| :: events[j].subscription != subscription
    ensures subscription !in Replay(events).value
    decreases |events|
  {
    if events != [] {
      ReplayKnowsNoOther(events[..|events| - 1], subscription);
    }
  }

  /**
   * A log that replays is a chain: an event opens its subscription's history, or goes on
   * from the status and plan the latest event before it left, by a legal move.
   */
  lemma ReplayedIsChained(events: seq<SubscriptionEvent>, i: nat)
    requires Replay(events).Some? && i < |events|
    ensures var e := events[i];
      && ((forall j | 0 <= j < i :: events[j].subscription != e.subscription) ==> e.fromStatus.None? && e.fromPlan.None?)
      && forall j: nat | IsLatest(events, e.subscription, i, j) ::
        && e.fromStatus == Some(events[j].toStatus) && e.fromPlan == Some(events[j].toPlan)
        && CanTransition(e.fromStatus, e.toStatus)
  {
    var e := events[i];
    PrefixReplays(events, i + 1);
    PrefixReplays(events, i);
    assert events[..i + 1][..i] == events[..i] && events[..i + 1][i] == e;
    if forall j | 0 <= j < i :: events[j].subscription != e.subscription {
      ReplayKnowsNoOther(events[..i], e.subscription);
    }
    forall j: nat | IsLatest(events, e.subscription, i, j)
      ensures e.subscription in Replay(events[..i]).value
      ensures Replay(events[..i]).value[e.subscription] == Standing(events[j].toStatus, events[j].toPlan)
    {
      ReplayIsLatest(events[..i], e.subscription, j);
    }
  }

  // --- invariant ------------------------------------------------------------------

  /** The CHECK tying a subscription's source to its provider columns. */
  predicate OriginValid(o: Origin) {
    match o.source
    case MANUAL => o.provider.None? && o.reference.None?
    case MOCK => o.provider == Some(MOCK_PROVIDER) && o.reference.Some?
    case PAYMENT_PROVIDER =>
      (o.provider == Some(RAZORPAY) || o.provider == Some(STRIPE)) && o.reference.Some?
  }

  predicate RowsValid(rows: seq<Subscription>) {
    forall i | 0 <= i < |rows| :: StateValid(rows[i].state) && OriginValid(rows[i].origin)
  }

  ghost predicate Consistent(t: Tables) {
    && RowsValid(t.subscriptions)
    && IndexesHold(t.subscriptions)
    && Replay(t.events) == Some(Standings(t.subscriptions))
  }

  /** Rows that reached EXPIRED, and every row's owner and origin, are frozen. */
  ghost predicate Advances(before: seq<Subscription>, after: seq<Subscription>) {
    && |before| <= |after|
    && forall i | 0 <= i < |before| ::
      && after[i].organisation == before[i].organisation
      && after[i].origin == before[i].origin
      && (before[i].state.status == EXPIRED ==> after[i] == before[i])
  }

  lemma ReplayAppend(events: seq<SubscriptionEvent>, e: SubscriptionEvent)
    requires Replay(events).Some? && Continues(Replay(events).value, e)
    ensures Replay(events + [e]) == Some(Replay(events).value[e.subscription := Standing(e.toStatus, e.toPlan)])
  {
    assert (events + [e])[..|events|] == events;
  }

  lemma StandingsUpdate(rows: seq<Subscription>, i: nat, row: Subscription)
    requires i < |rows|
    ensures Standings(rows[i := row]) == Standings(rows)[i := StandingOf(row)]
  {
  }

  lemma StandingsAppend(rows: seq<Subscription>, row: Subscription)
    ensures Standings(rows + [row]) == Standings(rows)[|rows| := StandingOf(row)]
  {
  }

  /** The log entry of an accepted change continues the history and ends at the row's new standing. */
  lemma ChangeKeepsHistory(t: Tables, c: Change)
    requires CurrentExists(t, c) && ApplyChange(t, c).Ok?
    requires Replay(t.events) == Some(Standings(t.subscriptions))
    ensures var after := ApplyChange(t, c).value;
      t.events < after.events && Replay(after.events) == Some(Standings(after.subscriptions))
  {
    var after := ApplyChange(t, c).value;
    var e := after.events[|t.events|];
    assert after.events == t.events + [e];
    if c.current.Some? {
      StandingsUpdate(t.subscriptions, c.current.value, after.subscriptions[c.current.value]);
    } else {
      StandingsAppend(t.subscriptions, after.subscriptions[|t.subscriptions|]);
    }
    ReplayAppend(t.events, e);
  }

  lemma ChangeAdvances(t: Tables, c: Change)
    requires CurrentExists(t, c) && ApplyChange(t, c).Ok?
    ensures Advances(t.subscriptions, ApplyChange(t, c).value.subscriptions)
  {
  }

  lemma ChangeKeepsRowsValid(t: Tables, c: Change)
    requires CurrentExists(t, c) && ApplyChange(t, c).Ok?
    requires RowsValid(t.subscriptions)
    requires c.origin.Some? ==> OriginValid(c.origin.value)
    ensures RowsValid(ApplyChange(t, c).value.subscriptions)
  {
  }

  /** Every accepted change keeps the tables consistent, only appends to the log, and thaws nothing. */
  lemma ChangeKeepsConsistent(t: Tables, c: Change)
    requires CurrentExists(t, c) && Consistent(t)
    requires c.origin.Some? ==> OriginValid(c.origin.value)
    requires ApplyChange(t, c).Ok?
    ensures Consistent(ApplyChange(t, c).value)
    ensures Advances(t.subscriptions, ApplyChange(t, c).value.subscriptions)
    ensures t.events < ApplyChange(t, c).value.events
  {
    ChangeKeepsHistory(t, c);
    ChangeAdvances(t, c);
    ChangeKeepsRowsValid(t, c);
  }

  /** The live row of an organisation is the only row of it that is not EXPIRED. */
  lemma LiveIsUnique(rows: seq<Subscription>, i: nat)
    requires OneLivePerOrganisation(rows)
    requires i < |rows| && rows[i].state.status != EXPIRED
    ensures FindLive(rows, rows[i].organisation) == Some(i)
  {
  }

  lemma ReferenceIsUnique(rows: seq<Subscription>, i: nat, provider: Provider, reference: string)
    requires OneRowPerReference(rows)
    requires i < |rows|
    requires rows[i].origin.provider == Some(provider) && rows[i].origin.reference == Some(reference)
    ensures FindByReference(rows, provider, reference) == Some(i)
  {
    var j := FindByReference(rows, provider, reference);
    if j.Some? && j.value != i {
      assert SameReference(rows[i].origin, rows[j.value].origin)
        && SameReference(rows[j.value].origin, rows[i].origin);
    }
  }

  /** Changing a row that exists never trips a unique index: the row stays the organisation's live one. */
  lemma UpdateNeverViolates(t: Tables, c: Change)
    requires CurrentExists(t, c) && Consistent(t) && c.current.Some?
    ensures ApplyChange(t, c) != Err(UniqueViolation)
    ensures ApplyChange(t, c) != Err(MissingOrigin)
  {
  }

  /** The organisation already has a live row, or the provider reference a row, that a creation would repeat. */
  predicate Taken(rows: seq<Subscription>, c: Change)
    requires c.origin.Some?
  {
    || (c.next.status != EXPIRED && FindLive(rows, c.organisation).Some?)
    || (c.origin.value.provider.Some? && c.origin.value.reference.Some?
        && FindByReference(rows, c.origin.value.provider.value, c.origin.value.reference.value).Some?)
  }

  /**
   * Transactions that overlap: a change found acceptable on earlier tables is written
   * to later ones. An update never trips a unique index; a creation trips one exactly
   * when somebody else's row took the organisation or the reference meanwhile, and
   * otherwise succeeds.
   */
  lemma LateChange(earlier: Tables, later: Tables, c: Change)
    requires Consistent(later) && |earlier.subscriptions| <= |later.subscriptions|
    requires CurrentExists(earlier, c) && ApplyChange(earlier, c).Ok?
    ensures c.current.Some? ==> ApplyChange(later, c) != Err(UniqueViolation)
    ensures c.current.None? ==>
      && (ApplyChange(later, c) == Err(UniqueViolation) <==> Taken(later.subscriptions, c))
      && (ApplyChange(later, c).Ok? <==> !Taken(later.subscriptions, c))
  {
    if c.current.Some? {
      UpdateNeverViolates(later, c);
    } else {
      CreateViolatesOnlyWhenTaken(
        later.subscriptions, Subscription(c.organisation, c.origin.value, c.next, c.syncedAt, c.now));
    }
  }

  /** Creating a row trips no index exactly when the organisation and the reference are free. */
  lemma CreateViolatesOnlyWhenTaken(rows: seq<Subscription>, row: Subscription)
    requires IndexesHold(rows)
    ensures IndexesHold(rows + [row]) <==>
      && (row.state.status != EXPIRED ==> FindLive(rows, row.organisation).None?)
      && (row.origin.provider.Some? && row.origin.reference.Some? ==>
        FindByReference(rows, row.origin.provider.value, row.origin.reference.value).None?)
  {
    var all := rows + [row];
    var n := |rows|;
    if row.state.status != EXPIRED && FindLive(rows, row.organisation).Some? {
      var i := FindLive(rows, row.organisation).value;
      assert all[i].organisation == all[n].organisation;
    } else if row.origin.provider.Some? && row.origin.reference.Some?
      && FindByReference(rows, row.origin.provider.value, row.origin.reference.value).Some? {
      var i := FindByReference(rows, row.origin.provider.value, row.origin.reference.value).value;
      assert SameReference(all[i].origin, all[n].origin);
    } else {
      forall i, j | 0 <= i < j < |all|
        ensures !SameReference(all[i].origin, all[j].origin)
      {
        if j < n {
          assert !SameReference(rows[i].origin, rows[j].origin);
        }
      }
      forall i, j | 0 <= i < j < |all| && all[i].organisation == all[j].organisation
        ensures all[i].state.status == EXPIRED || all[j].state.status == EXPIRED
      {
        if j < n {
          assert rows[i].state.status == EXPIRED || rows[j].state.status == EXPIRED;
        }
      }
    }
  }

  /**
   * Exactly which changes are accepted. An update stays with its organisation, makes a
   * legal move and takes a cancellation back only while access lasts; a creation names
   * its origin, opens with a trial or at once active unless it mirrors a provider, and
   * finds organisation and reference free.
   */
  lemma ChangeAcceptedExactly(t: Tables, c: Change)
    requires CurrentExists(t, c) && Consistent(t)
    ensures c.current.Some? ==> var row := t.subscriptions[c.current.value];
      (ApplyChange(t, c).Ok? <==>
        && row.organisation == c.organisation
        && CanTransition(Some(row.state.status), c.next.status)
        && (row.state.status == CANCELLED && c.next.status == ACTIVE ==>
            row.state.expiresAt.Some? && c.occurredAt < row.state.expiresAt.value)
        && StateValid(c.next))
    ensures c.current.None? ==>
      (ApplyChange(t, c).Ok? <==>
        && c.origin.Some?
        && (c.next.status in {TRIAL, ACTIVE} || (c.mirror && c.origin.value.source != MANUAL))
        && StateValid(c.next)
        && !Taken(t.subscriptions, c))
  {
    if c.current.Some? {
      UpdateNeverViolates(t, c);
    } else if c.origin.Some? {
      CreateViolatesOnlyWhenTaken(
        t.subscriptions, Subscription(c.organisation, c.origin.value, c.next, c.syncedAt, c.now));
    }
  }

  /** An accepted change writes its own row, leaves every other row alone, and logs what it did. */
  lemma ChangeWrites(t: Tables, c: Change)
    requires CurrentExists(t, c) && ApplyChange(t, c).Ok?
    ensures var after := ApplyChange(t, c).value;
      var id := if c.current.Some? then c.current.value else |t.subscriptions|;
      && |after.subscriptions| == (if c.current.Some? then |t.subscriptions| else |t.subscriptions| + 1)
      && (forall i | 0 <= i < |t.subscriptions| && i != id :: after.subscriptions[i] == t.subscriptions[i])
      && after.subscriptions[id].organisation == c.organisation
      && after.subscriptions[id].state == c.next
      && after.subscriptions[id].updatedAt == c.now
      && (c.current.None? ==> c.origin == Some(after.subscriptions[id].origin))
      && (c.current.Some? ==> after.subscriptions[id].origin == t.subscriptions[id].origin)
      && (c.syncedAt.Some? || c.current.None? ==> after.subscriptions[id].syncedAt == c.syncedAt)
      && (c.syncedAt.None? && c.current.Some? ==> after.subscriptions[id].syncedAt == t.subscriptions[id].syncedAt)
      && |after.events| == |t.events| + 1 && t.events <= after.events
      && var entry := after.events[|t.events|];
      && entry.subscription == id && entry.organisation == c.organisation
      && entry.kind == c.kind && entry.source == after.subscriptions[id].origin.source
      && entry.toStatus == c.next.status && entry.toPlan == c.next.planKey
      && entry.providerEventId == c.providerEventId && entry.occurredAt == c.occurredAt
  {
  }
}
