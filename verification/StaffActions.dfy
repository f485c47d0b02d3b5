/**
 * Manual subscription management by staff: each action either decides on one
 * change to the organisation's live subscription or refuses.
 */
module StaffActions {
  import opened Common
  import opened StateMachine
  import opened Entitlements
  import opened Subscriptions
  import opened Webhooks

  const DAY := 24 * 3600 * 1000
  const FUTURE_SKEW_MS := 5 * 60 * 1000
  const MAX_GRACE_EXTENSION_DAYS := 60

  /**
   * What staff may ask for. `overLimitBlocked` stands for the over-limit
   * pre-check failing without acknowledgement; it depends on usage rows that
   * are not part of billing.
   */
  datatype Action =
    | AssignPlan(planKey: string, trial: bool, billingInterval: Option<Interval>, startedAt: Option<Time>,
                 trialStartsAt: Option<Time>, trialEndsAt: Option<Time>, expiresAt: Option<Time>)
    | ChangeSubscription(subscription: nat, planKey: string, billingInterval: Option<Interval>,
                         trialEndsAt: Option<Time>, expiresAt: Option<Time>, overLimitBlocked: bool)
    | Activate(subscription: nat, expiresAt: Option<Time>)
    | ExtendGrace(subscription: nat, graceEndsAt: Option<Time>)
    | Cancel(subscription: nat, accessEndsAt: Option<Time>)
    | Expire(subscription: nat, overLimitBlocked: bool)

  /** A date staff entered must lie in the future; no date is fine. */
  predicate FutureOrAbsent(date: Option<Time>, now: Time) {
    date.Some? ==> now < date.value
  }

  function Max(a: int, b: int): int {
    if a < b then b else a
  }

  function AssignTrialStart(a: Action, startedAt: Time): Time
    requires a.AssignPlan?
  {
    if a.trialStartsAt.Some? then a.trialStartsAt.value else startedAt
  }

  function AssignTrialEnd(a: Action, plan: Plan, startedAt: Time): Time
    requires a.AssignPlan?
  {
    if a.trialEndsAt.Some? then a.trialEndsAt.value
    else AssignTrialStart(a, startedAt) + Max(plan.trialDays, 1) * DAY
  }

  function DecideAssign(t: Tables, cat: Catalogue, organisation: string, a: Action, now: Time): Result<Change, Error>
    requires a.AssignPlan?
  {
    var startedAt := if a.startedAt.Some? then a.startedAt.value else now;
    if now + FUTURE_SKEW_MS < startedAt || !FutureOrAbsent(a.expiresAt, now) then Err(ValidationFailed)
    else if organisation !in cat.organisations then Err(NotFound)
    else if a.planKey !in cat.plans || cat.plans[a.planKey].status != PLAN_ACTIVE then Err(ValidationFailed)
    else if FindLive(t.subscriptions, organisation).Some? then Err(Conflict)
    else
      var plan := cat.plans[a.planKey];
      var trialStartsAt := AssignTrialStart(a, startedAt);
      var trialEndsAt := AssignTrialEnd(a, plan, startedAt);
      if a.trial && (trialEndsAt <= now || trialEndsAt <= trialStartsAt) then Err(ValidationFailed)
      else
        var next := SubscriptionState(
          a.planKey, if a.trial then TRIAL else ACTIVE, a.billingInterval, startedAt,
          if a.trial then Some(trialStartsAt) else None, if a.trial then Some(trialEndsAt) else None,
          None, None, a.expiresAt, None, None, None, None);
        Ok(Change(organisation, None, Some(Origin(MANUAL, None, None)), next, None, false,
                  if a.trial then "trial_started" else "assigned", None, now, now))
  }

  /** The live MANUAL subscription the form was showing; staff may also end an ended provider one. */
  function LockManual(
    t: Tables, cat: Catalogue, organisation: string, subscription: nat, allowEnded: bool, now: Time)
    : (r: Result<nat, Error>)
    ensures r.Ok? ==> r.value < |t.subscriptions| && FindLive(t.subscriptions, organisation) == Some(r.value)
  {
    if organisation !in cat.organisations then Err(NotFound)
    else
      var live := FindLive(t.subscriptions, organisation);
      if live != Some(subscription) then Err(Conflict)
      else
        var row := t.subscriptions[subscription];
        if row.origin.source != MANUAL && !(allowEnded && !IsEntitling(row.state.Terms(), now)) then Err(Conflict)
        else Ok(subscription)
  }

  function StaffChange(organisation: string, id: nat, next: SubscriptionState, kind: string, now: Time): Change {
    Change(organisation, Some(id), None, next, None, false, kind, None, now, now)
  }

  function DecideChange(
    cat: Catalogue, organisation: string, id: nat, s: SubscriptionState, a: Action, now: Time): Result<Change, Error>
    requires a.ChangeSubscription?
  {
    if a.planKey != s.planKey && (a.planKey !in cat.plans || cat.plans[a.planKey].status != PLAN_ACTIVE) then
      Err(ValidationFailed)
    else
      var next := s.(
        planKey := a.planKey,
        billingInterval := a.billingInterval,
        trialEndsAt := if s.status == TRIAL && a.trialEndsAt.Some? then a.trialEndsAt else s.trialEndsAt,
        expiresAt := a.expiresAt);
      if s.status == TRIAL && a.trialEndsAt.Some? && a.trialEndsAt != s.trialEndsAt
        && !FutureOrAbsent(a.trialEndsAt, now) then Err(ValidationFailed)
      else if s.status == CANCELLED && next.expiresAt.None? then Err(ValidationFailed)
      else if next.expiresAt != s.expiresAt && !FutureOrAbsent(next.expiresAt, now) then Err(ValidationFailed)
      else if next == s then Err(Conflict)
      else if next.planKey != s.planKey && a.overLimitBlocked then Err(Conflict)
      else
        Ok(StaffChange(organisation, id, next, if next.planKey != s.planKey then "plan_changed" else "updated", now))
  }

  function DecideActivate(organisation: string, id: nat, s: SubscriptionState, a: Action, now: Time): Result<Change, Error>
    requires a.Activate?
  {
    if s.status == ACTIVE then Err(Conflict)
    else if s.status == CANCELLED && !IsEntitling(s.Terms(), now) then Err(Conflict)
    else
      var next := s.(
        status := ACTIVE,
        expiresAt := if s.status == CANCELLED || a.expiresAt.Some? then a.expiresAt else s.expiresAt,
        cancelledAt := None, pastDueSince := None, graceEndsAt := None);
      Ok(StaffChange(organisation, id, next, if s.status == CANCELLED then "reactivated" else "activated", now))
  }

  /** Dates checked before the transaction starts. */
  predicate DatesAcceptable(a: Action, now: Time) {
    match a
    case Activate(_, expiresAt) => FutureOrAbsent(expiresAt, now)
    case ExtendGrace(_, graceEndsAt) =>
      graceEndsAt.Some? && now < graceEndsAt.value <= now + MAX_GRACE_EXTENSION_DAYS * DAY
    case _ => true
  }

  function DecideExtendGrace(organisation: string, id: nat, s: SubscriptionState, a: Action, now: Time): Result<Change, Error>
    requires a.ExtendGrace? && a.graceEndsAt.Some?
  {
    if s.status != PAST_DUE then Err(Conflict)
    else if s.graceEndsAt.Some? && a.graceEndsAt.value <= s.graceEndsAt.value then Err(ValidationFailed)
    else Ok(StaffChange(organisation, id, s.(graceEndsAt := a.graceEndsAt), "grace_extended", now))
  }

  /** Access ends when staff say, or when it would have ended anyway. */
  function AccessEnd(s: SubscriptionState, chosen: Option<Time>): Option<Time> {
    if chosen.Some? then chosen
    else if s.status == TRIAL then s.trialEndsAt
    else if s.expiresAt.Some? then s.expiresAt
    else s.currentPeriodEnd
  }

  function DecideCancel(organisation: string, id: nat, s: SubscriptionState, a: Action, now: Time): Result<Change, Error>
    requires a.Cancel?
  {
    var accessEndsAt := AccessEnd(s, a.accessEndsAt);
    if s.status == CANCELLED then Err(Conflict)
    else if accessEndsAt.None? || accessEndsAt.value <= now then Err(ValidationFailed)
    else
      Ok(StaffChange(organisation, id,
        s.(status := CANCELLED, cancelledAt := Some(now), expiresAt := accessEndsAt), "cancelled", now))
  }

  function DecideExpire(organisation: string, id: nat, s: SubscriptionState, a: Action, now: Time): Result<Change, Error>
    requires a.Expire?
  {
    if a.overLimitBlocked then Err(Conflict)
    else Ok(StaffChange(organisation, id, s.(status := EXPIRED, endedAt := Some(now)), "expired", now))
  }

  /** The change a staff action asks for, or why it is refused. */
  function Decide(t: Tables, cat: Catalogue, organisation: string, a: Action, now: Time): (r: Result<Change, Error>)
    ensures r.Ok? ==> CurrentExists(t, r.value) && r.value.organisation == organisation
    ensures r.Ok? && r.value.current.Some? ==>
      FindLive(t.subscriptions, organisation) == r.value.current && r.value.origin.None?
    ensures r.Ok? && r.value.current.None? ==>
      FindLive(t.subscriptions, organisation).None? && r.value.origin == Some(Origin(MANUAL, None, None))
  {
    if a.AssignPlan? then DecideAssign(t, cat, organisation, a, now)
    else if !DatesAcceptable(a, now) then Err(ValidationFailed)
    else
      match LockManual(t, cat, organisation, a.subscription, a.Expire?, now)
      case Err(error) => Err(error)
      case Ok(id) =>
        var s := t.subscriptions[id].state;
        if a.ChangeSubscription? then DecideChange(cat, organisation, id, s, a, now)
        else if a.Activate? then DecideActivate(organisation, id, s, a, now)
        else if a.ExtendGrace? then DecideExtendGrace(organisation, id, s, a, now)
        else if a.Cancel? then DecideCancel(organisation, id, s, a, now)
        else DecideExpire(organisation, id, s, a, now)
  }

  /** One staff transaction: decide, then apply; any refusal leaves the tables alone. */
  function Act(t: Tables, cat: Catalogue, organisation: string, a: Action, now: Time): Result<Tables, Error> {
    match Decide(t, cat, organisation, a, now)
    case Err(error) => Err(error)
    case Ok(change) => ApplyChange(t, change)
  }

  /** A staff action that no other transaction overlaps never trips a unique index. */
  lemma ActNeverViolates(t: Tables, cat: Catalogue, organisation: string, a: Action, now: Time)
    requires Consistent(t)
    ensures Act(t, cat, organisation, a, now) != Err(UniqueViolation)
  {
    var r := Decide(t, cat, organisation, a, now);
    if r.Ok? {
      var c := r.value;
      if c.current.Some? {
        UpdateNeverViolates(t, c);
      } else {
        CreateViolatesOnlyWhenTaken(
          t.subscriptions, Subscription(organisation, c.origin.value, c.next, c.syncedAt, c.now));
      }
    }
  }

  /**
   * Decided on earlier tables and written to later ones, a staff action trips an index
   * exactly when it assigns a plan and the organisation got a live subscription meanwhile;
   * the service reports that as a conflict.
   */
  lemma LateActionViolates(
    earlier: Tables, later: Tables, cat: Catalogue, organisation: string, a: Action, now: Time)
    requires Consistent(later) && |earlier.subscriptions| <= |later.subscriptions|
    requires Act(earlier, cat, organisation, a, now).Ok?
    ensures ApplyChange(later, Decide(earlier, cat, organisation, a, now).value) == Err(UniqueViolation)
      <==> a.AssignPlan? && FindLive(later.subscriptions, organisation).Some?
  {
    var c := Decide(earlier, cat, organisation, a, now).value;
    LateChange(earlier, later, c);
  }

  /** The state machine alone never refuses a staff action that its own checks let through. */
  lemma ActNeverIllegal(t: Tables, cat: Catalogue, organisation: string, a: Action, now: Time)
    requires Consistent(t)
    ensures Act(t, cat, organisation, a, now) != Err(IllegalTransition)
  {
  }
}
