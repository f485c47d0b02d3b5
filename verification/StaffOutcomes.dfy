/** When each staff action is accepted, and what it leaves of the subscription. */
module StaffOutcomes {
  import opened Common
  import opened StateMachine
  import opened Entitlements
  import opened Subscriptions
  import opened Webhooks
  import opened StaffActions

  /** The organisation exists and the form was showing its live subscription. */
  predicate ShowsLive(t: Tables, cat: Catalogue, organisation: string, k: nat) {
    && organisation in cat.organisations
    && k < |t.subscriptions|
    && t.subscriptions[k].organisation == organisation
    && t.subscriptions[k].state.status != EXPIRED
  }

  predicate ShowsManual(t: Tables, cat: Catalogue, organisation: string, k: nat) {
    ShowsLive(t, cat, organisation, k) && t.subscriptions[k].origin.source == MANUAL
  }

  /** The action rewrote one row's state, left the rest of the tables alone and logged one event. */
  predicate OnlyState(before: Tables, after: Tables, k: nat, kind: string, now: Time) {
    && k < |before.subscriptions| == |after.subscriptions|
    && after.subscriptions[k] == before.subscriptions[k].(state := after.subscriptions[k].state, updatedAt := now)
    && (forall i | 0 <= i < |before.subscriptions| && i != k :: after.subscriptions[i] == before.subscriptions[i])
    && |after.events| == |before.events| + 1 && before.events <= after.events
    && after.events[|before.events|].subscription == k
    && after.events[|before.events|].kind == kind
    && after.events[|before.events|].occurredAt == now
    && after.events[|before.events|].providerEventId.None?
  }

  predicate After(at: Time, date: Option<Time>) {
    date.Some? ==> at < date.value
  }

  lemma LiveIsFound(t: Tables, cat: Catalogue, organisation: string, k: nat)
    requires Consistent(t)
    ensures organisation in cat.organisations && FindLive(t.subscriptions, organisation) == Some(k)
      <==> ShowsLive(t, cat, organisation, k)
  {
    if ShowsLive(t, cat, organisation, k) {
      LiveIsUnique(t.subscriptions, k);
    }
  }

  /** Whatever was decided about a row is what that row then says. */
  lemma ActWrites(t: Tables, cat: Catalogue, organisation: string, a: Action, now: Time)
    requires Consistent(t) && !a.AssignPlan? && Act(t, cat, organisation, a, now).Ok?
    ensures var c := Decide(t, cat, organisation, a, now).value; var after := Act(t, cat, organisation, a, now).value;
      && ShowsLive(t, cat, organisation, a.subscription)
      && c.kind in {"plan_changed", "updated", "reactivated", "activated", "grace_extended", "cancelled", "expired"}
      && OnlyState(t, after, a.subscription, c.kind, now)
      && after.subscriptions[a.subscription].state == c.next
  {
    ChangeWrites(t, Decide(t, cat, organisation, a, now).value);
    LiveIsFound(t, cat, organisation, a.subscription);
    hide ApplyChange, Consistent;
  }

  /** A change decided for a live row is applied if its columns are valid. */
  lemma DecidedApplies(t: Tables, cat: Catalogue, organisation: string, a: Action, now: Time)
    requires Consistent(t) && Decide(t, cat, organisation, a, now).Ok?
    ensures Act(t, cat, organisation, a, now).Ok? <==> StateValid(Decide(t, cat, organisation, a, now).value.next)
  {
    var c := Decide(t, cat, organisation, a, now).value;
    ChangeAcceptedExactly(t, c);
    hide ApplyChange;
  }

  // --- assigning a plan -------------------------------------------------------------------

  function Given(date: Option<Time>, default: Time): Time {
    match date
    case Some(time) => time
    case None => default
  }

  /** The end of an assigned trial: as entered, or the plan's trial days (one at least) after its start. */
  function TrialEnd(a: Action, plan: Plan, now: Time): Time
    requires a.AssignPlan?
  {
    var start := Given(a.trialStartsAt, Given(a.startedAt, now));
    Given(a.trialEndsAt, start + (if plan.trialDays < 1 then 1 else plan.trialDays) * 86400000)
  }

  lemma AssignAcceptedExactly(t: Tables, cat: Catalogue, organisation: string, a: Action, now: Time)
    requires Consistent(t) && a.AssignPlan?
    ensures Act(t, cat, organisation, a, now).Ok? <==>
      && organisation in cat.organisations
      && a.planKey in cat.plans && cat.plans[a.planKey].status == PLAN_ACTIVE
      && (forall i | 0 <= i < |t.subscriptions| && t.subscriptions[i].organisation == organisation ::
          t.subscriptions[i].state.status == EXPIRED)
      && Given(a.startedAt, now) <= now + 300000
      && After(now, a.expiresAt)
      && (a.trial ==>
          && now < TrialEnd(a, cat.plans[a.planKey], now)
          && Given(a.trialStartsAt, Given(a.startedAt, now)) < TrialEnd(a, cat.plans[a.planKey], now))
  {
    if Decide(t, cat, organisation, a, now).Ok? {
      DecidedApplies(t, cat, organisation, a, now);
    }
  }

  /** An accepted trial grants the plan until the trial ends; an active one until its fixed end, if it has one. */
  lemma AssignedSubscription(t: Tables, cat: Catalogue, organisation: string, a: Action, now: Time)
    requires Consistent(t) && a.AssignPlan? && Act(t, cat, organisation, a, now).Ok?
    ensures var after := Act(t, cat, organisation, a, now).value; var k := |t.subscriptions|;
      && |after.subscriptions| == k + 1
      && (forall i | 0 <= i < k :: after.subscriptions[i] == t.subscriptions[i])
      && var row := after.subscriptions[k];
      && row.organisation == organisation && row.origin == Origin(MANUAL, None, None)
      && row.syncedAt.None? && row.updatedAt == now
      && row.state.planKey == a.planKey && row.state.billingInterval == a.billingInterval
      && row.state.startedAt == Given(a.startedAt, now) && row.state.expiresAt == a.expiresAt
      && (a.planKey in cat.plans)
      && (if a.trial then
            && row.state.status == TRIAL
            && row.state.trialStartsAt == Some(Given(a.trialStartsAt, Given(a.startedAt, now)))
            && row.state.trialEndsAt == Some(TrialEnd(a, cat.plans[a.planKey], now))
            && forall at :: IsEntitling(row.state.Terms(), at) <==> at < TrialEnd(a, cat.plans[a.planKey], now)
          else
            && row.state.status == ACTIVE && row.state.trialEndsAt.None?
            && forall at :: IsEntitling(row.state.Terms(), at) <==> After(at, a.expiresAt))
      && |after.events| == |t.events| + 1 && t.events <= after.events
      && after.events[|t.events|].kind == (if a.trial then "trial_started" else "assigned")
  {
    ChangeWrites(t, Decide(t, cat, organisation, a, now).value);
    hide ApplyChange, Consistent;
  }

  // --- actions on the live subscription ---------------------------------------------------

  lemma ChangeAccepted(t: Tables, cat: Catalogue, organisation: string, a: Action, now: Time)
    requires Consistent(t) && a.ChangeSubscription?
    ensures Act(t, cat, organisation, a, now).Ok? <==>
      && ShowsManual(t, cat, organisation, a.subscription)
      && var s := t.subscriptions[a.subscription].state;
      var trialEnd := if s.status == TRIAL && a.trialEndsAt.Some? then a.trialEndsAt else s.trialEndsAt;
      && (a.planKey == s.planKey
          || (a.planKey in cat.plans && cat.plans[a.planKey].status == PLAN_ACTIVE && !a.overLimitBlocked))
      && (trialEnd != s.trialEndsAt ==> After(now, trialEnd) && Ordered(s.trialStartsAt, trialEnd))
      && (s.status == CANCELLED ==> a.expiresAt.Some?)
      && (a.expiresAt != s.expiresAt ==> After(now, a.expiresAt))
      && !(a.planKey == s.planKey && a.billingInterval == s.billingInterval
           && trialEnd == s.trialEndsAt && a.expiresAt == s.expiresAt)
  {
    LiveIsFound(t, cat, organisation, a.subscription);
    if Decide(t, cat, organisation, a, now).Ok? {
      DecidedApplies(t, cat, organisation, a, now);
    }
  }

  /** A changed subscription has the plan, interval and ends asked for and keeps its status and all other dates. */
  lemma ChangedSubscription(t: Tables, cat: Catalogue, organisation: string, a: Action, now: Time)
    requires Consistent(t) && a.ChangeSubscription? && Act(t, cat, organisation, a, now).Ok?
    ensures var after := Act(t, cat, organisation, a, now).value; var k := a.subscription;
      && k < |t.subscriptions|
      && var was := t.subscriptions[k].state;
      && OnlyState(t, after, k, if a.planKey == was.planKey then "updated" else "plan_changed", now)
      && var s := after.subscriptions[k].state;
      && s.planKey == a.planKey && s.billingInterval == a.billingInterval && s.expiresAt == a.expiresAt
      && s.trialEndsAt == (if was.status == TRIAL && a.trialEndsAt.Some? then a.trialEndsAt else was.trialEndsAt)
      && s == was.(planKey := s.planKey, billingInterval := s.billingInterval,
                    trialEndsAt := s.trialEndsAt, expiresAt := s.expiresAt)
  {
    ActWrites(t, cat, organisation, a, now);
    hide ApplyChange, Consistent;
  }

  lemma ActivateAccepted(t: Tables, cat: Catalogue, organisation: string, a: Action, now: Time)
    requires Consistent(t) && a.Activate?
    ensures Act(t, cat, organisation, a, now).Ok? <==>
      && ShowsManual(t, cat, organisation, a.subscription)
      && After(now, a.expiresAt)
      && t.subscriptions[a.subscription].state.status != ACTIVE
      && (t.subscriptions[a.subscription].state.status == CANCELLED ==>
          After(now, t.subscriptions[a.subscription].state.expiresAt))
  {
    LiveIsFound(t, cat, organisation, a.subscription);
    if Decide(t, cat, organisation, a, now).Ok? {
      DecidedApplies(t, cat, organisation, a, now);
    }
  }

  /**
   * An activated subscription grants its plan until the end given, or else the fixed end it
   * had; a cancellation's access end does not survive its reactivation.
   */
  lemma ActivatedSubscription(t: Tables, cat: Catalogue, organisation: string, a: Action, now: Time)
    requires Consistent(t) && a.Activate? && Act(t, cat, organisation, a, now).Ok?
    ensures var after := Act(t, cat, organisation, a, now).value; var k := a.subscription;
      && k < |t.subscriptions|
      && var was := t.subscriptions[k].state;
      var end := if a.expiresAt.None? && was.status != CANCELLED then was.expiresAt else a.expiresAt;
      && OnlyState(t, after, k, if was.status == CANCELLED then "reactivated" else "activated", now)
      && var s := after.subscriptions[k].state;
      && s.status == ACTIVE && s.cancelledAt.None? && s.pastDueSince.None? && s.graceEndsAt.None?
      && s.expiresAt == end
      && s == was.(status := ACTIVE, expiresAt := end, cancelledAt := None, pastDueSince := None, graceEndsAt := None)
      && forall at :: IsEntitling(s.Terms(), at) <==> After(at, end)
  {
    ActWrites(t, cat, organisation, a, now);
    hide ApplyChange, Consistent;
  }

  lemma GraceAccepted(t: Tables, cat: Catalogue, organisation: string, a: Action, now: Time)
    requires Consistent(t) && a.ExtendGrace?
    ensures Act(t, cat, organisation, a, now).Ok? <==>
      && ShowsManual(t, cat, organisation, a.subscription)
      && t.subscriptions[a.subscription].state.status == PAST_DUE
      && a.graceEndsAt.Some? && now < a.graceEndsAt.value <= now + 60 * 86400000
      && t.subscriptions[a.subscription].state.graceEndsAt.Some?
      && t.subscriptions[a.subscription].state.graceEndsAt.value < a.graceEndsAt.value
  {
    LiveIsFound(t, cat, organisation, a.subscription);
    if Decide(t, cat, organisation, a, now).Ok? {
      DecidedApplies(t, cat, organisation, a, now);
    }
  }

  /** An extended grace period keeps the plan until the new, strictly later end. */
  lemma ExtendedGrace(t: Tables, cat: Catalogue, organisation: string, a: Action, now: Time)
    requires Consistent(t) && a.ExtendGrace? && Act(t, cat, organisation, a, now).Ok?
    ensures var after := Act(t, cat, organisation, a, now).value; var k := a.subscription;
      && k < |t.subscriptions| && a.graceEndsAt.Some?
      && var was := t.subscriptions[k].state;
      && OnlyState(t, after, k, "grace_extended", now)
      && var s := after.subscriptions[k].state;
      && s == was.(graceEndsAt := s.graceEndsAt)
      && was.graceEndsAt.Some? && was.graceEndsAt.value < a.graceEndsAt.value
      && forall at :: IsEntitling(s.Terms(), at) <==> at < a.graceEndsAt.value
  {
    ActWrites(t, cat, organisation, a, now);
    assert StateValid(t.subscriptions[a.subscription].state);
    hide ApplyChange, Consistent;
  }

  /** When access ends: as chosen, else with the trial, else at the fixed end, else with the paid period. */
  predicate EndsAt(s: SubscriptionState, chosen: Option<Time>, end: Time) {
    || chosen == Some(end)
    || (chosen.None? && s.status == TRIAL && s.trialEndsAt == Some(end))
    || (chosen.None? && s.status != TRIAL && s.expiresAt == Some(end))
    || (chosen.None? && s.status != TRIAL && s.expiresAt.None? && s.currentPeriodEnd == Some(end))
  }

  lemma CancelAccepted(t: Tables, cat: Catalogue, organisation: string, a: Action, now: Time)
    requires Consistent(t) && a.Cancel?
    ensures Act(t, cat, organisation, a, now).Ok? <==>
      && ShowsManual(t, cat, organisation, a.subscription)
      && t.subscriptions[a.subscription].state.status != CANCELLED
      && exists end :: EndsAt(t.subscriptions[a.subscription].state, a.accessEndsAt, end) && now < end
  {
    LiveIsFound(t, cat, organisation, a.subscription);
    if Decide(t, cat, organisation, a, now).Ok? {
      DecidedApplies(t, cat, organisation, a, now);
      var next := Decide(t, cat, organisation, a, now).value.next;
      assert EndsAt(t.subscriptions[a.subscription].state, a.accessEndsAt, next.expiresAt.value);
    }
  }

  /** A cancelled subscription keeps its plan until access ends, and not a moment longer. */
  lemma CancelledSubscription(t: Tables, cat: Catalogue, organisation: string, a: Action, now: Time)
    requires Consistent(t) && a.Cancel? && Act(t, cat, organisation, a, now).Ok?
    ensures var after := Act(t, cat, organisation, a, now).value; var k := a.subscription;
      && k < |t.subscriptions|
      && var was := t.subscriptions[k].state;
      && OnlyState(t, after, k, "cancelled", now)
      && var s := after.subscriptions[k].state;
      && s == was.(status := CANCELLED, cancelledAt := Some(now), expiresAt := s.expiresAt)
      && s.expiresAt.Some? && now < s.expiresAt.value
      && EndsAt(was, a.accessEndsAt, s.expiresAt.value)
      && forall at :: IsEntitling(s.Terms(), at) <==> at < s.expiresAt.value
  {
    ActWrites(t, cat, organisation, a, now);
    hide ApplyChange, Consistent;
  }

  lemma ExpireAccepted(t: Tables, cat: Catalogue, organisation: string, a: Action, now: Time)
    requires Consistent(t) && a.Expire?
    ensures Act(t, cat, organisation, a, now).Ok? <==>
      && ShowsLive(t, cat, organisation, a.subscription)
      && (t.subscriptions[a.subscription].origin.source == MANUAL
          || !IsEntitling(t.subscriptions[a.subscription].state.Terms(), now))
      && !a.overLimitBlocked
  {
    LiveIsFound(t, cat, organisation, a.subscription);
    if Decide(t, cat, organisation, a, now).Ok? {
      DecidedApplies(t, cat, organisation, a, now);
    }
  }

  /** An expired subscription grants nothing at any time, and the organisation has no live one left. */
  lemma ExpiredSubscription(t: Tables, cat: Catalogue, organisation: string, a: Action, now: Time)
    requires Consistent(t) && a.Expire? && Act(t, cat, organisation, a, now).Ok?
    ensures var after := Act(t, cat, organisation, a, now).value; var k := a.subscription;
      && k < |t.subscriptions|
      && OnlyState(t, after, k, "expired", now)
      && after.subscriptions[k].state == t.subscriptions[k].state.(status := EXPIRED, endedAt := Some(now))
      && (forall at :: !IsEntitling(after.subscriptions[k].state.Terms(), at))
      && FindLive(after.subscriptions, organisation).None?
  {
    ActWrites(t, cat, organisation, a, now);
    var after := Act(t, cat, organisation, a, now).value;
    if FindLive(after.subscriptions, organisation).Some? {
      LiveIsUnique(t.subscriptions, a.subscription);
      LiveIsUnique(t.subscriptions, FindLive(after.subscriptions, organisation).value);
    }
  }
}
