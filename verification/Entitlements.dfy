/** The subscription state machine: which status may follow which. */
module StateMachine {
  import opened Common

  datatype Status = TRIAL | ACTIVE | PAST_DUE | CANCELLED | EXPIRED

  /** Legal next statuses; None stands for "no subscription yet". */
  function Transitions(from: Option<Status>): set<Status> {
    match from
    case None => {TRIAL, ACTIVE}
    case Some(TRIAL) => {TRIAL, ACTIVE, PAST_DUE, CANCELLED, EXPIRED}
    case Some(ACTIVE) => {ACTIVE, PAST_DUE, CANCELLED, EXPIRED}
    case Some(PAST_DUE) => {PAST_DUE, ACTIVE, CANCELLED, EXPIRED}
    case Some(CANCELLED) => {CANCELLED, ACTIVE, EXPIRED}
    case Some(EXPIRED) => {}
  }

  predicate CanTransition(from: Option<Status>, to: Status) {
    to in Transitions(from)
  }

  /**
   * The table in one sentence: a subscription opens with a trial or active, nothing
   * leaves EXPIRED, nothing returns to a trial, a cancellation never falls past due,
   * and every other move, staying included, is legal.
   */
  lemma LegalMoves(from: Option<Status>, to: Status)
    ensures CanTransition(from, to) <==>
      match from
      case None => to == TRIAL || to == ACTIVE
      case Some(status) =>
        && status != EXPIRED
        && (to == TRIAL ==> status == TRIAL)
        && !(status == CANCELLED && to == PAST_DUE)
  {
  }
}

/** Pure entitlement resolution: what an organisation is granted at a moment. */
module Entitlements {
  import opened Common
  import opened StateMachine

  /** The subscription columns that decide whether it grants entitlements. */
  datatype EntitlingFields = EntitlingFields(
    status: Status, trialEndsAt: Option<Time>, expiresAt: Option<Time>, graceEndsAt: Option<Time>)

  predicate Before(now: Time, end: Option<Time>) {
    end.Some? && now < end.value
  }

  predicate IsEntitling(sub: EntitlingFields, now: Time) {
    match sub.status
    case TRIAL => Before(now, sub.trialEndsAt)
    case ACTIVE => sub.expiresAt.None? || Before(now, sub.expiresAt)
    case PAST_DUE => Before(now, sub.graceEndsAt)
    case CANCELLED => Before(now, sub.expiresAt)
    case EXPIRED => false
  }

  /** Time only ever takes access away: what stopped granting never starts again. */
  lemma EntitlementOnlyEnds(sub: EntitlingFields, now: Time, later: Time)
    requires now <= later
    requires IsEntitling(sub, later)
    ensures IsEntitling(sub, now)
  {
  }

  datatype FeatureType = BOOLEAN | LIMIT | CONFIGURATION

  /** A stored JSON value; only objects carry a configuration. */
  datatype Json = JsonNull | JsonObject(text: string) | JsonOther

  datatype ValueColumns = ValueColumns(enabled: bool, limit: Option<int>, unlimited: bool, config: Json)

  datatype EntitlementValue =
    | Switch(enabled: bool)
    | Limit(limit: int)
    | Unlimited
    | Configuration(enabled: bool, config: string)

  datatype EntitlementOrigin = OVERRIDE | PLAN | DEFAULT

  datatype Feature = Feature(key: string, kind: FeatureType, defaults: ValueColumns)

  datatype Override = Override(columns: ValueColumns, expiresAt: Option<Time>)

  datatype Resolved = Resolved(
    key: string, value: EntitlementValue, origin: EntitlementOrigin, overrideExpiresAt: Option<Time>)

  function ToValue(kind: FeatureType, row: ValueColumns): EntitlementValue {
    match kind
    case BOOLEAN => Switch(row.enabled)
    case LIMIT =>
      if !row.enabled then Limit(0)
      else if row.unlimited then Unlimited
      else Limit(if row.limit.Some? && row.limit.value > 0 then row.limit.value else 0)
    case CONFIGURATION =>
      if row.config.JsonObject? then Configuration(row.enabled, row.config.text)
      else Configuration(false, "")
  }

  predicate IsOverrideActive(o: Override, now: Time) {
    o.expiresAt.None? || now < o.expiresAt.value
  }

  /** Unexpired override, then the entitling plan, then the system default. */
  function ResolveFeature(
    f: Feature, planValue: Option<ValueColumns>, o: Option<Override>, now: Time): Resolved
  {
    if o.Some? && IsOverrideActive(o.value, now) then
      Resolved(f.key, ToValue(f.kind, o.value.columns), OVERRIDE, o.value.expiresAt)
    else if planValue.Some? then
      Resolved(f.key, ToValue(f.kind, planValue.value), PLAN, None)
    else
      Resolved(f.key, ToValue(f.kind, f.defaults), DEFAULT, None)
  }
}
