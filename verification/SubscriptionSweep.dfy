/** The expiry sweep, and what organisations are granted before and after it. */
module SubscriptionSweep {
  import opened Common
  import opened StateMachine
  import opened Entitlements
  import opened Subscriptions

  const BATCH := 500

  predicate Reached(end: Option<Time>, now: Time) {
    end.Some? && end.value <= now
  }

  /** The sweep's query: MANUAL rows whose status-specific end has been reached. */
  predicate Due(s: Subscription, now: Time) {
    && s.origin.source == MANUAL
    && (|| (s.state.status == TRIAL && Reached(s.state.trialEndsAt, now))
        || (s.state.status == ACTIVE && Reached(s.state.expiresAt, now))
        || (s.state.status == PAST_DUE && Reached(s.state.graceEndsAt, now))
        || (s.state.status == CANCELLED && Reached(s.state.expiresAt, now)))
  }

  function Expiry(id: nat, s: Subscription, now: Time): Change {
    Change(s.organisation, Some(id), None, s.state.(status := EXPIRED, endedAt := Some(now)),
           None, false, "expired", None, now, now)
  }

  /** A row the sweep's transaction, looking again under the row lock, would expire. */
  predicate Expirable(t: Tables, id: nat, now: Time) {
    && id < |t.subscriptions|
    && t.subscriptions[id].state.status != EXPIRED
    && !IsEntitling(t.subscriptions[id].state.Terms(), now)
  }

  datatype Swept = Swept(tables: Tables, expired: nat, failure: Option<Error>)

  /** Row by row, each in its own transaction; an error ends the sweep. */
  function SweepRows(t: Tables, ids: seq<nat>, now: Time): (r: Swept)
    decreases |ids|
  {
    if ids == [] then Swept(t, 0, None)
    else if !Expirable(t, ids[0], now) then SweepRows(t, ids[1..], now)
    else
      match ApplyChange(t, Expiry(ids[0], t.subscriptions[ids[0]], now))
      case Err(error) => Swept(t, 0, Some(error))
      case Ok(next) =>
        var rest := SweepRows(next, ids[1..], now);
        rest.(expired := rest.expired + 1)
  }

  // --- what is granted --------------------------------------------------------------

  /** Plan and override rows, which the sweep does not touch. */
  datatype Grants = Grants(
    features: seq<Feature>,
    planFeatures: map<(string, string), ValueColumns>,
    overrides: map<(string, string), Override>)

  /** The plan of the organisation's live subscription, if that subscription grants anything at `now`. */
  function EntitlingPlan(rows: seq<Subscription>, organisation: string, now: Time): Option<string> {
    var live := FindLive(rows, organisation);
    if live.Some? && IsEntitling(rows[live.value].state.Terms(), now)
    then Some(rows[live.value].state.planKey)
    else None
  }

  function Lookup<K, V>(m: map<K, V>, k: K): Option<V> {
    if k in m then Some(m[k]) else None
  }

  /** Every feature of an organisation, resolved at `now`. */
  function LoadEntitlements(rows: seq<Subscription>, g: Grants, organisation: string, now: Time): seq<Resolved> {
    var plan := EntitlingPlan(rows, organisation, now);
    seq(|g.features|, i requires 0 <= i < |g.features| =>
      var f := g.features[i];
      ResolveFeature(
        f,
        if plan.Some? then Lookup(g.planFeatures, (plan.value, f.key)) else None,
        Lookup(g.overrides, (organisation, f.key)),
        now))
  }

  /**
   * Which stored value decides a feature: an override that has not expired, else what the
   * plan of the organisation's access-granting subscription says, else the system default.
   */
  lemma FeatureDecided(rows: seq<Subscription>, g: Grants, organisation: string, now: Time, i: nat)
    requires OneLivePerOrganisation(rows) && i < |g.features|
    ensures |LoadEntitlements(rows, g, organisation, now)| == |g.features|
    ensures var r := LoadEntitlements(rows, g, organisation, now)[i]; var f := g.features[i];
      var own := (organisation, f.key);
      var overridden := own in g.overrides
        && (g.overrides[own].expiresAt.Some? ==> now < g.overrides[own].expiresAt.value);
      var granting := set k | 0 <= k < |rows| && rows[k].organisation == organisation
        && IsEntitling(rows[k].state.Terms(), now) && (rows[k].state.planKey, f.key) in g.planFeatures;
      && r.key == f.key
      && (overridden ==> r == Resolved(
          f.key, ToValue(f.kind, g.overrides[own].columns), OVERRIDE, g.overrides[own].expiresAt))
      && (!overridden ==> forall k | k in granting :: r == Resolved(
          f.key, ToValue(f.kind, g.planFeatures[(rows[k].state.planKey, f.key)]), PLAN, None))
      && (!overridden && granting == {} ==> r == Resolved(f.key, ToValue(f.kind, f.defaults), DEFAULT, None))
  {
    forall k | 0 <= k < |rows| && rows[k].organisation == organisation && IsEntitling(rows[k].state.Terms(), now)
      ensures EntitlingPlan(rows, organisation, now) == Some(rows[k].state.planKey)
    {
      LiveIsUnique(rows, k);
    }
    var live := FindLive(rows, organisation);
    var f := g.features[i];
    if live.Some? && EntitlingPlan(rows, organisation, now).Some?
      && (rows[live.value].state.planKey, f.key) in g.planFeatures {
      assert live.value in set k | 0 <= k < |rows| && rows[k].organisation == organisation
        && IsEntitling(rows[k].state.Terms(), now) && (rows[k].state.planKey, f.key) in g.planFeatures;
    }
  }

  // --- promises ---------------------------------------------------------------------

  /** On valid rows the query selects exactly the live MANUAL subscriptions that grant nothing now. */
  lemma QueryIsExact(s: Subscription, now: Time)
    requires StateValid(s.state)
    ensures Due(s, now) <==>
      s.origin.source == MANUAL && s.state.status != EXPIRED && !IsEntitling(s.state.Terms(), now)
  {
  }

  lemma ExpirySucceeds(t: Tables, id: nat, now: Time)
    requires Consistent(t) && Expirable(t, id, now)
    ensures ApplyChange(t, Expiry(id, t.subscriptions[id], now)).Ok?
  {
    UpdateNeverViolates(t, Expiry(id, t.subscriptions[id], now));
  }

  /** Expiring a row that grants nothing at `now` takes no plan away from anyone, now or later. */
  lemma ExpiryKeepsPlan(t: Tables, id: nat, now: Time, organisation: string, later: Time)
    requires Consistent(t) && Expirable(t, id, now) && now <= later
    ensures var r := ApplyChange(t, Expiry(id, t.subscriptions[id], now));
      r.Ok? && EntitlingPlan(r.value.subscriptions, organisation, later) == EntitlingPlan(t.subscriptions, organisation, later)
  {
    ExpirySucceeds(t, id, now);
    var rows := t.subscriptions;
    var after := ApplyChange(t, Expiry(id, rows[id], now)).value.subscriptions;
    assert after == rows[id := after[id]];
    if IsEntitling(rows[id].state.Terms(), later) {
      EntitlementOnlyEnds(rows[id].state.Terms(), now, later);
    }
    var live := FindLive(rows, organisation);
    if rows[id].organisation == organisation {
      LiveIsUnique(rows, id);
    } else if live.Some? {
      assert after[live.value] == rows[live.value];
      LiveIsUnique(after, live.value);
    }
  }

  /**
   * The sweep never changes what is granted: whatever rows it was handed, every
   * feature of every organisation resolves as before, at every time from `now` on.
   */
  lemma {:induction false} SweepKeepsPlans(t: Tables, ids: seq<nat>, now: Time, organisation: string, later: Time)
    requires Consistent(t) && now <= later
    ensures var r := SweepRows(t, ids, now);
      && r.failure.None?
      && Consistent(r.tables)
      && EntitlingPlan(r.tables.subscriptions, organisation, later) == EntitlingPlan(t.subscriptions, organisation, later)
    decreases |ids|
  {
    if ids != [] {
      if Expirable(t, ids[0], now) {
        var c := Expiry(ids[0], t.subscriptions[ids[0]], now);
        ExpiryKeepsPlan(t, ids[0], now, organisation, later);
        ChangeKeepsConsistent(t, c);
        SweepKeepsPlans(ApplyChange(t, c).value, ids[1..], now, organisation, later);
      } else {
        SweepKeepsPlans(t, ids[1..], now, organisation, later);
      }
    }
  }

  lemma SweepKeepsEntitlements(t: Tables, ids: seq<nat>, now: Time, g: Grants, organisation: string, later: Time)
    requires Consistent(t) && now <= later
    ensures LoadEntitlements(SweepRows(t, ids, now).tables.subscriptions, g, organisation, later)
      == LoadEntitlements(t.subscriptions, g, organisation, later)
  {
    SweepKeepsPlans(t, ids, now, organisation, later);
  }

  /** A row after the sweep: ended now if it was listed and granted nothing, untouched otherwise. */
  predicate SweptRow(before: Subscription, after: Subscription, listed: bool, now: Time) {
    if listed && before.state.status != EXPIRED && !IsEntitling(before.state.Terms(), now)
    then after == before.(state := before.state.(status := EXPIRED, endedAt := Some(now)), updatedAt := now)
    else after == before
  }

  /** What the sweep logs about a row it ends. */
  predicate ExpiryLogged(entry: SubscriptionEvent, id: nat, before: Subscription, now: Time) {
    && entry.subscription == id && entry.organisation == before.organisation
    && entry.kind == "expired" && entry.source == before.origin.source
    && entry.fromStatus == Some(before.state.status) && entry.toStatus == EXPIRED
    && entry.toPlan == before.state.planKey
    && entry.occurredAt == now && entry.providerEventId.None?
  }

  /** Expiring one row leaves every other row as it was, and is logged. */
  lemma ExpiryTouchesOneRow(t: Tables, id: nat, now: Time)
    requires Consistent(t) && Expirable(t, id, now)
    ensures var r := ApplyChange(t, Expiry(id, t.subscriptions[id], now));
      && r.Ok? && Consistent(r.value) && |r.value.subscriptions| == |t.subscriptions|
      && SweptRow(t.subscriptions[id], r.value.subscriptions[id], true, now)
      && r.value.subscriptions[id].state.status == EXPIRED
      && (forall i | 0 <= i < |t.subscriptions| && i != id :: r.value.subscriptions[i] == t.subscriptions[i])
      && |r.value.events| == |t.events| + 1 && t.events <= r.value.events
      && ExpiryLogged(r.value.events[|t.events|], id, t.subscriptions[id], now)
  {
    ExpirySucceeds(t, id, now);
    ChangeKeepsConsistent(t, Expiry(id, t.subscriptions[id], now));
  }

  /** Later sweeps leave an expired row alone, so a row is swept once or not at all. */
  lemma SweptThenSwept(before: Subscription, mid: Subscription, after: Subscription, first: bool, later: bool, now: Time)
    requires SweptRow(before, mid, first, now) && SweptRow(mid, after, later, now)
    requires !(first && later) && (!first ==> mid == before)
    ensures SweptRow(before, after, first || later, now)
  {
  }

  lemma SweepNothing(t: Tables, now: Time)
    ensures SweepRows(t, [], now) == Swept(t, 0, None)
    ensures forall i | 0 <= i < |t.subscriptions| :: SweptRow(t.subscriptions[i], t.subscriptions[i], false, now)
  {
  }

  lemma SweepFirst(t: Tables, ids: seq<nat>, now: Time)
    requires ids != [] && Expirable(t, ids[0], now)
    requires ApplyChange(t, Expiry(ids[0], t.subscriptions[ids[0]], now)).Ok?
    ensures var rest := SweepRows(ApplyChange(t, Expiry(ids[0], t.subscriptions[ids[0]], now)).value, ids[1..], now);
      && SweepRows(t, ids, now).tables == rest.tables
      && SweepRows(t, ids, now).failure == rest.failure
      && SweepRows(t, ids, now).expired == rest.expired + 1
  {
  }

  /** The sweep ends exactly the listed rows that grant nothing, and counts and logs each of them once. */
  lemma {:induction false} SweepEndsExactlyTheListed(t: Tables, ids: seq<nat>, now: Time)
    requires Consistent(t) && NoDuplicates(ids)
    requires forall i | 0 <= i < |ids| :: Expirable(t, ids[i], now)
    ensures var r := SweepRows(t, ids, now);
      && r.failure.None?
      && r.expired == |ids|
      && |r.tables.subscriptions| == |t.subscriptions|
      && (forall i | 0 <= i < |t.subscriptions| ::
          SweptRow(t.subscriptions[i], r.tables.subscriptions[i], i in ids, now))
      && |r.tables.events| == |t.events| + |ids| && t.events <= r.tables.events
      && forall k | 0 <= k < |ids| ::
        && ids[k] < |t.subscriptions|
        && ExpiryLogged(r.tables.events[|t.events| + k], ids[k], t.subscriptions[ids[k]], now)
    decreases |ids|
  {
    hide ApplyChange, Consistent, SweepRows, SweptRow, ExpiryLogged;
    if ids == [] {
      SweepNothing(t, now);
    } else {
      var id := ids[0];
      ExpiryTouchesOneRow(t, id, now);
      SweepFirst(t, ids, now);
      var mid := ApplyChange(t, Expiry(id, t.subscriptions[id], now)).value;
      forall i | 0 <= i < |ids[1..]|
        ensures Expirable(mid, ids[1..][i], now)
      {
        assert ids[1..][i] == ids[i + 1] && ids[i + 1] != id;
        assert Expirable(t, ids[i + 1], now);
      }
      SweepEndsExactlyTheListed(mid, ids[1..], now);
      var after := SweepRows(mid, ids[1..], now).tables.subscriptions;
      forall i | 0 <= i < |t.subscriptions|
        ensures SweptRow(t.subscriptions[i], after[i], i in ids, now)
      {
        SweepComposes(t.subscriptions, mid.subscriptions, after, ids, i, now);
      }
      var events := SweepRows(mid, ids[1..], now).tables.events;
      forall k | 0 <= k < |ids|
        ensures ids[k] < |t.subscriptions| && ExpiryLogged(events[|t.events| + k], ids[k], t.subscriptions[ids[k]], now)
      {
        assert Expirable(t, ids[k], now);
        if k == 0 {
          assert mid.events <= events && events[|t.events|] == mid.events[|t.events|];
        } else {
          assert ids[1..][k - 1] == ids[k] && ids[k] != id;
          assert mid.subscriptions[ids[k]] == t.subscriptions[ids[k]];
          assert |mid.events| + (k - 1) == |t.events| + k;
        }
      }
    }
  }

  lemma SweepComposes(
    rows: seq<Subscription>, mid: seq<Subscription>, after: seq<Subscription>, ids: seq<nat>, i: nat, now: Time)
    requires ids != [] && NoDuplicates(ids) && i < |rows| == |mid| == |after|
    requires i == ids[0] ==> SweptRow(rows[i], mid[i], true, now)
    requires i != ids[0] ==> mid[i] == rows[i]
    requires SweptRow(mid[i], after[i], i in ids[1..], now)
    ensures SweptRow(rows[i], after[i], i in ids, now)
  {
    assert ids == [ids[0]] + ids[1..];
    assert ids[0] !in ids[1..];
    SweptThenSwept(rows[i], mid[i], after[i], i == ids[0], i in ids[1..], now);
  }
}
