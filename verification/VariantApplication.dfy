/** Applying an option plan as a whole, and what the product's rows are afterwards. */
module VariantApplication {
  import opened Common
  import opened Numerals
  import opened Text
  import opened Combinations
  import opened VariantPlan
  import opened VariantRows

  // --- keys across the whole plan ------------------------------------------------------

  /** Option ids differ, and so do all value ids: they are primary keys. */
  predicate CurrentSound(current: seq<CurrentOption>) {
    && IdsSound(current)
    && (forall a, b | 0 <= a < b < |current| :: current[a].id != current[b].id)
    && (forall a, b | 0 <= a < b < |current| :: forall v | v in current[a].valueIds :: v !in current[b].valueIds)
  }

  lemma {:induction false} OwnedByItsOption(current: seq<CurrentOption>, id: string, v: string)
    requires v in OwnValueIds(current, Some(id))
    ensures exists a | 0 <= a < |current| :: current[a].id == id && v in current[a].valueIds
    decreases |current|
  {
    var n := |current| - 1;
    if current[n].id != id {
      OwnedByItsOption(current[..n], id, v);
      var a :| 0 <= a < n && current[..n][a].id == id && v in current[..n][a].valueIds;
      assert current[a].id == id;
    }
  }

  lemma OwnersDiffer(current: seq<CurrentOption>, a: string, b: string, v: string)
    requires CurrentSound(current) && a != b
    requires v in OwnValueIds(current, Some(a))
    ensures v !in OwnValueIds(current, Some(b))
  {
    OwnedByItsOption(current, a, v);
    var i :| 0 <= i < |current| && current[i].id == a && v in current[i].valueIds;
    if v in OwnValueIds(current, Some(b)) {
      OwnedByItsOption(current, b, v);
    }
  }

  lemma NewKeyShape(i: nat, j: nat)
    ensures ("new:" + Digits(i) + ":" + Digits(j))[4..] == Digits(i) + [':'] + Digits(j)
  {
    var tail := Digits(i) + [':'] + Digits(j);
    assert "new:" + Digits(i) + ":" + Digits(j) == "new:" + tail;
    assert ("new:" + tail)[4..] == tail;
  }

  lemma NewKeysDiffer(i: nat, j: nat, i': nat, j': nat)
    requires "new:" + Digits(i) + ":" + Digits(j) == "new:" + Digits(i') + ":" + Digits(j')
    ensures i == i' && j == j'
  {
    NewKeyShape(i, j);
    NewKeyShape(i', j');
    SeparatorSplits(':', Digits(i), Digits(j), Digits(i'), Digits(j'));
    DigitsInjective(i, i');
    DigitsInjective(j, j');
  }

  lemma KeyKinds(current: seq<CurrentOption>, o: DesiredOption, i: nat, j: nat)
    requires IdsSound(current) && OptionSound(current, o) && j < |o.values|
    ensures o.values[j].id.Some? ==>
      KeyOf(o.values[j], i, j) == o.values[j].id.value && o.id.Some?
      && KeyOf(o.values[j], i, j) in OwnValueIds(current, o.id)
    ensures o.values[j].id.Some? <==> ':' !in KeyOf(o.values[j], i, j)
  {
    assert ValueSound(o.values[j], OwnValueIds(current, o.id));
    OwnIdsAreIds(current, o.id);
    NewKeyIsPlain(i, j);
  }

  /** No two planned values share a key, whichever options they are in. */
  lemma PlannedKeysDistinct(current: seq<CurrentOption>, desired: seq<DesiredOption>)
    requires CurrentSound(current) && Acceptable(current, desired)
    ensures KeysDistinct(PlanOptions(desired))
  {
    forall i, j, i', j' | 0 <= i < |desired| && 0 <= j < |desired[i].values|
        && 0 <= i' < |desired| && 0 <= j' < |desired[i'].values|
        && KeyOf(desired[i].values[j], i, j) == KeyOf(desired[i'].values[j'], i', j')
      ensures i == i' && j == j'
    {
      KeyKinds(current, desired[i], i, j);
      KeyKinds(current, desired[i'], i', j');
      if desired[i].values[j].id.None? {
        NewKeysDiffer(i, j, i', j');
      } else if i != i' {
        assert desired[i].id != desired[i'].id;
        OwnersDiffer(current, desired[i].id.value, desired[i'].id.value, desired[i].values[j].id.value);
      } else {
        assert ValuesSound(desired[i].values, OwnValueIds(current, desired[i].id));
      }
    }
  }

  // --- what applying needs of a plan ----------------------------------------------------

  function KeptCombinations(keep: seq<Kept>): seq<seq<string>> {
    seq(|keep|, i requires 0 <= i < |keep| => keep[i].combination)
  }

  /** Kept and created combinations are choices, all of them different, and none is missing. */
  ghost predicate PlanSound(plan: Plan) {
    && KeysDistinct(plan.options)
    && NoDuplicates(KeptCombinations(plan.keep))
    && NoDuplicates(plan.create)
    && (forall c :: !(IsKept(plan.keep, c) && c in plan.create))
    && (forall c :: Chooses(c, KeyLists(plan.options)) <==> IsKept(plan.keep, c) || c in plan.create)
  }

  lemma PlansAreSound(current: seq<CurrentOption>, variants: seq<CurrentVariant>, desired: seq<DesiredOption>)
    requires CurrentSound(current) && Acceptable(current, desired) && NonEmpty(PlanOptions(desired))
    ensures PlanSound(PlanChange(variants, desired))
  {
    PlannedKeysDistinct(current, desired);
    KeptAndCreatedAreTheProduct(current, variants, desired);
  }

  /** The product's rows: live ones are those loaded, signed with value ids; deleted ones carry their tag. */
  predicate ProductRows(rows: Rows, loaded: seq<string>) {
    && UniqueSignatures(rows)
    && NoDuplicates(loaded)
    && (forall id | id in loaded :: id in rows && !rows[id].deleted)
    && (forall id | id in rows && !rows[id].deleted :: id in loaded)
    && (forall id | id in rows ::
        if rows[id].deleted then rows[id].signature == DeletedTag(id) else ColonFree(rows[id].signature))
  }

  lemma {:induction false} CountOfDistinct(ids: seq<string>)
    requires NoDuplicates(ids)
    ensures forall id :: multiset(ids)[id] <= 1
    decreases |ids|
  {
    if ids != [] {
      var n := |ids| - 1;
      CountOfDistinct(ids[..n]);
      assert ids == ids[..n] + [ids[n]];
      assert ids[n] !in ids[..n];
    }
  }

  lemma CountOfMember(ids: seq<string>, id: string)
    ensures id in ids <==> 1 <= multiset(ids)[id]
  {
    assert id in ids <==> id in multiset(ids);
  }

  lemma DistinctFromCount(ids: seq<string>)
    requires forall id :: multiset(ids)[id] <= 1
    ensures NoDuplicates(ids)
  {
    forall i, j | 0 <= i < j < |ids|
      ensures ids[i] != ids[j]
    {
      var before, after := ids[..j], ids[j..];
      assert ids == before + after;
      assert multiset(ids) == multiset(before) + multiset(after);
      assert before[i] == ids[i] && after[0] == ids[j];
      CountOfMember(before, ids[i]);
      CountOfMember(after, ids[j]);
      assert multiset(ids)[ids[j]] == multiset(before)[ids[j]] + multiset(after)[ids[j]];
    }
  }

  /** Splitting the loaded variants in two leaves two lists without repetitions and nothing in common. */
  lemma PartitionIsDisjoint(loaded: seq<string>, keep: seq<string>, remove: seq<string>)
    requires NoDuplicates(loaded) && multiset(keep) + multiset(remove) == multiset(loaded)
    ensures NoDuplicates(keep) && NoDuplicates(remove)
    ensures forall id | id in keep :: id !in remove
    ensures forall id :: id in loaded <==> id in keep || id in remove
  {
    CountOfDistinct(loaded);
    forall id
      ensures multiset(keep)[id] + multiset(remove)[id] == multiset(loaded)[id] <= 1
    {
      assert (multiset(keep) + multiset(remove))[id] == multiset(loaded)[id];
    }
    DistinctFromCount(keep);
    DistinctFromCount(remove);
    forall id
      ensures id in loaded <==> id in keep || id in remove
      ensures !(id in keep && id in remove)
    {
      CountOfMember(loaded, id);
      CountOfMember(keep, id);
      CountOfMember(remove, id);
    }
  }

  // --- the whole application -------------------------------------------------------------

  predicate KeysIn(cs: seq<seq<string>>, keyToId: map<string, string>) {
    forall k | 0 <= k < |cs| :: forall i | 0 <= i < |cs[k]| :: cs[k][i] in keyToId
  }

  function ResolveAll(keyToId: map<string, string>, cs: seq<seq<string>>): seq<seq<string>>
    requires KeysIn(cs, keyToId)
  {
    seq(|cs|, k requires 0 <= k < |cs| => Resolve(keyToId, cs[k]))
  }

  /** New variants copy the first kept variant, else the first variant, else the store's defaults. */
  function Template(rows: Rows, loaded: seq<string>, kept: set<string>, currency: string): Terms {
    var first := FirstIn(loaded, kept);
    if first.Some? && first.value in rows then rows[first.value].terms
    else if loaded != [] && loaded[0] in rows then rows[loaded[0]].terms
    else Terms(currency, 0, None, None, true, true, None, false, true)
  }

  function FirstIn(ids: seq<string>, wanted: set<string>): Option<string> {
    if ids == [] then None
    else if ids[0] in wanted then Some(ids[0])
    else FirstIn(ids[1..], wanted)
  }

  function Before(rows: Rows, plan: Plan): Rows {
    Parked(Unlinked(Removed(rows, set id | id in plan.remove)), set id | id in KeptIds(plan.keep))
  }

  function Applied(
    rows: Rows, plan: Plan, keyToId: map<string, string>, valueText: map<string, string>,
    valueIds: seq<seq<string>>, createdIds: seq<string>, terms: Terms): Rows
    requires KeysIn(KeptCombinations(plan.keep), keyToId) && KeysIn(plan.create, keyToId)
    requires |createdIds| == |plan.create|
  {
    WithCreated(
      Settled(
        Before(rows, plan),
        Pair(KeptIds(plan.keep), ResolveAll(keyToId, KeptCombinations(plan.keep))), valueIds, valueText),
      Pair(createdIds, ResolveAll(keyToId, plan.create)), terms, valueIds, valueText)
  }

  /** After removal and parking no row is signed with value ids any more. */
  lemma BeforeIsTagged(rows: Rows, loaded: seq<string>, plan: Plan)
    requires ProductRows(rows, loaded)
    requires multiset(KeptIds(plan.keep)) + multiset(plan.remove) == multiset(loaded)
    ensures var before := Before(rows, plan);
      && (forall id | id in before :: !ColonFree(before[id].signature))
      && (forall id | id in KeptIds(plan.keep) :: id in before && !before[id].deleted)
      && (forall id | id in before && id !in KeptIds(plan.keep) :: before[id].deleted)
  {
    PartitionIsDisjoint(loaded, KeptIds(plan.keep), plan.remove);
    var before := Before(rows, plan);
    forall id | id in before
      ensures !ColonFree(before[id].signature)
    {
      TagsDiffer(id, id);
    }
  }

  lemma ResolvedDistinct(
    options: seq<PlannedOption>, valueIds: seq<seq<string>>, keyToId: map<string, string>, cs: seq<seq<string>>)
    requires Assigns(options, valueIds) && Resolves(options, valueIds, keyToId)
    requires NoDuplicates(cs) && forall k | 0 <= k < |cs| :: Chooses(cs[k], KeyLists(options))
    ensures KeysIn(cs, keyToId)
    ensures NoDuplicates(ResolveAll(keyToId, cs))
    ensures forall k | 0 <= k < |cs| :: Chooses(ResolveAll(keyToId, cs)[k], valueIds)
  {
    forall k | 0 <= k < |cs|
      ensures forall i | 0 <= i < |cs[k]| :: cs[k][i] in keyToId
      ensures Chooses(Resolve(keyToId, cs[k]), valueIds)
    {
      ResolvedChooses(options, valueIds, keyToId, cs[k]);
    }
    forall i, k | 0 <= i < k < |cs|
      ensures ResolveAll(keyToId, cs)[i] != ResolveAll(keyToId, cs)[k]
    {
      ResolveInjective(options, valueIds, keyToId, cs[i], cs[k]);
    }
  }

  /** Both lists of combinations are choices of keys, and so resolve. */
  lemma PlanResolves(plan: Plan, valueIds: seq<seq<string>>, keyToId: map<string, string>)
    requires PlanSound(plan) && Assigns(plan.options, valueIds) && Resolves(plan.options, valueIds, keyToId)
    ensures KeysIn(KeptCombinations(plan.keep), keyToId) && KeysIn(plan.create, keyToId)
    ensures NoDuplicates(ResolveAll(keyToId, KeptCombinations(plan.keep)))
    ensures NoDuplicates(ResolveAll(keyToId, plan.create))
    ensures forall k | 0 <= k < |plan.keep| :: Chooses(ResolveAll(keyToId, KeptCombinations(plan.keep))[k], valueIds)
    ensures forall k | 0 <= k < |plan.create| :: Chooses(ResolveAll(keyToId, plan.create)[k], valueIds)
  {
    var kept := KeptCombinations(plan.keep);
    forall k | 0 <= k < |kept|
      ensures Chooses(kept[k], KeyLists(plan.options))
    {
      assert plan.keep[k].combination == kept[k];
      assert IsKept(plan.keep, kept[k]);
    }
    forall k | 0 <= k < |plan.create|
      ensures Chooses(plan.create[k], KeyLists(plan.options))
    {
      assert plan.create[k] in plan.create;
    }
    ResolvedDistinct(plan.options, valueIds, keyToId, kept);
    ResolvedDistinct(plan.options, valueIds, keyToId, plan.create);
  }

  lemma CreatedSignaturesFree(
    plan: Plan, valueIds: seq<seq<string>>, keyToId: map<string, string>, i: nat, k: nat)
    requires PlanSound(plan) && Assigns(plan.options, valueIds) && Resolves(plan.options, valueIds, keyToId)
    requires i < |plan.keep| && k < |plan.create|
    ensures KeysIn(KeptCombinations(plan.keep), keyToId) && KeysIn(plan.create, keyToId)
    ensures Signature(ResolveAll(keyToId, KeptCombinations(plan.keep))[i]) != Signature(ResolveAll(keyToId, plan.create)[k])
  {
    PlanResolves(plan, valueIds, keyToId);
    var a, b := plan.keep[i].combination, plan.create[k];
    assert IsKept(plan.keep, a) && b in plan.create;
    assert KeptCombinations(plan.keep)[i] == a;
    ResolveInjective(plan.options, valueIds, keyToId, a, b);
    SignaturesOfChoices(valueIds, Resolve(keyToId, a), Resolve(keyToId, b));
  }

  /** While the new rows are added, the settled rows never carry a signature about to be used. */
  lemma SettledLeavesRoom(
    rows: Rows, plan: Plan, valueIds: seq<seq<string>>, keyToId: map<string, string>, valueText: map<string, string>)
    requires PlanSound(plan) && Assigns(plan.options, valueIds) && Resolves(plan.options, valueIds, keyToId)
    requires NoDuplicates(KeptIds(plan.keep))
    requires KeysIn(KeptCombinations(plan.keep), keyToId) && KeysIn(plan.create, keyToId)
    requires forall id | id in rows :: !ColonFree(rows[id].signature)
    ensures var settled := Settled(
        rows, Pair(KeptIds(plan.keep), ResolveAll(keyToId, KeptCombinations(plan.keep))), valueIds, valueText);
      forall id, k | id in settled && 0 <= k < |plan.create| ::
        settled[id].signature != Signature(ResolveAll(keyToId, plan.create)[k])
  {
    PlanResolves(plan, valueIds, keyToId);
    var ids, values := KeptIds(plan.keep), ResolveAll(keyToId, KeptCombinations(plan.keep));
    PairLookup(ids, values);
    var settled := Settled(rows, Pair(ids, values), valueIds, valueText);
    forall id, k | id in settled && 0 <= k < |plan.create|
      ensures settled[id].signature != Signature(ResolveAll(keyToId, plan.create)[k])
    {
      var created := ResolveAll(keyToId, plan.create)[k];
      SignaturesOfChoices(valueIds, created, created);
      if id in ids {
        var i :| 0 <= i < |ids| && ids[i] == id;
        CreatedSignaturesFree(plan, valueIds, keyToId, i, k);
      }
    }
  }

  /** The first half: remove what goes, rebuild the options, park what stays. */
  method ClearTheWay(table: VariantTable, loaded: seq<string>, plan: Plan, valueIds: seq<seq<string>>)
    returns (softDeleted: nat, hardDeleted: nat, keyToId: map<string, string>, valueText: map<string, string>)
    requires table.Recorded() && ProductRows(table.rows, loaded)
    requires KeysDistinct(plan.options) && Assigns(plan.options, valueIds)
    requires multiset(KeptIds(plan.keep)) + multiset(plan.remove) == multiset(loaded)
    modifies table
    ensures table.Recorded() && old(table.history) <= table.history
    ensures softDeleted + hardDeleted == |plan.remove|
    ensures softDeleted == |WithHistory(old(table.rows), set id | id in plan.remove)|
    ensures Resolves(plan.options, valueIds, keyToId) && ShowsTexts(plan.options, valueIds, valueText)
    ensures table.rows == Before(old(table.rows), plan)
    ensures UniqueSignatures(table.rows) && AllTagged(table.rows)
    ensures forall id | id in table.rows :: !ColonFree(table.rows[id].signature)
    ensures NoDuplicates(KeptIds(plan.keep)) && forall id | id in KeptIds(plan.keep) :: id in table.rows
    ensures table.rows.Keys <= old(table.rows).Keys
  {
    PartitionIsDisjoint(loaded, KeptIds(plan.keep), plan.remove);
    BeforeIsTagged(table.rows, loaded, plan);
    softDeleted, hardDeleted := table.RemoveVariants(plan.remove);
    keyToId, valueText := table.RebuildOptions(plan.options, valueIds);
    table.ParkVariants(KeptIds(plan.keep));
  }

  /** The second half: settle the kept rows, then create the new ones. */
  method SettleAndCreate(
    table: VariantTable, plan: Plan, keyToId: map<string, string>, valueText: map<string, string>,
    valueIds: seq<seq<string>>, createdIds: seq<string>, terms: Terms)
    requires PlanSound(plan) && Assigns(plan.options, valueIds) && Resolves(plan.options, valueIds, keyToId)
    requires table.Recorded() && AllTagged(table.rows)
    requires forall id | id in table.rows :: !ColonFree(table.rows[id].signature)
    requires NoDuplicates(KeptIds(plan.keep)) && forall id | id in KeptIds(plan.keep) :: id in table.rows
    requires |createdIds| == |plan.create| && NoDuplicates(createdIds)
    requires forall id | id in createdIds :: id !in table.rows
    requires KeysIn(KeptCombinations(plan.keep), keyToId) && KeysIn(plan.create, keyToId)
    modifies table
    ensures table.rows == WithCreated(
      Settled(old(table.rows), Pair(KeptIds(plan.keep), ResolveAll(keyToId, KeptCombinations(plan.keep))), valueIds, valueText),
      Pair(createdIds, ResolveAll(keyToId, plan.create)), terms, valueIds, valueText)
    ensures UniqueSignatures(table.rows) && table.Recorded() && old(table.history) <= table.history
  {
    PlanResolves(plan, valueIds, keyToId);
    assert UniqueSignatures(table.rows);
    hide LogSound;
    SettledLeavesRoom(table.rows, plan, valueIds, keyToId, valueText);
    table.SettleVariants(
      KeptIds(plan.keep), ResolveAll(keyToId, KeptCombinations(plan.keep)), valueIds, valueText);
    table.CreateVariants(createdIds, ResolveAll(keyToId, plan.create), terms, valueIds, valueText);
  }

  /**
   * Applies a plan row by row. The table's history shows every state it went through
   * meanwhile: in each the signatures are different, and each follows from the one
   * before by writing one row, or by the cascade that drops the links.
   */
  method ApplyPlan(
    table: VariantTable, loaded: seq<string>, plan: Plan, valueIds: seq<seq<string>>, createdIds: seq<string>,
    currency: string)
    returns (softDeleted: nat, hardDeleted: nat, keyToId: map<string, string>, valueText: map<string, string>)
    requires table.Recorded() && ProductRows(table.rows, loaded) && PlanSound(plan) && Assigns(plan.options, valueIds)
    requires multiset(KeptIds(plan.keep)) + multiset(plan.remove) == multiset(loaded)
    requires |createdIds| == |plan.create| && NoDuplicates(createdIds)
    requires forall id | id in createdIds :: id !in table.rows
    modifies table
    ensures old(table.history) <= table.history && table.history[|table.history| - 1] == table.rows
    ensures forall i | 0 <= i < |table.history| :: UniqueSignatures(table.history[i])
    ensures forall i | 0 < i < |table.history| :: OneWrite(table.history[i - 1], table.history[i])
    ensures softDeleted + hardDeleted == |plan.remove|
    ensures softDeleted == |WithHistory(old(table.rows), set id | id in plan.remove)|
    ensures Resolves(plan.options, valueIds, keyToId) && ShowsTexts(plan.options, valueIds, valueText)
    ensures KeysIn(KeptCombinations(plan.keep), keyToId) && KeysIn(plan.create, keyToId)
    ensures table.rows == Applied(old(table.rows), plan, keyToId, valueText, valueIds, createdIds,
      Template(old(table.rows), loaded, (set id | id in KeptIds(plan.keep)), currency))
    ensures UniqueSignatures(table.rows)
    ensures forall id | id in table.rows && !table.rows[id].deleted ::
      RowOfChoice(table.rows[id], plan.options, valueIds)
  {
    ghost var before := table.rows;
    var terms := Template(table.rows, loaded, (set id | id in KeptIds(plan.keep)), currency);
    softDeleted, hardDeleted, keyToId, valueText := ClearTheWay(table, loaded, plan, valueIds);
    PlanResolves(plan, valueIds, keyToId);
    SettleAndCreate(table, plan, keyToId, valueText, valueIds, createdIds, terms);
    LiveRowsAreTheProduct(before, loaded, plan, keyToId, valueText, valueIds, createdIds, terms);
  }

  // --- the rows afterwards ----------------------------------------------------------------

  /** Every choice of value ids is the resolution of some combination of keys. */
  lemma EveryChoiceResolves(
    options: seq<PlannedOption>, valueIds: seq<seq<string>>, keyToId: map<string, string>, values: seq<string>)
    returns (c: seq<string>)
    requires Assigns(options, valueIds) && Resolves(options, valueIds, keyToId)
    requires Chooses(values, valueIds)
    ensures Chooses(c, KeyLists(options))
    ensures forall i | 0 <= i < |c| :: c[i] in keyToId
    ensures Resolve(keyToId, c) == values
  {
    c := seq(|values|, i requires 0 <= i < |values| =>
      var j := IndexIn(valueIds[i], values[i]);
      if 0 <= j then options[i].values[j].key else "");
    forall i | 0 <= i < |c|
      ensures c[i] in KeyLists(options)[i] && c[i] in keyToId && keyToId[c[i]] == values[i]
    {
      assert values[i] in valueIds[i];
      var j := IndexIn(valueIds[i], values[i]);
      assert Keys(options[i])[j] == c[i];
    }
  }

  /** The texts of linked values, option by option, as the plan has them. */
  function LinkedTexts(options: seq<PlannedOption>, valueIds: seq<seq<string>>, links: seq<string>): seq<string>
    requires Assigns(options, valueIds) && |links| == |options|
  {
    seq(|links|, i requires 0 <= i < |links| =>
      var j := IndexIn(valueIds[i], links[i]);
      if 0 <= j then options[i].values[j].text else "")
  }

  /** What a live row of the applied plan is: signed, placed, titled and linked by its own choice of values. */
  predicate RowOfChoice(row: Row, options: seq<PlannedOption>, valueIds: seq<seq<string>>)
    requires Assigns(options, valueIds)
  {
    && Chooses(row.links, valueIds)
    && row.signature == Signature(row.links)
    && row.position == Order(valueIds, row.links)
    && row.title == if options == [] then "Default" else Join(LinkedTexts(options, valueIds, row.links), " / ")
  }

  /** The title made from the texts in the table is the one made from the texts in the plan. */
  lemma TitleOfChoice(
    options: seq<PlannedOption>, valueIds: seq<seq<string>>, valueText: map<string, string>, values: seq<string>)
    requires Assigns(options, valueIds) && ShowsTexts(options, valueIds, valueText)
    requires Chooses(values, valueIds)
    ensures VariantTitle(Texts(valueText, values))
      == if options == [] then "Default" else Join(LinkedTexts(options, valueIds, values), " / ")
  {
    forall i | 0 <= i < |values|
      ensures Texts(valueText, values)[i] == LinkedTexts(options, valueIds, values)[i]
    {
      assert values[i] in valueIds[i];
      var j := IndexIn(valueIds[i], values[i]);
      assert valueText[valueIds[i][j]] == options[i].values[j].text;
    }
    assert Texts(valueText, values) == LinkedTexts(options, valueIds, values);
  }

  /** A row written for its links: their signature, place and title. */
  predicate WrittenFor(row: Row, valueIds: seq<seq<string>>, valueText: map<string, string>) {
    && Chooses(row.links, valueIds)
    && row.signature == Signature(row.links)
    && row.position == Order(valueIds, row.links)
    && row.title == VariantTitle(Texts(valueText, row.links))
  }

  /** Every live row was written for a choice of values. */
  lemma LiveRowsAreWritten(
    rows: Rows, loaded: seq<string>, plan: Plan, keyToId: map<string, string>, valueText: map<string, string>,
    valueIds: seq<seq<string>>, createdIds: seq<string>, terms: Terms, id: string)
    requires ProductRows(rows, loaded) && PlanSound(plan) && Assigns(plan.options, valueIds)
    requires multiset(KeptIds(plan.keep)) + multiset(plan.remove) == multiset(loaded)
    requires |createdIds| == |plan.create| && NoDuplicates(createdIds)
    requires Resolves(plan.options, valueIds, keyToId)
    requires KeysIn(KeptCombinations(plan.keep), keyToId) && KeysIn(plan.create, keyToId)
    requires var after := Applied(rows, plan, keyToId, valueText, valueIds, createdIds, terms);
      id in after && !after[id].deleted
    ensures WrittenFor(Applied(rows, plan, keyToId, valueText, valueIds, createdIds, terms)[id], valueIds, valueText)
  {
    hide Signature, Order, VariantTitle, Texts, UniqueSignatures, Chooses, DeletedTag, TemporaryTag;
    PlanResolves(plan, valueIds, keyToId);
    PartitionIsDisjoint(loaded, KeptIds(plan.keep), plan.remove);
    BeforeIsTagged(rows, loaded, plan);
    PairSound(KeptIds(plan.keep), ResolveAll(keyToId, KeptCombinations(plan.keep)), valueIds);
    PairSound(createdIds, ResolveAll(keyToId, plan.create), valueIds);
  }

  /** Every live row is a choice of values. */
  lemma LiveRowsAreChoices(
    rows: Rows, loaded: seq<string>, plan: Plan, keyToId: map<string, string>, valueText: map<string, string>,
    valueIds: seq<seq<string>>, createdIds: seq<string>, terms: Terms, id: string)
    requires ProductRows(rows, loaded) && PlanSound(plan) && Assigns(plan.options, valueIds)
    requires multiset(KeptIds(plan.keep)) + multiset(plan.remove) == multiset(loaded)
    requires |createdIds| == |plan.create| && NoDuplicates(createdIds)
    requires Resolves(plan.options, valueIds, keyToId) && ShowsTexts(plan.options, valueIds, valueText)
    requires KeysIn(KeptCombinations(plan.keep), keyToId) && KeysIn(plan.create, keyToId)
    requires var after := Applied(rows, plan, keyToId, valueText, valueIds, createdIds, terms);
      id in after && !after[id].deleted
    ensures RowOfChoice(Applied(rows, plan, keyToId, valueText, valueIds, createdIds, terms)[id], plan.options, valueIds)
  {
    LiveRowsAreWritten(rows, loaded, plan, keyToId, valueText, valueIds, createdIds, terms, id);
    hide Applied, PlanSound, ProductRows, VariantTitle, Texts;
    var row := Applied(rows, plan, keyToId, valueText, valueIds, createdIds, terms)[id];
    TitleOfChoice(plan.options, valueIds, valueText, row.links);
  }

  lemma SettledLookup(
    rows: Rows, ids: seq<string>, values: seq<seq<string>>, valueIds: seq<seq<string>>, valueText: map<string, string>,
    i: nat)
    requires |ids| == |values| && NoDuplicates(ids) && i < |ids| && ids[i] in rows
    ensures var settled := Settled(rows, Pair(ids, values), valueIds, valueText);
      ids[i] in settled && settled[ids[i]].deleted == rows[ids[i]].deleted && settled[ids[i]].links == values[i]
  {
    PairLookup(ids, values);
  }

  lemma CreatedElsewhere(
    rows: Rows, ids: seq<string>, values: seq<seq<string>>, terms: Terms, valueIds: seq<seq<string>>,
    valueText: map<string, string>, id: string)
    requires |ids| == |values| && NoDuplicates(ids) && id in rows && id !in ids
    ensures var after := WithCreated(rows, Pair(ids, values), terms, valueIds, valueText);
      id in after && after[id] == rows[id]
  {
    PairLookup(ids, values);
  }

  /** The row of a kept combination. */
  lemma KeptRow(
    rows: Rows, loaded: seq<string>, plan: Plan, keyToId: map<string, string>, valueText: map<string, string>,
    valueIds: seq<seq<string>>, createdIds: seq<string>, terms: Terms, i: nat)
    requires ProductRows(rows, loaded)
    requires multiset(KeptIds(plan.keep)) + multiset(plan.remove) == multiset(loaded)
    requires |createdIds| == |plan.create| && forall id | id in createdIds :: id !in rows
    requires NoDuplicates(createdIds)
    requires KeysIn(KeptCombinations(plan.keep), keyToId) && KeysIn(plan.create, keyToId)
    requires i < |plan.keep|
    ensures var after := Applied(rows, plan, keyToId, valueText, valueIds, createdIds, terms);
      var id := plan.keep[i].variant;
      id in after && !after[id].deleted && after[id].links == Resolve(keyToId, KeptCombinations(plan.keep)[i])
  {
    var ids, values := KeptIds(plan.keep), ResolveAll(keyToId, KeptCombinations(plan.keep));
    PartitionIsDisjoint(loaded, ids, plan.remove);
    BeforeIsTagged(rows, loaded, plan);
    assert ids[i] in ids && ids[i] in loaded && ids[i] !in createdIds;
    hide Pair, SettledRow, CreatedRow, Before, AllTagged, ProductRows, Settled, WithCreated;
    SettledLookup(Before(rows, plan), ids, values, valueIds, valueText, i);
    CreatedElsewhere(
      Settled(Before(rows, plan), Pair(ids, values), valueIds, valueText),
      createdIds, ResolveAll(keyToId, plan.create), terms, valueIds, valueText, ids[i]);
  }

  /** The row of a created combination. */
  lemma CreatedRowIs(
    rows: Rows, plan: Plan, keyToId: map<string, string>, valueText: map<string, string>,
    valueIds: seq<seq<string>>, createdIds: seq<string>, terms: Terms, k: nat)
    requires |createdIds| == |plan.create| && NoDuplicates(createdIds)
    requires KeysIn(KeptCombinations(plan.keep), keyToId) && KeysIn(plan.create, keyToId)
    requires k < |plan.create|
    ensures var after := Applied(rows, plan, keyToId, valueText, valueIds, createdIds, terms);
      createdIds[k] in after
      && after[createdIds[k]] == CreatedRow(terms, valueIds, valueText, Resolve(keyToId, plan.create[k]))
  {
    PairLookup(createdIds, ResolveAll(keyToId, plan.create));
  }

  /** Every choice of values has a live row. */
  lemma EveryChoiceHasARow(
    rows: Rows, loaded: seq<string>, plan: Plan, keyToId: map<string, string>, valueText: map<string, string>,
    valueIds: seq<seq<string>>, createdIds: seq<string>, terms: Terms, values: seq<string>)
    returns (id: string)
    requires ProductRows(rows, loaded) && PlanSound(plan) && Assigns(plan.options, valueIds)
    requires multiset(KeptIds(plan.keep)) + multiset(plan.remove) == multiset(loaded)
    requires |createdIds| == |plan.create| && NoDuplicates(createdIds)
    requires forall id | id in createdIds :: id !in rows
    requires Resolves(plan.options, valueIds, keyToId)
    requires KeysIn(KeptCombinations(plan.keep), keyToId) && KeysIn(plan.create, keyToId)
    requires Chooses(values, valueIds)
    ensures var after := Applied(rows, plan, keyToId, valueText, valueIds, createdIds, terms);
      id in after && !after[id].deleted && after[id].links == values
  {
    var c := EveryChoiceResolves(plan.options, valueIds, keyToId, values);
    if IsKept(plan.keep, c) {
      var i :| 0 <= i < |plan.keep| && plan.keep[i].combination == c;
      KeptRow(rows, loaded, plan, keyToId, valueText, valueIds, createdIds, terms, i);
      id := plan.keep[i].variant;
    } else {
      var k :| 0 <= k < |plan.create| && plan.create[k] == c;
      CreatedRowIs(rows, plan, keyToId, valueText, valueIds, createdIds, terms, k);
      id := createdIds[k];
    }
  }

  /**
   * Afterwards the live variants are exactly the Cartesian product of the option
   * values: each is a choice, each choice has one, and no two have the same.
   */
  lemma LiveRowsAreTheProduct(
    rows: Rows, loaded: seq<string>, plan: Plan, keyToId: map<string, string>, valueText: map<string, string>,
    valueIds: seq<seq<string>>, createdIds: seq<string>, terms: Terms)
    requires ProductRows(rows, loaded) && PlanSound(plan) && Assigns(plan.options, valueIds)
    requires multiset(KeptIds(plan.keep)) + multiset(plan.remove) == multiset(loaded)
    requires |createdIds| == |plan.create| && NoDuplicates(createdIds)
    requires forall id | id in createdIds :: id !in rows
    requires Resolves(plan.options, valueIds, keyToId) && ShowsTexts(plan.options, valueIds, valueText)
    requires KeysIn(KeptCombinations(plan.keep), keyToId) && KeysIn(plan.create, keyToId)
    requires UniqueSignatures(Applied(rows, plan, keyToId, valueText, valueIds, createdIds, terms))
    ensures var after := Applied(rows, plan, keyToId, valueText, valueIds, createdIds, terms);
      && (forall id | id in after && !after[id].deleted :: RowOfChoice(after[id], plan.options, valueIds))
      && (forall values | Chooses(values, valueIds) ::
          exists id :: id in after && !after[id].deleted && after[id].links == values)
      && (forall a, b | a in after && b in after && a != b && !after[a].deleted && !after[b].deleted ::
          after[a].links != after[b].links)
  {
    var after := Applied(rows, plan, keyToId, valueText, valueIds, createdIds, terms);
    forall id | id in after && !after[id].deleted
      ensures RowOfChoice(after[id], plan.options, valueIds)
    {
      LiveRowsAreChoices(rows, loaded, plan, keyToId, valueText, valueIds, createdIds, terms, id);
    }
    forall values | Chooses(values, valueIds)
      ensures exists id :: id in after && !after[id].deleted && after[id].links == values
    {
      var id := EveryChoiceHasARow(rows, loaded, plan, keyToId, valueText, valueIds, createdIds, terms, values);
    }
  }

  /** Surviving variants keep what they hold: their SKU, prices and stock history. */
  lemma KeptVariantsKeepTheirData(
    rows: Rows, loaded: seq<string>, plan: Plan, keyToId: map<string, string>, valueText: map<string, string>,
    valueIds: seq<seq<string>>, createdIds: seq<string>, terms: Terms, id: string)
    requires ProductRows(rows, loaded) && PlanSound(plan) && Assigns(plan.options, valueIds)
    requires multiset(KeptIds(plan.keep)) + multiset(plan.remove) == multiset(loaded)
    requires |createdIds| == |plan.create| && NoDuplicates(createdIds)
    requires forall id | id in createdIds :: id !in rows
    requires Resolves(plan.options, valueIds, keyToId)
    requires KeysIn(KeptCombinations(plan.keep), keyToId) && KeysIn(plan.create, keyToId)
    requires id in loaded && id !in plan.remove
    ensures var after := Applied(rows, plan, keyToId, valueText, valueIds, createdIds, terms);
      && id in after && !after[id].deleted
      && after[id].sku == rows[id].sku && after[id].terms == rows[id].terms
      && after[id].hasHistory == rows[id].hasHistory
  {
    PartitionIsDisjoint(loaded, KeptIds(plan.keep), plan.remove);
    PlanResolves(plan, valueIds, keyToId);
    PairLookup(KeptIds(plan.keep), ResolveAll(keyToId, KeptCombinations(plan.keep)));
    PairLookup(createdIds, ResolveAll(keyToId, plan.create));
    assert id in KeptIds(plan.keep) && id !in createdIds;
  }

  /** Rows that are neither kept nor created are deleted ones, carrying their tag. */
  lemma OtherRow(
    rows: Rows, loaded: seq<string>, plan: Plan, keyToId: map<string, string>, valueText: map<string, string>,
    valueIds: seq<seq<string>>, createdIds: seq<string>, terms: Terms, id: string)
    requires ProductRows(rows, loaded)
    requires multiset(KeptIds(plan.keep)) + multiset(plan.remove) == multiset(loaded)
    requires |createdIds| == |plan.create| && NoDuplicates(createdIds)
    requires KeysIn(KeptCombinations(plan.keep), keyToId) && KeysIn(plan.create, keyToId)
    requires id !in KeptIds(plan.keep) && id !in createdIds
    requires id in Applied(rows, plan, keyToId, valueText, valueIds, createdIds, terms)
    ensures var row := Applied(rows, plan, keyToId, valueText, valueIds, createdIds, terms)[id];
      row.deleted && row.signature == DeletedTag(id)
  {
    PartitionIsDisjoint(loaded, KeptIds(plan.keep), plan.remove);
    PairLookup(KeptIds(plan.keep), ResolveAll(keyToId, KeptCombinations(plan.keep)));
    PairLookup(createdIds, ResolveAll(keyToId, plan.create));
    hide Pair, SettledRow, CreatedRow, UniqueSignatures;
  }

  /** The product is ready for the next edit: its live rows are exactly the kept and the created ones. */
  lemma AppliedIsAProduct(
    rows: Rows, loaded: seq<string>, plan: Plan, keyToId: map<string, string>, valueText: map<string, string>,
    valueIds: seq<seq<string>>, createdIds: seq<string>, terms: Terms)
    requires ProductRows(rows, loaded) && PlanSound(plan) && Assigns(plan.options, valueIds)
    requires multiset(KeptIds(plan.keep)) + multiset(plan.remove) == multiset(loaded)
    requires |createdIds| == |plan.create| && NoDuplicates(createdIds)
    requires forall id | id in createdIds :: id !in rows
    requires Resolves(plan.options, valueIds, keyToId) && ShowsTexts(plan.options, valueIds, valueText)
    requires KeysIn(KeptCombinations(plan.keep), keyToId) && KeysIn(plan.create, keyToId)
    requires UniqueSignatures(Applied(rows, plan, keyToId, valueText, valueIds, createdIds, terms))
    ensures ProductRows(
      Applied(rows, plan, keyToId, valueText, valueIds, createdIds, terms), KeptIds(plan.keep) + createdIds)
  {
    var after := Applied(rows, plan, keyToId, valueText, valueIds, createdIds, terms);
    var keep := KeptIds(plan.keep);
    PartitionIsDisjoint(loaded, keep, plan.remove);
    forall id | id in keep
      ensures id in after && !after[id].deleted
    {
      var i :| 0 <= i < |keep| && keep[i] == id;
      KeptRow(rows, loaded, plan, keyToId, valueText, valueIds, createdIds, terms, i);
    }
    forall id | id in createdIds
      ensures id in after && !after[id].deleted
    {
      var k :| 0 <= k < |createdIds| && createdIds[k] == id;
      CreatedRowIs(rows, plan, keyToId, valueText, valueIds, createdIds, terms, k);
    }
    forall id | id in after && id !in keep && id !in createdIds
      ensures after[id].deleted && after[id].signature == DeletedTag(id)
    {
      OtherRow(rows, loaded, plan, keyToId, valueText, valueIds, createdIds, terms, id);
    }
    forall id | id in after && !after[id].deleted
      ensures ColonFree(after[id].signature)
    {
      LiveRowsAreChoices(rows, loaded, plan, keyToId, valueText, valueIds, createdIds, terms, id);
      SignaturesOfChoices(valueIds, after[id].links, after[id].links);
    }
    JoinedDistinct(keep, createdIds);
  }

  lemma JoinedDistinct(a: seq<string>, b: seq<string>)
    requires NoDuplicates(a) && NoDuplicates(b) && forall id | id in a :: id !in b
    ensures NoDuplicates(a + b)
  {
    forall i, j | 0 <= i < j < |a + b|
      ensures (a + b)[i] != (a + b)[j]
    {
      if i < |a| <= j {
        assert (a + b)[i] in a && (a + b)[j] in b;
      }
    }
  }
}
