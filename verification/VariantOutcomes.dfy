/** What an option edit means for each variant: what is planned, kept, created and removed. */
module VariantOutcomes {
  import opened Common
  import opened Numerals
  import opened Combinations
  import opened VariantPlan
  import opened VariantRows
  import opened VariantApplication

  /** The plan has the desired options, in order, with their names, values and texts; existing values keep their ids. */
  lemma PlannedAsDesired(desired: seq<DesiredOption>)
    ensures var options := PlanOptions(desired);
      && |options| == |desired|
      && forall i | 0 <= i < |desired| ::
        && options[i].id == desired[i].id
        && options[i].name == desired[i].name
        && |options[i].values| == |desired[i].values|
        && forall j | 0 <= j < |desired[i].values| ::
          && options[i].values[j].id == desired[i].values[j].id
          && options[i].values[j].text == desired[i].values[j].text
          && (desired[i].values[j].id.Some? ==> options[i].values[j].key == desired[i].values[j].id.value)
  {
  }

  /** The variant holds a value of this option, as far as the option existed when it was made. */
  predicate Held(o: DesiredOption, v: CurrentVariant) {
    o.id.Some? && o.id.value in v.values
  }

  predicate Offered(o: DesiredOption, value: string) {
    exists j | 0 <= j < |o.values| :: o.values[j].id == Some(value)
  }

  /**
   * A variant survives into a combination unless a value it held is gone; the combination
   * takes the value held, and an option's first value where none was.
   */
  lemma CombinationMeans(desired: seq<DesiredOption>, v: CurrentVariant)
    requires NonEmpty(PlanOptions(desired))
    ensures var c := Combination(PlanOptions(desired), v);
      && (c.None? <==>
          exists i | 0 <= i < |desired| :: Held(desired[i], v) && !Offered(desired[i], v.values[desired[i].id.value]))
      && (c.Some? ==>
          && |c.value| == |desired|
          && forall i | 0 <= i < |desired| ::
            c.value[i] == if Held(desired[i], v) then v.values[desired[i].id.value] else PlanOptions(desired)[i].values[0].key)
  {
    var options := PlanOptions(desired);
    forall i | 0 <= i < |desired|
      ensures Choice(options[i], v).None? <==>
        Held(desired[i], v) && !Offered(desired[i], v.values[desired[i].id.value])
      ensures Choice(options[i], v).Some? ==>
        Choice(options[i], v).value
          == if Held(desired[i], v) then v.values[desired[i].id.value] else options[i].values[0].key
    {
      if Held(desired[i], v) {
        HasIdIsOffered(desired[i], i, v.values[desired[i].id.value]);
      }
    }
    hide Choice, PlanOptions, Offered;
  }

  lemma HasIdIsOffered(o: DesiredOption, i: nat, value: string)
    ensures HasId(PlanOption(o, i), value) <==> Offered(o, value)
  {
    var planned := PlanOption(o, i);
    if HasId(planned, value) {
      var j :| 0 <= j < |planned.values| && planned.values[j].id == Some(value);
      assert o.values[j].id == Some(value);
    }
    if Offered(o, value) {
      var j :| 0 <= j < |o.values| && o.values[j].id == Some(value);
      assert planned.values[j] in planned.values;
    }
  }

  lemma OneMorePlace(valueIds: seq<seq<string>>, values: seq<string>, n: nat)
    requires Chooses(values, valueIds) && n < |values|
    ensures Order(valueIds, values[..n + 1]) == 64 * Order(valueIds, values[..n]) + IndexIn(valueIds[n], values[n])
  {
    assert values[..n + 1][..n] == values[..n];
  }

  /** Positions spelled out, for as many options as there can be: one digit in base 64 for each. */
  lemma PositionsSpelledOut(valueIds: seq<seq<string>>, values: seq<string>)
    requires Chooses(values, valueIds) && |values| <= 3
    ensures Order(valueIds, values) ==
      match |values|
      case 0 => 0
      case 1 => IndexIn(valueIds[0], values[0])
      case 2 => 64 * IndexIn(valueIds[0], values[0]) + IndexIn(valueIds[1], values[1])
      case _ => 4096 * IndexIn(valueIds[0], values[0]) + 64 * IndexIn(valueIds[1], values[1]) + IndexIn(valueIds[2], values[2])
  {
    assert values[..0] == [] && values[..|values|] == values;
    assert Order(valueIds, []) == 0;
    if 0 < |values| { OneMorePlace(valueIds, values, 0); }
    if 1 < |values| { OneMorePlace(valueIds, values, 1); }
    if 2 < |values| { OneMorePlace(valueIds, values, 2); }
    hide Order;
  }

  /** A removed variant is gone, unless it has stock history: then it stays, deleted, unlinked and out of the way. */
  lemma RemovedVariants(
    rows: Rows, loaded: seq<string>, plan: Plan, keyToId: map<string, string>, valueText: map<string, string>,
    valueIds: seq<seq<string>>, createdIds: seq<string>, terms: Terms, id: string)
    requires ProductRows(rows, loaded)
    requires multiset(KeptIds(plan.keep)) + multiset(plan.remove) == multiset(loaded)
    requires |createdIds| == |plan.create| && NoDuplicates(createdIds)
    requires forall id | id in createdIds :: id !in rows
    requires KeysIn(KeptCombinations(plan.keep), keyToId) && KeysIn(plan.create, keyToId)
    requires id in plan.remove
    ensures var after := Applied(rows, plan, keyToId, valueText, valueIds, createdIds, terms);
      && id in rows
      && (id in after <==> rows[id].hasHistory)
      && (id in after ==> after[id] == rows[id].(signature := "deleted:" + id, deleted := true, links := []))
  {
    PartitionIsDisjoint(loaded, KeptIds(plan.keep), plan.remove);
    PairLookup(KeptIds(plan.keep), ResolveAll(keyToId, KeptCombinations(plan.keep)));
    PairLookup(createdIds, ResolveAll(keyToId, plan.create));
    hide Pair, SettledRow, CreatedRow, UniqueSignatures;
  }

  /** Rows deleted by earlier edits stay as they are, but for links they no longer have. */
  lemma DeletedRowsStay(
    rows: Rows, loaded: seq<string>, plan: Plan, keyToId: map<string, string>, valueText: map<string, string>,
    valueIds: seq<seq<string>>, createdIds: seq<string>, terms: Terms, id: string)
    requires ProductRows(rows, loaded)
    requires multiset(KeptIds(plan.keep)) + multiset(plan.remove) == multiset(loaded)
    requires |createdIds| == |plan.create| && NoDuplicates(createdIds)
    requires forall id | id in createdIds :: id !in rows
    requires KeysIn(KeptCombinations(plan.keep), keyToId) && KeysIn(plan.create, keyToId)
    requires id in rows && rows[id].deleted
    ensures var after := Applied(rows, plan, keyToId, valueText, valueIds, createdIds, terms);
      id in after && after[id] == rows[id].(links := [])
  {
    PartitionIsDisjoint(loaded, KeptIds(plan.keep), plan.remove);
    PairLookup(KeptIds(plan.keep), ResolveAll(keyToId, KeptCombinations(plan.keep)));
    PairLookup(createdIds, ResolveAll(keyToId, plan.create));
    hide Pair, SettledRow, CreatedRow, UniqueSignatures;
  }

  /** A created variant is live, has no SKU and no history, and takes its terms from the template. */
  lemma CreatedVariants(
    rows: Rows, plan: Plan, keyToId: map<string, string>, valueText: map<string, string>,
    valueIds: seq<seq<string>>, createdIds: seq<string>, terms: Terms, k: nat)
    requires |createdIds| == |plan.create| && NoDuplicates(createdIds)
    requires KeysIn(KeptCombinations(plan.keep), keyToId) && KeysIn(plan.create, keyToId)
    requires k < |plan.create|
    ensures var after := Applied(rows, plan, keyToId, valueText, valueIds, createdIds, terms);
      && createdIds[k] in after
      && var row := after[createdIds[k]];
      && !row.deleted && row.sku.None? && !row.hasHistory && row.terms == terms
      && |row.links| == |plan.create[k]|
      && forall i | 0 <= i < |row.links| :: row.links[i] == keyToId[plan.create[k][i]]
  {
    CreatedRowIs(rows, plan, keyToId, valueText, valueIds, createdIds, terms, k);
  }

  /** The template: the first loaded variant that stays, else the first loaded one, else the store's defaults. */
  lemma TemplateIs(rows: Rows, loaded: seq<string>, kept: set<string>, currency: string)
    requires forall id | id in loaded :: id in rows
    ensures var terms := Template(rows, loaded, kept, currency);
      && (forall i | 0 <= i < |loaded| && loaded[i] in kept && (forall j | 0 <= j < i :: loaded[j] !in kept) ::
          terms == rows[loaded[i]].terms)
      && ((forall i | 0 <= i < |loaded| :: loaded[i] !in kept) && loaded != [] ==> terms == rows[loaded[0]].terms)
      && (loaded == [] ==>
          && terms.currency == currency && terms.priceAmount == 0
          && terms.compareAtAmount.None? && terms.costAmount.None? && terms.weightGrams.None?
          && terms.taxable && terms.requiresShipping && terms.tracked && !terms.overselling)
  {
    if forall i | 0 <= i < |loaded| :: loaded[i] !in kept {
      NoneIn(loaded, kept);
    }
    forall i | 0 <= i < |loaded| && loaded[i] in kept && (forall j | 0 <= j < i :: loaded[j] !in kept)
      ensures FirstIn(loaded, kept) == Some(loaded[i])
    {
      FirstInIs(loaded, kept, i);
    }
  }

  lemma {:induction false} FirstInIs(ids: seq<string>, wanted: set<string>, i: nat)
    requires i < |ids| && ids[i] in wanted && forall j | 0 <= j < i :: ids[j] !in wanted
    ensures FirstIn(ids, wanted) == Some(ids[i])
    decreases |ids|
  {
    if i != 0 {
      assert ids[0] !in wanted;
      assert forall j | 0 <= j < i - 1 :: ids[1..][j] == ids[j + 1];
      FirstInIs(ids[1..], wanted, i - 1);
    }
  }

  lemma {:induction false} NoneIn(ids: seq<string>, wanted: set<string>)
    requires forall i | 0 <= i < |ids| :: ids[i] !in wanted
    ensures FirstIn(ids, wanted).None?
    decreases |ids|
  {
    if ids != [] {
      NoneIn(ids[1..], wanted);
    }
  }

  /**
   * A variant that stays is linked, option by option, to the very value it held, and to the
   * first value of an option it held nothing of.
   */
  lemma KeptVariantsKeepTheirValues(
    rows: Rows, current: seq<CurrentOption>, variants: seq<CurrentVariant>, desired: seq<DesiredOption>,
    keyToId: map<string, string>, valueText: map<string, string>, valueIds: seq<seq<string>>, createdIds: seq<string>,
    terms: Terms, n: nat)
    requires CurrentSound(current) && Acceptable(current, desired) && NonEmpty(PlanOptions(desired))
    requires ProductRows(rows, VariantIds(variants))
    requires var plan := PlanChange(variants, desired);
      && Assigns(plan.options, valueIds) && Resolves(plan.options, valueIds, keyToId)
      && |createdIds| == |plan.create| && NoDuplicates(createdIds)
      && KeysIn(KeptCombinations(plan.keep), keyToId) && KeysIn(plan.create, keyToId)
    requires forall id | id in createdIds :: id !in rows
    requires n < |variants| && variants[n].id !in PlanChange(variants, desired).remove
    ensures var after := Applied(rows, PlanChange(variants, desired), keyToId, valueText, valueIds, createdIds, terms);
      && variants[n].id in after && !after[variants[n].id].deleted
      && |after[variants[n].id].links| == |desired|
      && forall i | 0 <= i < |desired| ::
        LinkKept(desired[i], variants[n], valueIds, i, after[variants[n].id].links[i])
  {
    var plan, v := PlanChange(variants, desired), variants[n];
    KeepAndRemovePartition(plan.options, variants);
    var k := KeptPlace(current, variants, desired, n);
    KeptRow(rows, VariantIds(variants), plan, keyToId, valueText, valueIds, createdIds, terms, k);
    var c := plan.keep[k].combination;
    assert KeptCombinations(plan.keep)[k] == c;
    CombinationMeans(desired, v);
    forall i | 0 <= i < |desired|
      ensures LinkKept(desired[i], v, valueIds, i, Resolve(keyToId, c)[i])
    {
      LinkIsKept(desired, v, keyToId, valueIds, c, i);
    }
    hide Applied, ProductRows, PlanSound, Reconcile, LinkKept, Combination;
  }

  /** Where the plan keeps a variant it does not remove, under the variant's own combination. */
  lemma KeptPlace(current: seq<CurrentOption>, variants: seq<CurrentVariant>, desired: seq<DesiredOption>, n: nat)
    returns (k: nat)
    requires IdsSound(current) && Acceptable(current, desired) && NonEmpty(PlanOptions(desired))
    requires NoDuplicates(VariantIds(variants)) && n < |variants|
    requires variants[n].id !in PlanChange(variants, desired).remove
    ensures var plan := PlanChange(variants, desired);
      && k < |plan.keep| && plan.keep[k].variant == variants[n].id
      && Combination(PlanOptions(desired), variants[n]) == Some(plan.keep[k].combination)
  {
    var plan := PlanChange(variants, desired);
    KeepAndRemovePartition(plan.options, variants);
    PartitionIsDisjoint(VariantIds(variants), KeptIds(plan.keep), plan.remove);
    assert VariantIds(variants)[n] == variants[n].id;
    hide Reconcile, Combination, Acceptable;
    var ids := KeptIds(plan.keep);
    k :| 0 <= k < |ids| && ids[k] == variants[n].id;
    assert plan.keep[k] in plan.keep;
    KeptExactly(current, desired, variants, n);
  }

  predicate LinkKept(o: DesiredOption, v: CurrentVariant, valueIds: seq<seq<string>>, i: nat, link: string) {
    if Held(o, v) then link == v.values[o.id.value]
    else i < |valueIds| && valueIds[i] != [] && link == valueIds[i][0]
  }

  lemma LinkIsKept(
    desired: seq<DesiredOption>, v: CurrentVariant, keyToId: map<string, string>, valueIds: seq<seq<string>>,
    c: seq<string>, i: nat)
    requires NonEmpty(PlanOptions(desired)) && i < |desired|
    requires Combination(PlanOptions(desired), v) == Some(c)
    requires Assigns(PlanOptions(desired), valueIds) && Resolves(PlanOptions(desired), valueIds, keyToId)
    ensures i < |c| && c[i] in keyToId && LinkKept(desired[i], v, valueIds, i, keyToId[c[i]])
  {
    var options := PlanOptions(desired);
    CombinationMeans(desired, v);
    hide Combination;
    if Held(desired[i], v) {
      var held := v.values[desired[i].id.value];
      assert Offered(desired[i], held);
      var j :| 0 <= j < |desired[i].values| && desired[i].values[j].id == Some(held);
      assert options[i].values[j].key == held && options[i].values[j].id == Some(held);
      assert keyToId[options[i].values[j].key] == valueIds[i][j];
    } else {
      assert keyToId[options[i].values[0].key] == valueIds[i][0];
    }
  }
}
