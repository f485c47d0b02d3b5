/**
 * Option edits: which variants survive, which combinations are created and
 * which variants go. Names and values arrive trimmed, with their case-folded
 * form beside them; ids are opaque strings.
 */
module VariantPlan {
  import opened Common
  import opened Numerals
  import opened Combinations

  const MAX_OPTIONS := 3
  const MAX_VALUES_PER_OPTION := 50
  const MAX_VARIANTS := 100
  const MAX_NAME_LENGTH := 255

  datatype CurrentOption = CurrentOption(id: string, valueIds: seq<string>)

  /** `values` maps an option's id to the value the variant holds of it. */
  datatype CurrentVariant = CurrentVariant(id: string, values: map<string, string>)

  datatype DesiredValue = DesiredValue(id: Option<string>, text: string, folded: string)

  datatype DesiredOption = DesiredOption(id: Option<string>, name: string, folded: string, values: seq<DesiredValue>)

  datatype PlannedValue = PlannedValue(key: string, id: Option<string>, text: string)

  datatype PlannedOption = PlannedOption(id: Option<string>, name: string, values: seq<PlannedValue>)

  datatype Kept = Kept(variant: string, combination: seq<string>)

  datatype Plan = Plan(
    options: seq<PlannedOption>, keep: seq<Kept>, create: seq<seq<string>>, remove: seq<string>)

  datatype Problem =
    | TooManyOptions
    | NameMissing
    | NameTooLong
    | NameTaken
    | OptionGone
    | NoValues
    | TooManyValues
    | ValueMissing
    | ValueTooLong
    | ValueTaken
    | ValueGone
    | TooManyVariants

  // --- validation ------------------------------------------------------------------

  /** The values an option already has; a new option has none. */
  function OwnValueIds(current: seq<CurrentOption>, id: Option<string>): set<string> {
    if id.None? || current == [] then {}
    else
      var last := current[|current| - 1];
      if last.id == id.value then set v | v in last.valueIds
      else OwnValueIds(current[..|current| - 1], id)
  }

  predicate ValueSound(v: DesiredValue, own: set<string>) {
    v.text != "" && |v.text| <= MAX_NAME_LENGTH && (v.id.Some? ==> v.id.value in own)
  }

  predicate ValuesSound(values: seq<DesiredValue>, own: set<string>) {
    && 1 <= |values| <= MAX_VALUES_PER_OPTION
    && (forall j | 0 <= j < |values| :: ValueSound(values[j], own))
    && (forall i, j | 0 <= i < j < |values| :: values[i].folded != values[j].folded)
    && (forall i, j | 0 <= i < j < |values| && values[i].id.Some? :: values[i].id != values[j].id)
  }

  predicate OptionSound(current: seq<CurrentOption>, o: DesiredOption) {
    && o.name != "" && |o.name| <= MAX_NAME_LENGTH
    && (o.id.Some? ==> exists c | c in current :: c.id == o.id.value)
    && ValuesSound(o.values, OwnValueIds(current, o.id))
  }

  function VariantCount(desired: seq<DesiredOption>): nat {
    if desired == [] then 1
    else VariantCount(desired[..|desired| - 1]) * |desired[|desired| - 1].values|
  }

  /** Exactly the edits the planner accepts. */
  predicate Acceptable(current: seq<CurrentOption>, desired: seq<DesiredOption>) {
    && |desired| <= MAX_OPTIONS
    && (forall i | 0 <= i < |desired| :: OptionSound(current, desired[i]))
    && (forall i, j | 0 <= i < j < |desired| :: desired[i].folded != desired[j].folded)
    && (forall i, j | 0 <= i < j < |desired| && desired[i].id.Some? :: desired[i].id != desired[j].id)
    && VariantCount(desired) <= MAX_VARIANTS
  }

  /** The fault a refusal of an option's values names is there. */
  ghost predicate ValueFault(values: seq<DesiredValue>, own: set<string>, problem: Problem) {
    match problem
    case NoValues => values == []
    case TooManyValues => 50 < |values|
    case ValueMissing => exists j | 0 <= j < |values| :: values[j].text == ""
    case ValueTooLong => exists j | 0 <= j < |values| :: 255 < |values[j].text|
    case ValueTaken => exists i, j | 0 <= i < j < |values| :: values[i].folded == values[j].folded
    case ValueGone =>
      || (exists j | 0 <= j < |values| :: values[j].id.Some? && values[j].id.value !in own)
      || (exists i, j | 0 <= i < j < |values| :: values[i].id.Some? && values[i].id == values[j].id)
    case _ => false
  }

  /** The fault a refusal of an edit names is there, in the options or in the values of one of them. */
  ghost predicate OptionFault(current: seq<CurrentOption>, desired: seq<DesiredOption>, problem: Problem) {
    match problem
    case TooManyOptions => 3 < |desired|
    case NameMissing => exists i | 0 <= i < |desired| :: desired[i].name == ""
    case NameTooLong => exists i | 0 <= i < |desired| :: 255 < |desired[i].name|
    case NameTaken => exists i, j | 0 <= i < j < |desired| :: desired[i].folded == desired[j].folded
    case OptionGone =>
      || (exists i | 0 <= i < |desired| :: desired[i].id.Some? && forall c | c in current :: c.id != desired[i].id.value)
      || (exists i, j | 0 <= i < j < |desired| :: desired[i].id.Some? && desired[i].id == desired[j].id)
    case TooManyVariants => 100 < VariantCount(desired)
    case _ =>
      exists i | 0 <= i < |desired| :: ValueFault(desired[i].values, OwnValueIds(current, desired[i].id), problem)
  }

  method ValidateValues(values: seq<DesiredValue>, own: set<string>) returns (problem: Option<Problem>)
    ensures problem.None? <==> ValuesSound(values, own)
    ensures problem.Some? ==> ValueFault(values, own, problem.value)
  {
    if |values| == 0 {
      return Some(NoValues);
    }
    if MAX_VALUES_PER_OPTION < |values| {
      return Some(TooManyValues);
    }
    var texts, seenIds := {}, {};
    for j := 0 to |values|
      invariant texts == set i | 0 <= i < j :: values[i].folded
      invariant seenIds == set i | 0 <= i < j && values[i].id.Some? :: values[i].id.value
      invariant forall i | 0 <= i < j :: ValueSound(values[i], own)
      invariant forall i, k | 0 <= i < k < j :: values[i].folded != values[k].folded
      invariant forall i, k | 0 <= i < k < j && values[i].id.Some? :: values[i].id != values[k].id
    {
      var v := values[j];
      if v.text == "" {
        return Some(ValueMissing);
      }
      if MAX_NAME_LENGTH < |v.text| {
        return Some(ValueTooLong);
      }
      if v.folded in texts {
        return Some(ValueTaken);
      }
      texts := texts + {v.folded};
      if v.id.Some? {
        if v.id.value !in own || v.id.value in seenIds {
          return Some(ValueGone);
        }
        seenIds := seenIds + {v.id.value};
      }
    }
    return None;
  }

  lemma CountNone(desired: seq<DesiredOption>)
    ensures VariantCount(desired[..0]) == 1
  {
  }

  lemma CountNext(desired: seq<DesiredOption>, i: nat)
    requires i < |desired|
    ensures VariantCount(desired[..i + 1]) == VariantCount(desired[..i]) * |desired[i].values|
  {
    assert desired[..i + 1][..i] == desired[..i];
  }

  /** What may be wrong with one option, beside the names and ids of the options before it. */
  ghost predicate OwnFault(
    current: seq<CurrentOption>, o: DesiredOption, names: set<string>, seenIds: set<string>, problem: Problem)
  {
    match problem
    case NameMissing => o.name == ""
    case NameTooLong => 255 < |o.name|
    case NameTaken => o.folded in names
    case OptionGone => o.id.Some? && (o.id.value in seenIds || forall c | c in current :: c.id != o.id.value)
    case TooManyOptions => false
    case TooManyVariants => false
    case _ => ValueFault(o.values, OwnValueIds(current, o.id), problem)
  }

  method ValidateOption(current: seq<CurrentOption>, o: DesiredOption, names: set<string>, seenIds: set<string>)
    returns (problem: Option<Problem>)
    ensures problem.None? <==>
      OptionSound(current, o) && o.folded !in names && (o.id.Some? ==> o.id.value !in seenIds)
    ensures problem.Some? ==> OwnFault(current, o, names, seenIds, problem.value)
  {
    if o.name == "" {
      return Some(NameMissing);
    }
    if MAX_NAME_LENGTH < |o.name| {
      return Some(NameTooLong);
    }
    if o.folded in names {
      return Some(NameTaken);
    }
    if o.id.Some? && (!(exists c | c in current :: c.id == o.id.value) || o.id.value in seenIds) {
      return Some(OptionGone);
    }
    hide ValuesSound, OwnValueIds;
    problem := ValidateValues(o.values, OwnValueIds(current, o.id));
  }

  lemma FaultOfOption(current: seq<CurrentOption>, desired: seq<DesiredOption>, i: nat, problem: Problem)
    requires i < |desired|
    requires OwnFault(
      current, desired[i], (set k | 0 <= k < i :: desired[k].folded),
      (set k | 0 <= k < i && desired[k].id.Some? :: desired[k].id.value), problem)
    ensures OptionFault(current, desired, problem)
  {
  }

  method Validate(current: seq<CurrentOption>, desired: seq<DesiredOption>) returns (problem: Option<Problem>)
    ensures problem.None? <==> Acceptable(current, desired)
    ensures problem.Some? ==> OptionFault(current, desired, problem.value)
  {
    hide OptionSound, OwnValueIds, VariantCount, OwnFault, ValueFault;
    CountNone(desired);
    if MAX_OPTIONS < |desired| {
      return Some(TooManyOptions);
    }
    var names, seenIds := {}, {};
    var combinations := 1;
    for i := 0 to |desired|
      invariant names == set k | 0 <= k < i :: desired[k].folded
      invariant seenIds == set k | 0 <= k < i && desired[k].id.Some? :: desired[k].id.value
      invariant forall k | 0 <= k < i :: OptionSound(current, desired[k])
      invariant forall j, k | 0 <= j < k < i :: desired[j].folded != desired[k].folded
      invariant forall j, k | 0 <= j < k < i && desired[j].id.Some? :: desired[j].id != desired[k].id
      invariant combinations == VariantCount(desired[..i])
    {
      var o := desired[i];
      problem := ValidateOption(current, o, names, seenIds);
      if problem.Some? {
        FaultOfOption(current, desired, i, problem.value);
        return;
      }
      names := names + {o.folded};
      if o.id.Some? {
        seenIds := seenIds + {o.id.value};
      }
      CountNext(desired, i);
      combinations := combinations * |o.values|;
    }
    assert desired[..|desired|] == desired;
    if MAX_VARIANTS < combinations {
      return Some(TooManyVariants);
    }
    return None;
  }

  lemma ValuesSoundExactly(values: seq<DesiredValue>, own: set<string>)
    ensures ValuesSound(values, own) <==> forall p: Problem :: !ValueFault(values, own, p)
  {
    if !ValuesSound(values, own) {
      if values == [] {
        assert ValueFault(values, own, NoValues);
      } else if 50 < |values| {
        assert ValueFault(values, own, TooManyValues);
      } else if i, j :| 0 <= i < j < |values| && values[i].folded == values[j].folded {
        assert ValueFault(values, own, ValueTaken);
      } else if j :| 0 <= j < |values| && !ValueSound(values[j], own) {
        assert ValueFault(values, own, ValueMissing) || ValueFault(values, own, ValueTooLong)
          || ValueFault(values, own, ValueGone);
      } else {
        assert ValueFault(values, own, ValueGone);
      }
    }
  }

  /** The rules and the faults say the same: an edit is acceptable exactly when none of the faults is there. */
  lemma AcceptableExactly(current: seq<CurrentOption>, desired: seq<DesiredOption>)
    ensures Acceptable(current, desired) <==> forall p: Problem :: !OptionFault(current, desired, p)
  {
    forall i | 0 <= i < |desired|
      ensures ValuesSound(desired[i].values, OwnValueIds(current, desired[i].id)) <==>
        forall p: Problem :: !ValueFault(desired[i].values, OwnValueIds(current, desired[i].id), p)
    {
      ValuesSoundExactly(desired[i].values, OwnValueIds(current, desired[i].id));
    }
    hide ValuesSound, OwnValueIds, VariantCount;
    if !Acceptable(current, desired) {
      if 3 < |desired| {
        assert OptionFault(current, desired, TooManyOptions);
      } else if 100 < VariantCount(desired) {
        assert OptionFault(current, desired, TooManyVariants);
      } else if i, j :| 0 <= i < j < |desired| && desired[i].folded == desired[j].folded {
        assert OptionFault(current, desired, NameTaken);
      } else if i :| 0 <= i < |desired| && !OptionSound(current, desired[i]) {
        UnsoundOption(current, desired, i);
      } else {
        assert OptionFault(current, desired, OptionGone);
      }
    }
  }

  lemma UnsoundOption(current: seq<CurrentOption>, desired: seq<DesiredOption>, i: nat)
    requires i < |desired| && !OptionSound(current, desired[i])
    ensures exists p: Problem :: OptionFault(current, desired, p)
  {
    var o := desired[i];
    var own := OwnValueIds(current, o.id);
    if o.name == "" {
      assert OptionFault(current, desired, NameMissing);
    } else if 255 < |o.name| {
      assert OptionFault(current, desired, NameTooLong);
    } else if o.id.Some? && forall c | c in current :: c.id != o.id.value {
      assert OptionFault(current, desired, OptionGone);
    } else {
      ValuesSoundExactly(o.values, own);
      var p: Problem :| ValueFault(o.values, own, p);
      assert OptionFault(current, desired, p);
    }
  }

  // --- the plan --------------------------------------------------------------------

  /** An existing value keeps its id as key; a new one is named by its place. */
  function KeyOf(v: DesiredValue, i: nat, j: nat): string {
    if v.id.Some? then v.id.value else "new:" + Digits(i) + ":" + Digits(j)
  }

  function PlanOption(o: DesiredOption, i: nat): PlannedOption {
    PlannedOption(o.id, o.name,
      seq(|o.values|, j requires 0 <= j < |o.values| => PlannedValue(KeyOf(o.values[j], i, j), o.values[j].id, o.values[j].text)))
  }

  function PlanOptions(desired: seq<DesiredOption>): seq<PlannedOption> {
    seq(|desired|, i requires 0 <= i < |desired| => PlanOption(desired[i], i))
  }

  function Keys(o: PlannedOption): seq<string> {
    seq(|o.values|, j requires 0 <= j < |o.values| => o.values[j].key)
  }

  function KeyLists(options: seq<PlannedOption>): seq<seq<string>> {
    seq(|options|, i requires 0 <= i < |options| => Keys(options[i]))
  }

  predicate HasId(o: PlannedOption, id: string) {
    exists v | v in o.values :: v.id == Some(id)
  }

  /** The key a variant has for an option; None when the value it held is gone. */
  function Choice(o: PlannedOption, v: CurrentVariant): Option<string>
    requires o.values != []
  {
    if o.id.None? || o.id.value !in v.values then Some(o.values[0].key)
    else if HasId(o, v.values[o.id.value]) then Some(v.values[o.id.value])
    else None
  }

  predicate NonEmpty(options: seq<PlannedOption>) {
    forall i | 0 <= i < |options| :: options[i].values != []
  }

  /** A variant's combination under the new options, if every value it held still exists. */
  function Combination(options: seq<PlannedOption>, v: CurrentVariant): Option<seq<string>>
    requires NonEmpty(options)
  {
    if exists i | 0 <= i < |options| :: Choice(options[i], v).None? then None
    else Some(seq(|options|, i requires 0 <= i < |options| && Choice(options[i], v).Some? => Choice(options[i], v).value))
  }

  /** The signatures some kept variant has claimed. */
  function Claimed(keep: seq<Kept>): set<string> {
    set k | k in keep :: Signature(k.combination)
  }

  /** Variant by variant in display order: the first to claim a combination keeps it. */
  function Reconcile(options: seq<PlannedOption>, variants: seq<CurrentVariant>): (r: (seq<Kept>, seq<string>))
    requires NonEmpty(options)
  {
    if variants == [] then ([], [])
    else
      var (keep, remove) := Reconcile(options, variants[..|variants| - 1]);
      var v := variants[|variants| - 1];
      var c := Combination(options, v);
      if c.None? || Signature(c.value) in Claimed(keep) then (keep, remove + [v.id])
      else (keep + [Kept(v.id, c.value)], remove)
  }

  function Unclaimed(combinations: seq<seq<string>>, claimed: set<string>): seq<seq<string>> {
    if combinations == [] then []
    else
      var before := Unclaimed(combinations[..|combinations| - 1], claimed);
      var last := combinations[|combinations| - 1];
      if Signature(last) in claimed then before else before + [last]
  }

  function PlanChange(variants: seq<CurrentVariant>, desired: seq<DesiredOption>): Plan
    requires NonEmpty(PlanOptions(desired))
  {
    var options := PlanOptions(desired);
    var (keep, remove) := Reconcile(options, variants);
    Plan(options, keep, Unclaimed(Cartesian(KeyLists(options)), Claimed(keep)), remove)
  }

  lemma AcceptableIsNonEmpty(current: seq<CurrentOption>, desired: seq<DesiredOption>)
    requires Acceptable(current, desired)
    ensures NonEmpty(PlanOptions(desired))
  {
    var options := PlanOptions(desired);
    forall i | 0 <= i < |options|
      ensures options[i].values != []
    {
      assert OptionSound(current, desired[i]);
    }
  }

  /** The combination of one variant, option by option, stopping at the first lost value. */
  method FindCombination(options: seq<PlannedOption>, v: CurrentVariant)
    returns (combination: seq<string>, lost: bool)
    requires NonEmpty(options)
    ensures lost <==> Combination(options, v).None?
    ensures !lost ==> Combination(options, v) == Some(combination)
  {
    combination, lost := [], false;
    var i := 0;
    while i < |options| && !lost
      invariant i <= |options|
      invariant !lost ==> |combination| == i && forall k | 0 <= k < i :: Choice(options[k], v) == Some(combination[k])
      invariant lost ==> exists k | 0 <= k < |options| :: Choice(options[k], v).None?
    {
      var o := options[i];
      var first := o.values[0];
      if o.id.None? || o.id.value !in v.values {
        combination := combination + [first.key];
      } else if HasId(o, v.values[o.id.value]) {
        combination := combination + [v.values[o.id.value]];
      } else {
        lost := true;
      }
      i := i + 1;
    }
    if !lost {
      assert Combination(options, v).Some?;
      assert Combination(options, v).value == combination;
    }
  }

  method PlanOptionChange(current: seq<CurrentOption>, variants: seq<CurrentVariant>, desired: seq<DesiredOption>)
    returns (r: Result<Plan, Problem>)
    ensures r.Ok? <==> Acceptable(current, desired)
    ensures r.Err? ==> OptionFault(current, desired, r.error)
    ensures r.Ok? ==> NonEmpty(PlanOptions(desired)) && r.value == PlanChange(variants, desired)
  {
    var problem := Validate(current, desired);
    if problem.Some? {
      return Err(problem.value);
    }
    AcceptableIsNonEmpty(current, desired);
    var options := PlanOptions(desired);
    var keep: seq<Kept>, remove: seq<string>, claimed: set<string> := [], [], {};
    for n := 0 to |variants|
      invariant (keep, remove) == Reconcile(options, variants[..n])
      invariant claimed == Claimed(keep)
    {
      var combination, lost := FindCombination(options, variants[n]);
      assert variants[..n + 1][..n] == variants[..n];
      if lost || Signature(combination) in claimed {
        remove := remove + [variants[n].id];
      } else {
        claimed := claimed + {Signature(combination)};
        keep := keep + [Kept(variants[n].id, combination)];
      }
    }
    assert variants[..|variants|] == variants;
    var create := Unclaimed(Cartesian(KeyLists(options)), claimed);
    return Ok(Plan(options, keep, create, remove));
  }

  // --- what a plan promises -----------------------------------------------------------

  /** Ids come from the database and hold neither "/" nor ":" (they are UUIDs). */
  predicate IsId(id: string) {
    Plain(id) && ':' !in id
  }

  /** The ids of the values each current option has. */
  predicate IdsSound(current: seq<CurrentOption>) {
    forall o | o in current :: forall v | v in o.valueIds :: IsId(v)
  }

  function VariantIds(variants: seq<CurrentVariant>): seq<string> {
    seq(|variants|, i requires 0 <= i < |variants| => variants[i].id)
  }

  function KeptIds(keep: seq<Kept>): seq<string> {
    seq(|keep|, i requires 0 <= i < |keep| => keep[i].variant)
  }

  lemma MultisetSnoc(ids: seq<string>, id: string)
    ensures multiset(ids + [id]) == multiset(ids) + multiset{id}
  {
  }

  /** Keep and remove together are the variants: nothing is lost and nothing is listed twice. */
  lemma {:induction false} KeepAndRemovePartition(options: seq<PlannedOption>, variants: seq<CurrentVariant>)
    requires NonEmpty(options)
    ensures var (keep, remove) := Reconcile(options, variants);
      multiset(KeptIds(keep)) + multiset(remove) == multiset(VariantIds(variants))
    decreases |variants|
  {
    if variants != [] {
      var n := |variants| - 1;
      var id := variants[n].id;
      var (keep, remove) := Reconcile(options, variants[..n]);
      var (keep', remove') := Reconcile(options, variants);
      assert (keep' == keep && remove' == remove + [id]) || (KeptIds(keep') == KeptIds(keep) + [id] && remove' == remove);
      assert VariantIds(variants) == VariantIds(variants[..n]) + [id];
      hide Reconcile, KeptIds, VariantIds;
      KeepAndRemovePartition(options, variants[..n]);
      MultisetSnoc(VariantIds(variants[..n]), id);
      MultisetSnoc(remove, id);
      MultisetSnoc(KeptIds(keep), id);
    }
  }

  lemma OwnIdsAreIds(current: seq<CurrentOption>, id: Option<string>)
    requires IdsSound(current)
    ensures forall v | v in OwnValueIds(current, id) :: IsId(v)
    decreases |current|
  {
    if id.Some? && current != [] {
      var last := current[|current| - 1];
      assert last in current;
      if last.id != id.value {
        OwnIdsAreIds(current[..|current| - 1], id);
      }
    }
  }

  lemma NewKeyIsPlain(i: nat, j: nat)
    ensures Plain("new:" + Digits(i) + ":" + Digits(j)) && ':' in "new:" + Digits(i) + ":" + Digits(j)
  {
    var key := "new:" + Digits(i) + ":" + Digits(j);
    assert key[3] == ':';
  }

  lemma NewKeyInjective(i: nat, j: nat, j': nat)
    requires "new:" + Digits(i) + ":" + Digits(j) == "new:" + Digits(i) + ":" + Digits(j')
    ensures j == j'
  {
    var prefix := "new:" + Digits(i) + ":";
    assert Digits(j) == (prefix + Digits(j))[|prefix|..];
    assert Digits(j') == (prefix + Digits(j'))[|prefix|..];
    DigitsInjective(j, j');
  }

  /** Within an option the keys are slash-free and different. */
  lemma OptionKeysSound(current: seq<CurrentOption>, o: DesiredOption, i: nat)
    requires IdsSound(current) && OptionSound(current, o)
    ensures var keys := Keys(PlanOption(o, i));
      NoDuplicates(keys) && forall j | 0 <= j < |keys| :: Plain(keys[j])
  {
    var keys := Keys(PlanOption(o, i));
    OwnIdsAreIds(current, o.id);
    forall j | 0 <= j < |keys|
      ensures Plain(keys[j]) && (o.values[j].id.Some? <==> ':' !in keys[j])
    {
      assert ValueSound(o.values[j], OwnValueIds(current, o.id));
      NewKeyIsPlain(i, j);
    }
    forall j, k | 0 <= j < k < |keys|
      ensures keys[j] != keys[k]
    {
      if o.values[j].id.None? && o.values[k].id.None? && keys[j] == keys[k] {
        NewKeyInjective(i, j, k);
      }
    }
  }

  lemma KeysSound(current: seq<CurrentOption>, desired: seq<DesiredOption>)
    requires IdsSound(current) && Acceptable(current, desired)
    ensures var lists := KeyLists(PlanOptions(desired));
      forall i | 0 <= i < |lists| ::
        NoDuplicates(lists[i]) && forall j | 0 <= j < |lists[i]| :: Plain(lists[i][j])
  {
    forall i | 0 <= i < |desired|
      ensures var keys := KeyLists(PlanOptions(desired))[i];
        NoDuplicates(keys) && forall j | 0 <= j < |keys| :: Plain(keys[j])
    {
      OptionKeysSound(current, desired[i], i);
    }
  }

  lemma ChoiceIsAKey(o: PlannedOption, v: CurrentVariant)
    requires o.values != []
    requires forall w | w in o.values && w.id.Some? :: w.key == w.id.value
    requires Choice(o, v).Some?
    ensures Choice(o, v).value in Keys(o)
  {
    var keys := Keys(o);
    if o.id.None? || o.id.value !in v.values {
      assert keys[0] == o.values[0].key;
    } else {
      var held := v.values[o.id.value];
      var j :| 0 <= j < |o.values| && o.values[j].id == Some(held);
      assert keys[j] == held;
    }
  }

  /** A surviving variant's combination is one of the product. */
  lemma CombinationChooses(desired: seq<DesiredOption>, v: CurrentVariant)
    requires NonEmpty(PlanOptions(desired))
    requires Combination(PlanOptions(desired), v).Some?
    ensures Chooses(Combination(PlanOptions(desired), v).value, KeyLists(PlanOptions(desired)))
  {
    var options := PlanOptions(desired);
    forall i | 0 <= i < |options|
      ensures Choice(options[i], v).value in Keys(options[i])
    {
      assert Choice(options[i], v).Some?;
      ChoiceIsAKey(options[i], v);
    }
  }

  lemma ChosenPlain(lists: seq<seq<string>>, c: seq<string>)
    requires Chooses(c, lists)
    requires forall i | 0 <= i < |lists| :: forall j | 0 <= j < |lists[i]| :: Plain(lists[i][j])
    ensures forall i | 0 <= i < |c| :: Plain(c[i])
  {
    forall i | 0 <= i < |c|
      ensures Plain(c[i])
    {
      assert c[i] in lists[i];
    }
  }

  /** Choices from the same lists are equal exactly when their signatures are. */
  lemma SignatureNames(lists: seq<seq<string>>, a: seq<string>, b: seq<string>)
    requires Chooses(a, lists) && Chooses(b, lists)
    requires forall i | 0 <= i < |lists| :: forall j | 0 <= j < |lists[i]| :: Plain(lists[i][j])
    ensures Signature(a) == Signature(b) <==> a == b
  {
    ChosenPlain(lists, a);
    ChosenPlain(lists, b);
    if Signature(a) == Signature(b) {
      SignatureInjective(a, b);
    }
  }

  /** The kept combinations are choices from the lists, and no two share a signature. */
  ghost predicate KeepSound(keep: seq<Kept>, lists: seq<seq<string>>) {
    && (forall k | k in keep :: Chooses(k.combination, lists))
    && (forall i, j | 0 <= i < j < |keep| :: Signature(keep[i].combination) != Signature(keep[j].combination))
  }

  lemma {:induction false} ReconcileKeeps(desired: seq<DesiredOption>, variants: seq<CurrentVariant>)
    requires NonEmpty(PlanOptions(desired))
    ensures KeepSound(Reconcile(PlanOptions(desired), variants).0, KeyLists(PlanOptions(desired)))
    decreases |variants|
  {
    if variants != [] {
      var n := |variants| - 1;
      ReconcileKeeps(desired, variants[..n]);
      if Combination(PlanOptions(desired), variants[n]).Some? {
        CombinationChooses(desired, variants[n]);
      }
      var keep := Reconcile(PlanOptions(desired), variants[..n]).0;
      assert forall i | 0 <= i < |keep| :: keep[i] in keep;
    }
  }

  predicate HasCombination(options: seq<PlannedOption>, variants: seq<CurrentVariant>, c: seq<string>)
    requires NonEmpty(options)
  {
    exists j | 0 <= j < |variants| :: Combination(options, variants[j]) == Some(c)
  }

  lemma HasCombinationStep(options: seq<PlannedOption>, variants: seq<CurrentVariant>, c: seq<string>)
    requires NonEmpty(options) && variants != []
    ensures var n := |variants| - 1;
      HasCombination(options, variants, c) <==>
      HasCombination(options, variants[..n], c) || Combination(options, variants[n]) == Some(c)
  {
    var n := |variants| - 1;
    if HasCombination(options, variants, c) {
      var j :| 0 <= j < |variants| && Combination(options, variants[j]) == Some(c);
      assert j < n ==> variants[..n][j] == variants[j];
    }
    if HasCombination(options, variants[..n], c) {
      var j :| 0 <= j < n && Combination(options, variants[..n][j]) == Some(c);
      assert variants[j] == variants[..n][j];
    }
  }

  lemma ClaimedStep(options: seq<PlannedOption>, variants: seq<CurrentVariant>, signature: string)
    requires NonEmpty(options) && variants != []
    ensures var n := |variants| - 1;
      var c := Combination(options, variants[n]);
      signature in Claimed(Reconcile(options, variants).0) <==>
      signature in Claimed(Reconcile(options, variants[..n]).0) || (c.Some? && Signature(c.value) == signature)
  {
    var n := |variants| - 1;
    var before, after := Reconcile(options, variants[..n]).0, Reconcile(options, variants).0;
    if after != before {
      var k := after[|before|];
      assert after == before + [k];
      assert k in after;
      assert forall x | x in after :: x in before || x == k;
    }
  }

  /** A signature is claimed exactly when a variant before has that combination. */
  lemma {:induction false} ClaimedByEarlier(
    current: seq<CurrentOption>, desired: seq<DesiredOption>, variants: seq<CurrentVariant>, c: seq<string>)
    requires IdsSound(current) && Acceptable(current, desired) && NonEmpty(PlanOptions(desired))
    requires Chooses(c, KeyLists(PlanOptions(desired)))
    ensures Signature(c) in Claimed(Reconcile(PlanOptions(desired), variants).0) <==>
      HasCombination(PlanOptions(desired), variants, c)
    decreases |variants|
  {
    if variants != [] {
      var options := PlanOptions(desired);
      var n := |variants| - 1;
      ClaimedByEarlier(current, desired, variants[..n], c);
      KeysSound(current, desired);
      ClaimedStep(options, variants, Signature(c));
      HasCombinationStep(options, variants, c);
      var own := Combination(options, variants[n]);
      if own.Some? {
        CombinationChooses(desired, variants[n]);
        SignatureNames(KeyLists(options), own.value, c);
      }
    }
  }

  /** The last variant joins those kept before it if its values exist and its combination is free. */
  lemma LastVariantDecided(current: seq<CurrentOption>, desired: seq<DesiredOption>, variants: seq<CurrentVariant>)
    requires IdsSound(current) && Acceptable(current, desired) && NonEmpty(PlanOptions(desired))
    requires variants != []
    ensures var options := PlanOptions(desired);
      var n := |variants| - 1;
      var c := Combination(options, variants[n]);
      var before := Reconcile(options, variants[..n]);
      Reconcile(options, variants) ==
        if c.Some? && !HasCombination(options, variants[..n], c.value)
        then (before.0 + [Kept(variants[n].id, c.value)], before.1)
        else (before.0, before.1 + [variants[n].id])
  {
    var n := |variants| - 1;
    var c := Combination(PlanOptions(desired), variants[n]);
    if c.Some? {
      CombinationChooses(desired, variants[n]);
      ClaimedByEarlier(current, desired, variants[..n], c.value);
    }
  }

  predicate KeepsVariant(keep: seq<Kept>, id: string) {
    exists k | k in keep :: k.variant == id
  }

  lemma {:induction false} KeptAreVariants(options: seq<PlannedOption>, variants: seq<CurrentVariant>, id: string)
    requires NonEmpty(options) && KeepsVariant(Reconcile(options, variants).0, id)
    ensures exists j | 0 <= j < |variants| :: variants[j].id == id
    decreases |variants|
  {
    if variants != [] {
      var n := |variants| - 1;
      var k :| k in Reconcile(options, variants).0 && k.variant == id;
      if k in Reconcile(options, variants[..n]).0 {
        KeptAreVariants(options, variants[..n], id);
        var j :| 0 <= j < n && variants[..n][j].id == id;
      } else {
        assert variants[n].id == id;
      }
    }
  }

  /**
   * Exactly which variants stay: a variant is kept, under its own combination, if and
   * only if all its values still exist and no earlier variant has that combination.
   */
  lemma {:induction false} KeptExactly(
    current: seq<CurrentOption>, desired: seq<DesiredOption>, variants: seq<CurrentVariant>, i: nat)
    requires IdsSound(current) && Acceptable(current, desired) && NonEmpty(PlanOptions(desired))
    requires i < |variants| && NoDuplicates(VariantIds(variants))
    ensures var options := PlanOptions(desired);
      var c := Combination(options, variants[i]);
      var keep := Reconcile(options, variants).0;
      && (KeepsVariant(keep, variants[i].id) <==> c.Some? && !HasCombination(options, variants[..i], c.value))
      && (forall k | k in keep && k.variant == variants[i].id :: c == Some(k.combination))
    decreases |variants|
  {
    hide Reconcile, Combination, HasCombination, PlanOptions;
    var options := PlanOptions(desired);
    var n := |variants| - 1;
    var before := Reconcile(options, variants[..n]).0;
    LastVariantDecided(current, desired, variants);
    assert forall j | 0 <= j < |variants| :: VariantIds(variants)[j] == variants[j].id;
    if i < n {
      assert forall j | 0 <= j < n :: VariantIds(variants[..n])[j] == VariantIds(variants)[j];
      assert variants[..n][..i] == variants[..i];
      KeptExactly(current, desired, variants[..n], i);
      KeepsOther(before, Reconcile(options, variants).0, variants[n].id, variants[i].id);
    } else {
      if KeepsVariant(before, variants[n].id) {
        KeptAreVariants(options, variants[..n], variants[n].id);
      }
      var c := Combination(options, variants[n]);
      if c.Some? && !HasCombination(options, variants[..n], c.value) {
        assert Kept(variants[n].id, c.value) in Reconcile(options, variants).0;
      }
    }
  }

  lemma KeepsOther(before: seq<Kept>, after: seq<Kept>, last: string, id: string)
    requires last != id && (after == before || exists c :: after == before + [Kept(last, c)])
    ensures KeepsVariant(after, id) <==> KeepsVariant(before, id)
    ensures forall k | k in after && k.variant == id :: k in before
  {
    if KeepsVariant(before, id) {
      var k :| k in before && k.variant == id;
      assert k in after;
    }
  }

  lemma {:induction false} UnclaimedExactly(combinations: seq<seq<string>>, claimed: set<string>)
    ensures forall c :: c in Unclaimed(combinations, claimed) <==> c in combinations && Signature(c) !in claimed
    ensures NoDuplicates(combinations) ==> NoDuplicates(Unclaimed(combinations, claimed))
    decreases |combinations|
  {
    if combinations != [] {
      var n := |combinations| - 1;
      UnclaimedExactly(combinations[..n], claimed);
      assert combinations == combinations[..n] + [combinations[n]];
      forall c
        ensures c in combinations <==> c in combinations[..n] || c == combinations[n]
      {
      }
    }
  }

  /** The combination of some kept variant. */
  predicate IsKept(keep: seq<Kept>, c: seq<string>) {
    exists i | 0 <= i < |keep| :: keep[i].combination == c
  }

  /**
   * Kept and created combinations are together exactly the Cartesian product of
   * the options' values: each combination is either kept by exactly one variant
   * or created exactly once.
   */
  lemma KeptAndCreatedAreTheProduct(
    current: seq<CurrentOption>, variants: seq<CurrentVariant>, desired: seq<DesiredOption>)
    requires IdsSound(current) && Acceptable(current, desired) && NonEmpty(PlanOptions(desired))
    ensures var plan := PlanChange(variants, desired);
      var lists := KeyLists(plan.options);
      && (forall c :: Chooses(c, lists) <==> IsKept(plan.keep, c) || c in plan.create)
      && (forall c :: !(IsKept(plan.keep, c) && c in plan.create))
      && (forall i, j | 0 <= i < j < |plan.keep| :: plan.keep[i].combination != plan.keep[j].combination)
      && NoDuplicates(plan.create)
  {
    var plan := PlanChange(variants, desired);
    var lists := KeyLists(plan.options);
    KeysSound(current, desired);
    CartesianDistinct(lists);
    UnclaimedExactly(Cartesian(lists), Claimed(plan.keep));
    ReconcileKeeps(desired, variants);
    forall c
      ensures Chooses(c, lists) <==> IsKept(plan.keep, c) || c in plan.create
      ensures !(IsKept(plan.keep, c) && c in plan.create)
    {
      CartesianMember(lists, c);
      if IsKept(plan.keep, c) {
        var i :| 0 <= i < |plan.keep| && plan.keep[i].combination == c;
        assert plan.keep[i] in plan.keep;
      } else if Chooses(c, lists) && Signature(c) in Claimed(plan.keep) {
        var k :| k in plan.keep && Signature(k.combination) == Signature(c);
        SignatureNames(lists, k.combination, c);
      }
    }
  }

  // --- confirmation -----------------------------------------------------------------

  /** An edit that removes variants waits until exactly those were confirmed. */
  predicate NeedsConfirmation(remove: seq<string>, confirmed: set<string>) {
    remove != [] && (|remove| != |confirmed| || exists id | id in remove :: id !in confirmed)
  }

  lemma {:induction false} SizeOfDistinct(ids: seq<string>)
    requires NoDuplicates(ids)
    ensures |set id | id in ids| == |ids|
    decreases |ids|
  {
    if ids != [] {
      var n := |ids| - 1;
      SizeOfDistinct(ids[..n]);
      assert (set id | id in ids) == (set id | id in ids[..n]) + {ids[n]};
    }
  }

  /** Nothing is applied unless no variant goes or the merchant named exactly the ones that do. */
  lemma ConfirmationIsExact(remove: seq<string>, confirmed: set<string>)
    requires NoDuplicates(remove)
    ensures !NeedsConfirmation(remove, confirmed) <==> remove == [] || confirmed == set id | id in remove
  {
    SizeOfDistinct(remove);
    var ids := set id | id in remove;
    if !NeedsConfirmation(remove, confirmed) && remove != [] {
      assert ids <= confirmed;
      assert |confirmed - ids| == |confirmed| - |ids|;
    }
  }
}
