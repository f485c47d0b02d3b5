/**
 * Applying an option plan to a product's variant rows, one row write at a
 * time, under a unique index on the signature that is never off.
 */
module VariantRows {
  import opened Common
  import opened Text
  import opened Combinations
  import opened VariantPlan

  /** What a new variant copies from the template variant. */
  datatype Terms = Terms(
    currency: string, priceAmount: int, compareAtAmount: Option<int>, costAmount: Option<int>, taxable: bool,
    requiresShipping: bool, weightGrams: Option<int>, overselling: bool, tracked: bool)

  /** A variant row; `links` are the option values it is linked to, in option order. */
  datatype Row = Row(
    signature: string, deleted: bool, title: string, position: int, sku: Option<string>, terms: Terms,
    links: seq<string>, hasHistory: bool)

  type Rows = map<string, Row>

  // --- the index ------------------------------------------------------------------

  /** The unique index: no two rows of the product share a signature, deleted rows included. */
  predicate UniqueSignatures(rows: Rows) {
    forall a, b | a in rows && b in rows && a != b :: rows[a].signature != rows[b].signature
  }

  predicate ColonFree(s: string) {
    ':' !in s
  }

  function DeletedTag(id: string): string {
    "deleted:" + id
  }

  function TemporaryTag(id: string): string {
    "tmp:" + id
  }

  /** A row's signature is made of value ids, or carries the row's own id behind a tag. */
  predicate Tagged(id: string, signature: string) {
    ColonFree(signature) || signature == DeletedTag(id) || signature == TemporaryTag(id)
  }

  predicate AllTagged(rows: Rows) {
    forall id | id in rows :: Tagged(id, rows[id].signature)
  }

  lemma TagsDiffer(a: string, b: string)
    ensures DeletedTag(a) == DeletedTag(b) ==> a == b
    ensures TemporaryTag(a) == TemporaryTag(b) ==> a == b
    ensures DeletedTag(a) != TemporaryTag(b)
    ensures !ColonFree(DeletedTag(a)) && !ColonFree(TemporaryTag(a))
  {
    assert DeletedTag(a)[7] == ':' && TemporaryTag(a)[3] == ':';
    assert DeletedTag(a)[0] == 'd' && TemporaryTag(b)[0] == 't';
    assert DeletedTag(a)[8..] == a && DeletedTag(b)[8..] == b;
    assert TemporaryTag(a)[4..] == a && TemporaryTag(b)[4..] == b;
  }

  // --- positions ------------------------------------------------------------------

  /** The place of an id in a list, -1 when it is not there. */
  function IndexIn(ids: seq<string>, id: string): (i: int)
    ensures -1 <= i < |ids|
    ensures 0 <= i ==> ids[i] == id
    ensures i == -1 <==> id !in ids
  {
    if ids == [] then -1
    else if ids[0] == id then 0
    else
      var rest := IndexIn(ids[1..], id);
      if rest == -1 then -1 else rest + 1
  }

  const BASE := 64

  /** The places of the values in their options, read as digits in base 64. */
  function Order(valueIds: seq<seq<string>>, values: seq<string>): int {
    if values == [] then 0
    else
      var n := |values| - 1;
      Order(valueIds, values[..n]) * BASE + (if n < |valueIds| then IndexIn(valueIds[n], values[n]) else 0)
  }

  /** One value comes before the other in the first option where they differ. */
  predicate Precedes(valueIds: seq<seq<string>>, a: seq<string>, b: seq<string>)
    requires |a| == |b| <= |valueIds|
  {
    if a == [] then false
    else
      var n := |a| - 1;
      || Precedes(valueIds, a[..n], b[..n])
      || (a[..n] == b[..n] && IndexIn(valueIds[n], a[n]) < IndexIn(valueIds[n], b[n]))
  }

  predicate Fits(valueIds: seq<seq<string>>) {
    forall i | 0 <= i < |valueIds| :: |valueIds[i]| <= MAX_VALUES_PER_OPTION
  }

  lemma PlaceBounds(valueIds: seq<seq<string>>, a: seq<string>, i: nat)
    requires Chooses(a, valueIds) && Fits(valueIds) && i < |a|
    ensures 0 <= IndexIn(valueIds[i], a[i]) < BASE
  {
    assert a[i] in valueIds[i];
  }

  lemma {:induction false} PrefixPositions(valueIds: seq<seq<string>>, a: seq<string>, b: seq<string>, k: nat)
    requires Chooses(a, valueIds) && Chooses(b, valueIds) && Fits(valueIds) && k <= |a|
    ensures Order(valueIds, a[..k]) < Order(valueIds, b[..k]) <==> Precedes(valueIds, a[..k], b[..k])
    ensures Order(valueIds, a[..k]) == Order(valueIds, b[..k]) <==> a[..k] == b[..k]
    decreases k
  {
    if k != 0 {
      var n := k - 1;
      PlaceBounds(valueIds, a, n);
      PlaceBounds(valueIds, b, n);
      PrefixPositions(valueIds, a, b, n);
      assert a[..k][..n] == a[..n] && b[..k][..n] == b[..n];
      assert a[..k] == a[..n] + [a[n]] && b[..k] == b[..n] + [b[n]];
    }
  }

  /** Positions order variants by their option values, first option first, and tell all of them apart. */
  lemma PositionsAreLexicographic(valueIds: seq<seq<string>>, a: seq<string>, b: seq<string>)
    requires Chooses(a, valueIds) && Chooses(b, valueIds) && Fits(valueIds)
    ensures Order(valueIds, a) < Order(valueIds, b) <==> Precedes(valueIds, a, b)
    ensures Order(valueIds, a) == Order(valueIds, b) <==> a == b
  {
    PrefixPositions(valueIds, a, b, |a|);
    assert a[..|a|] == a && b[..|b|] == b;
  }

  // --- resolving keys -----------------------------------------------------------------

  /** Value ids are primary keys: no two rows share one, whichever options they belong to. */
  predicate ApartAcross(valueIds: seq<seq<string>>) {
    forall a, b | 0 <= a < b < |valueIds| :: forall v | v in valueIds[a] :: v !in valueIds[b]
  }

  /** The row ids the planned values get, option by option: an existing value keeps its own. */
  predicate Assigns(options: seq<PlannedOption>, valueIds: seq<seq<string>>) {
    && |valueIds| == |options|
    && (forall i | 0 <= i < |options| :: |valueIds[i]| == |options[i].values|)
    && (forall i | 0 <= i < |options| :: forall j | 0 <= j < |valueIds[i]| ::
        options[i].values[j].id.Some? ==> valueIds[i][j] == options[i].values[j].id.value)
    && ApartAcross(valueIds)
    && (forall i | 0 <= i < |options| :: NoDuplicates(valueIds[i]))
    && (forall i | 0 <= i < |options| :: forall j | 0 <= j < |valueIds[i]| :: IsId(valueIds[i][j]))
  }

  /** Planned keys are different across the whole plan, so one map can resolve them all. */
  predicate KeysDistinct(options: seq<PlannedOption>) {
    forall i, j, i', j' |
      0 <= i < |options| && 0 <= j < |options[i].values| && 0 <= i' < |options| && 0 <= j' < |options[i'].values| ::
      options[i].values[j].key == options[i'].values[j'].key ==> i == i' && j == j'
  }

  predicate Resolves(options: seq<PlannedOption>, valueIds: seq<seq<string>>, keyToId: map<string, string>)
    requires Assigns(options, valueIds)
  {
    forall i | 0 <= i < |options| :: forall j | 0 <= j < |options[i].values| ::
      options[i].values[j].key in keyToId && keyToId[options[i].values[j].key] == valueIds[i][j]
  }

  /** Each value row shows the text planned for it. */
  predicate ShowsTexts(options: seq<PlannedOption>, valueIds: seq<seq<string>>, valueText: map<string, string>)
    requires Assigns(options, valueIds)
  {
    forall i | 0 <= i < |options| :: forall j | 0 <= j < |options[i].values| ::
      valueIds[i][j] in valueText && valueText[valueIds[i][j]] == options[i].values[j].text
  }

  function Resolve(keyToId: map<string, string>, c: seq<string>): seq<string>
    requires forall i | 0 <= i < |c| :: c[i] in keyToId
  {
    seq(|c|, i requires 0 <= i < |c| => keyToId[c[i]])
  }

  /** Resolving a combination gives a choice from the valueIds ids. */
  lemma ResolvedChooses(
    options: seq<PlannedOption>, valueIds: seq<seq<string>>, keyToId: map<string, string>, c: seq<string>)
    requires Assigns(options, valueIds) && Resolves(options, valueIds, keyToId)
    requires Chooses(c, KeyLists(options))
    ensures forall i | 0 <= i < |c| :: c[i] in keyToId
    ensures Chooses(Resolve(keyToId, c), valueIds)
  {
    forall i | 0 <= i < |c|
      ensures c[i] in keyToId && keyToId[c[i]] in valueIds[i]
    {
      var keys := Keys(options[i]);
      assert c[i] in KeyLists(options)[i];
      var j :| 0 <= j < |keys| && keys[j] == c[i];
      assert options[i].values[j].key == c[i];
    }
  }

  lemma ResolveInjective(
    options: seq<PlannedOption>, valueIds: seq<seq<string>>, keyToId: map<string, string>, a: seq<string>, b: seq<string>)
    requires Assigns(options, valueIds) && Resolves(options, valueIds, keyToId)
    requires Chooses(a, KeyLists(options)) && Chooses(b, KeyLists(options)) && a != b
    ensures forall i | 0 <= i < |a| :: a[i] in keyToId && b[i] in keyToId
    ensures Resolve(keyToId, a) != Resolve(keyToId, b)
  {
    ResolvedChooses(options, valueIds, keyToId, a);
    ResolvedChooses(options, valueIds, keyToId, b);
    var i :| 0 <= i < |a| && a[i] != b[i];
    var keys := Keys(options[i]);
    assert a[i] in KeyLists(options)[i] && b[i] in KeyLists(options)[i];
    var j :| 0 <= j < |keys| && keys[j] == a[i];
    var k :| 0 <= k < |keys| && keys[k] == b[i];
    assert keyToId[options[i].values[j].key] == valueIds[i][j];
    assert keyToId[options[i].values[k].key] == valueIds[i][k];
    assert valueIds[i][j] != valueIds[i][k];
    assert Resolve(keyToId, a)[i] != Resolve(keyToId, b)[i];
  }

  /** Different choices of valueIds ids have different signatures, and signatures never look tagged. */
  lemma SignaturesOfChoices(valueIds: seq<seq<string>>, a: seq<string>, b: seq<string>)
    requires forall i | 0 <= i < |valueIds| :: forall j | 0 <= j < |valueIds[i]| :: IsId(valueIds[i][j])
    requires Chooses(a, valueIds) && Chooses(b, valueIds)
    ensures Signature(a) == Signature(b) <==> a == b
    ensures ColonFree(Signature(a))
  {
    SignatureNames(valueIds, a, b);
    forall i | 0 <= i < |a|
      ensures ':' !in a[i]
    {
      assert a[i] in valueIds[i];
    }
    SignatureHasNo(a, ':');
  }

  /** "Red / Large", or "Default" for a product without options. */
  function VariantTitle(texts: seq<string>): string {
    if texts == [] then "Default" else Join(texts, " / ")
  }

  // --- what each phase leaves ----------------------------------------------------------

  /** After the first phase: listed rows with history are soft-deleted, the others gone. */
  function Removed(rows: Rows, ids: set<string>): Rows {
    map id | id in rows && !(id in ids && !rows[id].hasHistory) ::
      if id in ids then rows[id].(signature := DeletedTag(id), deleted := true, links := []) else rows[id]
  }

  /** The listed rows that have stock history. */
  function WithHistory(rows: Rows, ids: set<string>): set<string> {
    set id | id in ids && id in rows && rows[id].hasHistory
  }

  lemma OneMoreHistory(rows: Rows, done: set<string>, id: string)
    requires id in rows && id !in done
    ensures |WithHistory(rows, done + {id})| == |WithHistory(rows, done)| + if rows[id].hasHistory then 1 else 0
  {
    assert WithHistory(rows, done + {id}) == WithHistory(rows, done) + if rows[id].hasHistory then {id} else {};
  }

  /** Rebuilding the options cascades to every link. */
  function Unlinked(rows: Rows): Rows {
    map id | id in rows :: rows[id].(links := [])
  }

  /** Kept rows waiting for their new signature. */
  function Parked(rows: Rows, ids: set<string>): Rows {
    map id | id in rows :: if id in ids then rows[id].(signature := TemporaryTag(id)) else rows[id]
  }

  function TextOf(valueText: map<string, string>, id: string): string {
    if id in valueText then valueText[id] else ""
  }

  function Texts(valueText: map<string, string>, values: seq<string>): seq<string> {
    seq(|values|, i requires 0 <= i < |values| => TextOf(valueText, values[i]))
  }

  function SettledRow(row: Row, valueIds: seq<seq<string>>, valueText: map<string, string>, values: seq<string>): Row
  {
    row.(
      signature := Signature(values),
      title := VariantTitle(Texts(valueText, values)),
      position := Order(valueIds, values),
      links := values)
  }

  function CreatedRow(terms: Terms, valueIds: seq<seq<string>>, valueText: map<string, string>, values: seq<string>): Row
  {
    Row(Signature(values), false, VariantTitle(Texts(valueText, values)), Order(valueIds, values), None, terms, values, false)
  }

  /** Which row takes which values. */
  type Assignment = map<string, seq<string>>

  /** Kept rows with their new signature, title, position and links. */
  function Settled(rows: Rows, kept: Assignment, valueIds: seq<seq<string>>, valueText: map<string, string>): Rows {
    map id | id in rows :: if id in kept then SettledRow(rows[id], valueIds, valueText, kept[id]) else rows[id]
  }

  /** The rows together with one new row for each created combination. */
  function WithCreated(
    rows: Rows, created: Assignment, terms: Terms, valueIds: seq<seq<string>>, valueText: map<string, string>): Rows
  {
    rows + map id | id in created :: CreatedRow(terms, valueIds, valueText, created[id])
  }

  /** The assignment of values to rows listed side by side. */
  function Pair(ids: seq<string>, values: seq<seq<string>>): Assignment
    requires |ids| == |values|
  {
    if ids == [] then map[]
    else
      var n := |ids| - 1;
      Pair(ids[..n], values[..n])[ids[n] := values[n]]
  }

  predicate AllIds(valueIds: seq<seq<string>>) {
    forall i | 0 <= i < |valueIds| :: forall j | 0 <= j < |valueIds[i]| :: IsId(valueIds[i][j])
  }

  /** Each row takes a choice of the option values, and no two rows the same. */
  predicate SoundAssignment(m: Assignment, valueIds: seq<seq<string>>) {
    && (forall id | id in m :: Chooses(m[id], valueIds))
    && (forall a, b | a in m && b in m && a != b :: m[a] != m[b])
  }

  lemma {:induction false} PairLookup(ids: seq<string>, values: seq<seq<string>>)
    requires |ids| == |values| && NoDuplicates(ids)
    ensures forall id :: id in Pair(ids, values) <==> id in ids
    ensures forall k | 0 <= k < |ids| :: ids[k] in Pair(ids, values) && Pair(ids, values)[ids[k]] == values[k]
    decreases |ids|
  {
    if ids != [] {
      var n := |ids| - 1;
      PairLookup(ids[..n], values[..n]);
      assert ids == ids[..n] + [ids[n]];
      forall k | 0 <= k < n
        ensures Pair(ids, values)[ids[k]] == values[k]
      {
        assert ids[..n][k] == ids[k] && ids[k] != ids[n];
      }
    }
  }

  lemma PairSound(ids: seq<string>, values: seq<seq<string>>, valueIds: seq<seq<string>>)
    requires |ids| == |values| && NoDuplicates(ids) && NoDuplicates(values)
    requires forall k | 0 <= k < |values| :: Chooses(values[k], valueIds)
    ensures SoundAssignment(Pair(ids, values), valueIds)
    ensures forall id :: id in Pair(ids, values) <==> id in ids
    ensures forall id | id in Pair(ids, values) :: Pair(ids, values)[id] in values
  {
    PairLookup(ids, values);
    hide Pair, Chooses, NoDuplicates;
    forall id | id in Pair(ids, values)
      ensures Chooses(Pair(ids, values)[id], valueIds) && Pair(ids, values)[id] in values
    {
      var k := PlaceIn(ids, values, id);
    }
    forall a, b | a in Pair(ids, values) && b in Pair(ids, values) && a != b
      ensures Pair(ids, values)[a] != Pair(ids, values)[b]
    {
      PairDistinct(ids, values, a, b);
    }
  }

  lemma PlaceIn(ids: seq<string>, values: seq<seq<string>>, id: string) returns (k: nat)
    requires |ids| == |values| && NoDuplicates(ids) && id in Pair(ids, values)
    ensures k < |ids| && ids[k] == id && Pair(ids, values)[id] == values[k]
  {
    PairLookup(ids, values);
    hide Pair;
    k :| 0 <= k < |ids| && ids[k] == id;
  }

  lemma PairDistinct(ids: seq<string>, values: seq<seq<string>>, a: string, b: string)
    requires |ids| == |values| && NoDuplicates(ids) && NoDuplicates(values)
    requires a in Pair(ids, values) && b in Pair(ids, values) && a != b
    ensures Pair(ids, values)[a] != Pair(ids, values)[b]
  {
    var i := PlaceIn(ids, values, a);
    var k := PlaceIn(ids, values, b);
    hide Pair;
  }

  // --- one row at a time ------------------------------------------------------------------

  lemma RemoveOne(rows: Rows, done: set<string>, id: string)
    requires id in rows && id !in done
    ensures var before, after := Removed(rows, done), Removed(rows, done + {id});
      && id in before && before[id] == rows[id]
      && (rows[id].hasHistory ==>
          before[id := rows[id].(signature := DeletedTag(id), deleted := true, links := [])] == after)
      && (!rows[id].hasHistory ==> before - {id} == after)
  {
  }

  lemma ParkOne(rows: Rows, done: set<string>, id: string)
    requires id in rows
    ensures var before := Parked(rows, done);
      before[id := before[id].(signature := TemporaryTag(id))] == Parked(rows, done + {id})
  {
  }

  lemma SettleOne(
    rows: Rows, ids: seq<string>, values: seq<seq<string>>, k: nat, valueIds: seq<seq<string>>,
    valueText: map<string, string>)
    requires |ids| == |values| && NoDuplicates(ids) && k < |ids| && ids[k] in rows
    ensures var before := Settled(rows, Pair(ids[..k], values[..k]), valueIds, valueText);
      before[ids[k] := SettledRow(before[ids[k]], valueIds, valueText, values[k])]
        == Settled(rows, Pair(ids[..k + 1], values[..k + 1]), valueIds, valueText)
  {
    PairLookup(ids[..k], values[..k]);
    assert ids[..k + 1][..k] == ids[..k] && values[..k + 1][..k] == values[..k];
    assert Pair(ids[..k + 1], values[..k + 1]) == Pair(ids[..k], values[..k])[ids[k] := values[k]];
  }

  lemma CreateMore(
    rows: Rows, created: Assignment, id: string, values: seq<string>, terms: Terms, valueIds: seq<seq<string>>,
    valueText: map<string, string>)
    ensures WithCreated(rows, created, terms, valueIds, valueText)[id := CreatedRow(terms, valueIds, valueText, values)]
      == WithCreated(rows, created[id := values], terms, valueIds, valueText)
  {
  }

  lemma CreateOne(
    rows: Rows, ids: seq<string>, values: seq<seq<string>>, k: nat, terms: Terms, valueIds: seq<seq<string>>,
    valueText: map<string, string>)
    requires |ids| == |values| && k < |ids|
    ensures WithCreated(rows, Pair(ids[..k], values[..k]), terms, valueIds, valueText)
        [ids[k] := CreatedRow(terms, valueIds, valueText, values[k])]
      == WithCreated(rows, Pair(ids[..k + 1], values[..k + 1]), terms, valueIds, valueText)
  {
    assert ids[..k + 1][..k] == ids[..k] && values[..k + 1][..k] == values[..k];
    CreateMore(rows, Pair(ids[..k], values[..k]), ids[k], values[k], terms, valueIds, valueText);
  }

  // --- no phase ever breaks the index ---------------------------------------------------

  lemma RemovedSound(rows: Rows, ids: set<string>)
    requires UniqueSignatures(rows) && AllTagged(rows)
    ensures UniqueSignatures(Removed(rows, ids)) && AllTagged(Removed(rows, ids))
  {
    var after := Removed(rows, ids);
    forall a, b | a in after && b in after && a != b
      ensures after[a].signature != after[b].signature
    {
      TagsDiffer(a, b);
      TagsDiffer(b, a);
    }
  }

  lemma ParkedSound(rows: Rows, ids: set<string>)
    requires UniqueSignatures(rows) && AllTagged(rows)
    ensures UniqueSignatures(Parked(rows, ids)) && AllTagged(Parked(rows, ids))
  {
    var after := Parked(rows, ids);
    forall a, b | a in after && b in after && a != b
      ensures after[a].signature != after[b].signature
    {
      TagsDiffer(a, b);
      TagsDiffer(b, a);
    }
  }

  lemma SettledSound(rows: Rows, kept: Assignment, valueIds: seq<seq<string>>, valueText: map<string, string>)
    requires UniqueSignatures(rows) && AllTagged(rows) && AllIds(valueIds)
    requires forall id | id in rows :: !ColonFree(rows[id].signature)
    requires SoundAssignment(kept, valueIds)
    ensures UniqueSignatures(Settled(rows, kept, valueIds, valueText))
    ensures AllTagged(Settled(rows, kept, valueIds, valueText))
  {
    var after := Settled(rows, kept, valueIds, valueText);
    forall a | a in kept
      ensures ColonFree(Signature(kept[a]))
    {
      SignaturesOfChoices(valueIds, kept[a], kept[a]);
    }
    forall a, b | a in after && b in after && a != b
      ensures after[a].signature != after[b].signature
    {
      if a in kept && b in kept {
        SignaturesOfChoices(valueIds, kept[a], kept[b]);
      }
    }
  }

  lemma CreatedSound(
    rows: Rows, created: Assignment, terms: Terms, valueIds: seq<seq<string>>, valueText: map<string, string>)
    requires UniqueSignatures(rows) && AllTagged(rows) && AllIds(valueIds)
    requires SoundAssignment(created, valueIds) && rows.Keys !! created.Keys
    requires forall id, c | id in rows && c in created :: rows[id].signature != Signature(created[c])
    ensures UniqueSignatures(WithCreated(rows, created, terms, valueIds, valueText))
    ensures AllTagged(WithCreated(rows, created, terms, valueIds, valueText))
  {
    hide Signature, Order, VariantTitle, Chooses;
    var after := WithCreated(rows, created, terms, valueIds, valueText);
    forall a | a in created
      ensures ColonFree(Signature(created[a]))
    {
      SignaturesOfChoices(valueIds, created[a], created[a]);
    }
    forall a, b | a in after && b in after && a != b
      ensures after[a].signature != after[b].signature
    {
      if a in created && b in created {
        SignaturesOfChoices(valueIds, created[a], created[b]);
      }
    }
  }

  // --- the table ---------------------------------------------------------------------

  /** One statement's effect: one row written or gone, or all links dropped by the cascade. */
  ghost predicate OneWrite(before: Rows, after: Rows) {
    (exists id :: after - {id} == before - {id}) || after == Unlinked(before)
  }

  /** States a table went through: the index holds in each, and each comes from the one before by one write. */
  ghost predicate LogSound(log: seq<Rows>) {
    && log != []
    && (forall i | 0 <= i < |log| :: UniqueSignatures(log[i]))
    && (forall i | 0 < i < |log| :: OneWrite(log[i - 1], log[i]))
  }

  lemma LogAppend(log: seq<Rows>, next: Rows)
    requires LogSound(log) && UniqueSignatures(next) && OneWrite(log[|log| - 1], next)
    ensures LogSound(log + [next])
  {
    var longer := log + [next];
    forall i | 0 < i < |longer|
      ensures OneWrite(longer[i - 1], longer[i])
    {
      assert longer[i - 1] == log[i - 1];
    }
  }

  /** The first values of an option are in both maps: their key with their row id, the id with its text. */
  predicate Filed(
    o: PlannedOption, ids: seq<string>, count: nat, keyToId: map<string, string>, valueText: map<string, string>)
    requires count <= |o.values| == |ids|
  {
    forall b | 0 <= b < count ::
      && o.values[b].key in keyToId && keyToId[o.values[b].key] == ids[b]
      && ids[b] in valueText && valueText[ids[b]] == o.values[b].text
  }

  /** Filing one more value leaves the ones before it alone: its key and its id are its own. */
  lemma FiledElsewhere(
    options: seq<PlannedOption>, valueIds: seq<seq<string>>, a: nat, count: nat, i: nat, j: nat,
    keyToId: map<string, string>, valueText: map<string, string>)
    requires Assigns(options, valueIds) && KeysDistinct(options)
    requires a <= i < |options| && count <= |options[a].values| && j < |options[i].values|
    requires a == i ==> count <= j
    requires Filed(options[a], valueIds[a], count, keyToId, valueText)
    ensures Filed(options[a], valueIds[a], count,
      keyToId[options[i].values[j].key := valueIds[i][j]], valueText[valueIds[i][j] := options[i].values[j].text])
  {
    forall b | 0 <= b < count
      ensures options[a].values[b].key != options[i].values[j].key && valueIds[a][b] != valueIds[i][j]
    {
      assert valueIds[a][b] in valueIds[a] && valueIds[i][j] in valueIds[i];
    }
  }

  class VariantTable {
    var rows: Rows
    /** Every state of the table, up to the current one. */
    ghost var history: seq<Rows>

    constructor ()
      ensures rows == map[] && Recorded() && history == [rows]
    {
      rows := map[];
      history := [map[]];
    }

    ghost predicate Recorded()
      reads this
    {
      LogSound(history) && history[|history| - 1] == rows
    }

    /** Writes one row. The unique index must accept the result: a caller that breaks it cannot be verified. */
    method Put(id: string, row: Row)
      requires Recorded() && UniqueSignatures(rows[id := row])
      modifies this
      ensures rows == old(rows)[id := row] && UniqueSignatures(rows)
      ensures Recorded() && history == old(history) + [rows]
    {
      assert rows[id := row] - {id} == rows - {id};
      rows := rows[id := row];
      LogAppend(history, rows);
      history := history + [rows];
    }

    method Remove(id: string)
      requires Recorded()
      modifies this
      ensures rows == old(rows) - {id} && UniqueSignatures(rows)
      ensures Recorded() && history == old(history) + [rows]
    {
      assert UniqueSignatures(rows);
      assert (rows - {id}) - {id} == rows - {id};
      rows := rows - {id};
      LogAppend(history, rows);
      history := history + [rows];
    }

    /** Deleting the options drops every link with them; the rows themselves stay. */
    method Cascade()
      requires Recorded()
      modifies this
      ensures rows == Unlinked(old(rows)) && UniqueSignatures(rows)
      ensures Recorded() && history == old(history) + [rows]
    {
      assert UniqueSignatures(rows);
      rows := map id | id in rows :: rows[id].(links := []);
      LogAppend(history, rows);
      history := history + [rows];
    }

    /** Erases a removed variant, or soft-deletes it when it has stock history. */
    method RemoveVariants(ids: seq<string>) returns (softDeleted: nat, hardDeleted: nat)
      requires Recorded() && AllTagged(rows)
      requires NoDuplicates(ids) && forall id | id in ids :: id in rows
      modifies this
      ensures rows == Removed(old(rows), set id | id in ids)
      ensures UniqueSignatures(rows) && AllTagged(rows)
      ensures Recorded() && old(history) <= history
      ensures softDeleted + hardDeleted == |ids|
      ensures softDeleted == |WithHistory(old(rows), set id | id in ids)|
    {
      assert UniqueSignatures(rows);
      softDeleted, hardDeleted := 0, 0;
      ghost var done: set<string> := {};
      assert rows == Removed(rows, {});
      assert WithHistory(rows, {}) == {};
      hide LogSound, Removed, WithHistory, UniqueSignatures, AllTagged;
      for k := 0 to |ids|
        invariant done == set i | 0 <= i < k :: ids[i]
        invariant rows == Removed(old(rows), done)
        invariant Recorded() && old(history) <= history && UniqueSignatures(rows)
        invariant softDeleted + hardDeleted == k
        invariant softDeleted == |WithHistory(old(rows), done)|
      {
        var id := ids[k];
        assert id in ids && id in old(rows) && id !in done;
        RemovedSound(old(rows), done + {id});
        RemoveOne(old(rows), done, id);
        if rows[id].hasHistory {
          Put(id, rows[id].(signature := DeletedTag(id), deleted := true, links := []));
          softDeleted := softDeleted + 1;
        } else {
          Remove(id);
          hardDeleted := hardDeleted + 1;
        }
        OneMoreHistory(old(rows), done, id);
        done := done + {id};
      }
      assert done == set id | id in ids;
      RemovedSound(old(rows), done);
    }

    /** Gives every kept row a temporary signature. */
    method ParkVariants(ids: seq<string>)
      requires Recorded() && AllTagged(rows)
      requires forall id | id in ids :: id in rows
      modifies this
      ensures rows == Parked(old(rows), set id | id in ids)
      ensures UniqueSignatures(rows) && AllTagged(rows)
      ensures Recorded() && old(history) <= history
    {
      assert UniqueSignatures(rows);
      hide LogSound;
      ghost var done: set<string> := {};
      assert rows == Parked(rows, {});
      for k := 0 to |ids|
        invariant done == set i | 0 <= i < k :: ids[i]
        invariant rows == Parked(old(rows), done)
        invariant Recorded() && old(history) <= history && UniqueSignatures(rows)
      {
        var id := ids[k];
        assert id in ids && id in old(rows);
        ParkedSound(old(rows), done + {id});
        ParkOne(old(rows), done, id);
        Put(id, rows[id].(signature := TemporaryTag(id)));
        done := done + {id};
      }
      assert done == set id | id in ids;
      ParkedSound(old(rows), done);
    }

    /** Re-creates options and values; their old rows go, and with them every link. */
    method RebuildOptions(options: seq<PlannedOption>, valueIds: seq<seq<string>>)
      returns (keyToId: map<string, string>, valueText: map<string, string>)
      requires Assigns(options, valueIds) && KeysDistinct(options)
      requires Recorded() && AllTagged(rows)
      modifies this
      ensures rows == Unlinked(old(rows))
      ensures UniqueSignatures(rows) && AllTagged(rows)
      ensures Recorded() && old(history) <= history
      ensures Resolves(options, valueIds, keyToId)
      ensures ShowsTexts(options, valueIds, valueText)
    {
      assert UniqueSignatures(rows);
      Cascade();
      keyToId, valueText := map[], map[];
      for i := 0 to |options|
        invariant forall a | 0 <= a < i :: Filed(options[a], valueIds[a], |options[a].values|, keyToId, valueText)
        modifies {}
      {
        for j := 0 to |options[i].values|
          invariant forall a | 0 <= a < i :: Filed(options[a], valueIds[a], |options[a].values|, keyToId, valueText)
          invariant Filed(options[i], valueIds[i], j, keyToId, valueText)
          modifies {}
        {
          ghost var keys, texts := keyToId, valueText;
          keyToId := keyToId[options[i].values[j].key := valueIds[i][j]];
          valueText := valueText[valueIds[i][j] := options[i].values[j].text];
          forall a | 0 <= a < i
            ensures Filed(options[a], valueIds[a], |options[a].values|, keyToId, valueText)
          {
            FiledElsewhere(options, valueIds, a, |options[a].values|, i, j, keys, texts);
          }
          FiledElsewhere(options, valueIds, i, j, i, j, keys, texts);
        }
      }
    }

    /** Kept rows take their new signature, title, position and links, one by one. */
    method SettleVariants(
      ids: seq<string>, values: seq<seq<string>>, valueIds: seq<seq<string>>, valueText: map<string, string>)
      requires Recorded() && AllTagged(rows) && AllIds(valueIds)
      requires |ids| == |values| && NoDuplicates(ids) && NoDuplicates(values)
      requires forall k | 0 <= k < |ids| :: ids[k] in rows && Chooses(values[k], valueIds)
      requires forall id | id in rows :: !ColonFree(rows[id].signature)
      modifies this
      ensures rows == Settled(old(rows), Pair(ids, values), valueIds, valueText)
      ensures UniqueSignatures(rows) && AllTagged(rows)
      ensures Recorded() && old(history) <= history
    {
      assert rows == Settled(rows, map[], valueIds, valueText);
      assert UniqueSignatures(rows);
      hide LogSound, Settled, SettledRow, Chooses, UniqueSignatures, AllTagged;
      assert Pair(ids[..0], values[..0]) == map[];
      for k := 0 to |ids|
        invariant rows == Settled(old(rows), Pair(ids[..k], values[..k]), valueIds, valueText)
        invariant Recorded() && old(history) <= history && UniqueSignatures(rows)
      {
        PairSound(ids[..k + 1], values[..k + 1], valueIds);
        SettledSound(old(rows), Pair(ids[..k + 1], values[..k + 1]), valueIds, valueText);
        SettleOne(old(rows), ids, values, k, valueIds, valueText);
        Put(ids[k], SettledRow(rows[ids[k]], valueIds, valueText, values[k]));
      }
      assert ids[..|ids|] == ids && values[..|values|] == values;
      PairSound(ids, values, valueIds);
      SettledSound(old(rows), Pair(ids, values), valueIds, valueText);
    }

    /** New combinations become new rows, priced and configured like the template. */
    method CreateVariants(
      ids: seq<string>, values: seq<seq<string>>, terms: Terms, valueIds: seq<seq<string>>, valueText: map<string, string>)
      requires Recorded() && AllTagged(rows) && AllIds(valueIds)
      requires |ids| == |values| && NoDuplicates(ids) && NoDuplicates(values)
      requires forall k | 0 <= k < |ids| :: ids[k] !in rows && Chooses(values[k], valueIds)
      requires forall id, k | id in rows && 0 <= k < |values| :: rows[id].signature != Signature(values[k])
      modifies this
      ensures rows == WithCreated(old(rows), Pair(ids, values), terms, valueIds, valueText)
      ensures UniqueSignatures(rows) && AllTagged(rows)
      ensures Recorded() && old(history) <= history
    {
      assert UniqueSignatures(rows);
      assert rows == WithCreated(rows, map[], terms, valueIds, valueText);
      hide LogSound;
      for k := 0 to |ids|
        invariant rows == WithCreated(old(rows), Pair(ids[..k], values[..k]), terms, valueIds, valueText)
        invariant Recorded() && old(history) <= history && UniqueSignatures(rows)
      {
        PrefixCreatedSound(old(rows), ids, values, k + 1, terms, valueIds, valueText);
        CreateOne(old(rows), ids, values, k, terms, valueIds, valueText);
        Put(ids[k], CreatedRow(terms, valueIds, valueText, values[k]));
      }
      assert ids[..|ids|] == ids && values[..|values|] == values;
      PrefixCreatedSound(old(rows), ids, values, |ids|, terms, valueIds, valueText);
    }
  }

  lemma PrefixCreatedSound(
    rows: Rows, ids: seq<string>, values: seq<seq<string>>, k: nat, terms: Terms, valueIds: seq<seq<string>>,
    valueText: map<string, string>)
    requires UniqueSignatures(rows) && AllTagged(rows) && AllIds(valueIds)
    requires |ids| == |values| && NoDuplicates(ids) && NoDuplicates(values) && k <= |ids|
    requires forall k | 0 <= k < |ids| :: ids[k] !in rows && Chooses(values[k], valueIds)
    requires forall id, k | id in rows && 0 <= k < |values| :: rows[id].signature != Signature(values[k])
    ensures UniqueSignatures(WithCreated(rows, Pair(ids[..k], values[..k]), terms, valueIds, valueText))
    ensures AllTagged(WithCreated(rows, Pair(ids[..k], values[..k]), terms, valueIds, valueText))
  {
    var created := Pair(ids[..k], values[..k]);
    PairSound(ids[..k], values[..k], valueIds);
    forall id, c | id in rows && c in created
      ensures rows[id].signature != Signature(created[c])
    {
      assert created[c] in values[..k];
      var j :| 0 <= j < k && values[j] == created[c];
    }
    CreatedSound(rows, created, terms, valueIds, valueText);
  }
}
