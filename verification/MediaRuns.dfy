/** What every interleaving of the media protocol keeps. */
module MediaRuns {
  import opened Common
  import opened Entitlements
  import opened Usage
  import opened Media

  /** A row no completion ever finished: it still points at its raw upload and holds no bytes. */
  predicate Untouched(id: nat, a: Asset) {
    a.storageKey == RawUpload(id) && a.renditions == [] && a.sizeBytes == 0
  }

  /** A row a completion finished: it records objects of its own and some bytes. */
  predicate Finished(id: nat, a: Asset) {
    && a.storageKey.Original? && a.storageKey.asset == id
    && (forall r | r in a.renditions :: r.key.Rendition? && r.key.asset == id)
    && (forall i, j | 0 <= i < j < |a.renditions| :: a.renditions[i].key != a.renditions[j].key)
    && 0 < StoredBytes(a)
  }

  predicate RowSound(id: nat, a: Asset) {
    && (a.status == READY ==> Finished(id, a))
    && (a.status == DELETED ==> Untouched(id, a) || Finished(id, a))
    && (a.status != READY && a.status != DELETED ==> Untouched(id, a))
    && (a.purged ==> a.status == DELETED)
  }

  /** The object is in storage and that big. */
  predicate Holds(storage: map<Key, nat>, k: Key, bytes: nat) {
    k in storage && storage[k] == bytes
  }

  /** A completion in progress has its written objects in storage and its row not yet finished. */
  predicate StageSound(id: nat, a: Asset, stage: Stage, storage: map<Key, nat>) {
    && a.status != PENDING_UPLOAD && a.status != READY
    && Untouched(id, a)
    && (stage.Writing? ==>
        && stage.written <= |ObjectKeys(id, stage.image)|
        && stage.image.DistinctWidths()
        && forall j | 0 <= j < stage.written ::
            Holds(storage, ObjectKeys(id, stage.image)[j], ObjectSizes(stage.image)[j]))
  }

  /** Of the recorded objects, those not left to do are gone; raw uploads may come back until their target expires. */
  predicate Gone(a: Asset, storage: map<Key, nat>, todo: seq<Key>) {
    forall k | k in RecordedKeys(a) && k !in todo :: k.RawUpload? || k !in storage
  }

  /** The recorded original and renditions are in storage, at their recorded sizes. */
  predicate Stored(a: Asset, storage: map<Key, nat>) {
    && Holds(storage, a.storageKey, a.sizeBytes)
    && forall i | 0 <= i < |a.renditions| :: Holds(storage, a.renditions[i].key, a.renditions[i].bytes)
  }

  /**
   * All that holds of one asset: a READY one has its original and recorded
   * renditions in storage; a purged one has none of its objects left.
   */
  predicate AssetSound(id: nat, a: Asset, stage: Option<Stage>, storage: map<Key, nat>) {
    && RowSound(id, a)
    && (a.status == READY ==> Stored(a, storage))
    && (stage.Some? ==> StageSound(id, a, stage.value, storage))
    && (a.purged ==> Gone(a, storage, []))
  }

  function StageOf(m: Library, id: nat): Option<Stage> {
    if id in m.uploads then Some(m.uploads[id]) else None
  }

  predicate AssetsSound(m: Library) {
    forall id: nat | id < |m.assets| :: AssetSound(id, m.assets[id], StageOf(m, id), m.storage)
  }

  predicate UploadsExist(m: Library) {
    forall id | id in m.uploads :: id < |m.assets|
  }

  /** A purge works on the objects of a deleted row, and what it handled without failing is gone. */
  predicate PurgeSound(a: Asset, p: Purge, storage: map<Key, nat>) {
    && a.status == DELETED
    && (forall k | k in p.todo :: k == RawUpload(p.asset) || k in RecordedKeys(a))
    && (!p.failed ==> Gone(a, storage, p.todo))
  }

  predicate PurgesSound(m: Library) {
    forall p | p in m.purges :: m.purges[p].asset < |m.assets| && PurgeSound(m.assets[m.purges[p].asset], m.purges[p], m.storage)
  }

  predicate CountsAsConsumed(assets: seq<Asset>, id: nat) {
    id < |assets|
    && (assets[id].status == READY || (assets[id].status == DELETED && assets[id].storageKey.Original?))
  }

  predicate CountsAsReleased(assets: seq<Asset>, id: nat) {
    id < |assets| && assets[id].status == DELETED && assets[id].storageKey.Original?
  }

  /** Exactly the assets that became READY were consumed, and of those exactly the deleted were released; once each. */
  ghost predicate LedgerExact(m: Library) {
    && NoDuplicates(m.consumed) && NoDuplicates(m.released)
    && (forall id: nat :: id in m.consumed <==> CountsAsConsumed(m.assets, id))
    && (forall id: nat :: id in m.released <==> CountsAsReleased(m.assets, id))
  }

  ghost predicate Sound(m: Library) {
    && Accurate(m.counter, ReadyBytes(m.assets))
    && AssetsSound(m)
    && UploadsExist(m)
    && PurgesSound(m)
    && LedgerExact(m)
  }

  // --- the counter -----------------------------------------------------------------

  function Counted(a: Asset): nat {
    if a.status == READY then StoredBytes(a) else 0
  }

  lemma {:induction false} ReadyBytesUpdate(assets: seq<Asset>, id: nat, a: Asset)
    requires id < |assets|
    ensures ReadyBytes(assets[id := a]) == ReadyBytes(assets) - Counted(assets[id]) + Counted(a)
    ensures Counted(assets[id]) <= ReadyBytes(assets)
    decreases |assets|
  {
    var n := |assets| - 1;
    if id < n {
      assert assets[id := a][..n] == assets[..n][id := a];
      ReadyBytesUpdate(assets[..n], id, a);
    } else {
      assert assets[id := a][..n] == assets[..n];
    }
  }

  lemma ReadyBytesAppend(assets: seq<Asset>, a: Asset)
    ensures ReadyBytes(assets + [a]) == ReadyBytes(assets) + Counted(a)
  {
    assert (assets + [a])[..|assets|] == assets;
  }

  /** The asset a step is about. */
  function Owner(m: Library, step: Step): Option<nat> {
    match step
    case CreateUpload => Some(|m.assets|)
    case Reconcile => None
    case PurgeNext(process, _) => if process in m.purges then Some(m.purges[process].asset) else None
    case FinishPurge(process) => if process in m.purges then Some(m.purges[process].asset) else None
    case _ => Some(step.asset)
  }

  /** Storage differs at most in objects of one asset. */
  ghost predicate SameElsewhere(before: map<Key, nat>, after: map<Key, nat>, owner: Option<nat>) {
    forall k: Key | owner != Some(k.asset) :: SameObject(before, after, k)
  }

  predicate SameObject(before: map<Key, nat>, after: map<Key, nat>, k: Key) {
    (k in before <==> k in after) && (k in before ==> after[k] == before[k])
  }

  lemma RecordedKeysOwned(id: nat, a: Asset)
    requires RowSound(id, a)
    ensures forall k | k in RecordedKeys(a) :: k.asset == id
  {
  }

  /** A step leaves every other asset alone: its row, its completion and its objects. */
  lemma PurgeIsLocal(m: Library, step: Step)
    requires Sound(m) && step.PurgeNext? && Enabled(m, step)
    ensures var after := Execute(m, step);
      && |after.assets| == |m.assets|
      && (forall id: nat | id < |m.assets| && Owner(m, step) != Some(id) ::
          after.assets[id] == m.assets[id] && StageOf(after, id) == StageOf(m, id))
      && SameElsewhere(m.storage, after.storage, Owner(m, step))
  {
    var p := m.purges[step.process];
    assert p.todo[0] in p.todo;
    assert AssetSound(p.asset, m.assets[p.asset], StageOf(m, p.asset), m.storage);
    RecordedKeysOwned(p.asset, m.assets[p.asset]);
  }

  /** Only the row a step is about may change; creating an upload appends one. */
  lemma OneRowChanges(m: Library, step: Step)
    ensures var after := Execute(m, step).assets;
      || after == m.assets
      || (&& Owner(m, step) == Some(|m.assets|)
          && after == m.assets + [Asset(PENDING_UPLOAD, RawUpload(|m.assets|), 0, [], false)])
      || (&& Owner(m, step).Some? && Owner(m, step).value < |m.assets| == |after|
          && after == m.assets[Owner(m, step).value := after[Owner(m, step).value]])
  {
    var after := Execute(m, step).assets;
    if Owner(m, step).Some? && Owner(m, step).value < |m.assets| && |after| == |m.assets| {
      assert after == m.assets[Owner(m, step).value := after[Owner(m, step).value]];
    }
  }

  lemma StagesAreLocal(m: Library, step: Step, id: nat)
    requires Owner(m, step) != Some(id)
    ensures StageOf(Execute(m, step), id) == StageOf(m, id)
  {
    hide ReadyBytes, StoredBytes, DeletionKeys, ImageBytes, Consume, Release, ObjectKeys, ObjectSizes;
  }

  lemma StorageIsLocal(m: Library, step: Step)
    requires !step.PurgeNext?
    ensures SameElsewhere(m.storage, Execute(m, step).storage, Owner(m, step))
  {
    hide ReadyBytes, StoredBytes, DeletionKeys, ImageBytes, Consume, Release, ObjectKeys, ObjectSizes;
  }

  lemma StepIsLocal(m: Library, step: Step)
    requires Sound(m)
    ensures var after := Execute(m, step);
      && |m.assets| <= |after.assets| <= |m.assets| + 1
      && (|after.assets| == |m.assets| + 1 ==> Owner(m, step) == Some(|m.assets|))
      && (forall id: nat | id < |m.assets| && Owner(m, step) != Some(id) ::
          after.assets[id] == m.assets[id] && StageOf(after, id) == StageOf(m, id))
      && SameElsewhere(m.storage, after.storage, Owner(m, step))
  {
    hide Sound, Execute;
    OneRowChanges(m, step);
    forall id: nat | Owner(m, step) != Some(id)
      ensures StageOf(Execute(m, step), id) == StageOf(m, id)
    {
      StagesAreLocal(m, step, id);
    }
    if !step.PurgeNext? {
      StorageIsLocal(m, step);
    } else if Enabled(m, step) {
      PurgeIsLocal(m, step);
    } else {
      DisabledChangesNothing(m, step);
    }
  }

  lemma DisabledChangesNothing(m: Library, step: Step)
    requires !Enabled(m, step)
    ensures Execute(m, step) == m
  {
  }

  lemma CommittedIsStored(m: Library, id: nat, image: Image)
    requires id < |m.assets|
    requires forall j | 0 <= j < |ObjectKeys(id, image)| ::
      Holds(m.storage, ObjectKeys(id, image)[j], ObjectSizes(image)[j])
    ensures Stored(FinishAsset(m, id, image), m.storage)
  {
    var a := FinishAsset(m, id, image);
    assert ObjectKeys(id, image)[0] == a.storageKey && ObjectSizes(image)[0] == a.sizeBytes;
    forall i | 0 <= i < |a.renditions|
      ensures Holds(m.storage, a.renditions[i].key, a.renditions[i].bytes)
    {
      assert ObjectKeys(id, image)[1 + i] == a.renditions[i].key && ObjectSizes(image)[1 + i] == a.renditions[i].bytes;
    }
  }

  /** What a completed row records adds up to what processing produced. */
  lemma {:induction false} RecordedAddsUp(asset: nat, renditions: seq<(nat, nat)>)
    ensures RenditionBytes(RenditionsOf(asset, renditions)) == ProcessedBytes(renditions)
    decreases |renditions|
  {
    if renditions != [] {
      var n := |renditions| - 1;
      assert RenditionsOf(asset, renditions)[..n] == RenditionsOf(asset, renditions[..n]);
      RecordedAddsUp(asset, renditions[..n]);
    }
  }

  lemma CommitKeepsAsset(m: Library, id: nat, granted: EntitlementValue)
    requires Enabled(m, Commit(id, granted))
    requires AssetSound(id, m.assets[id], StageOf(m, id), m.storage)
    ensures var after := Execute(m, Commit(id, granted));
      AssetSound(id, after.assets[id], StageOf(after, id), after.storage)
  {
    var image := m.uploads[id].image;
    CommittedIsStored(m, id, image);
    RecordedAddsUp(id, image.renditions);
  }

  /** Distinct widths give the objects of one completion distinct keys. */
  lemma KeysDiffer(id: nat, image: Image, i: nat, j: nat)
    requires image.DistinctWidths() && i < j < |ObjectKeys(id, image)|
    ensures ObjectKeys(id, image)[i] != ObjectKeys(id, image)[j]
  {
  }

  lemma WriteKeepsAsset(m: Library, id: nat)
    requires Enabled(m, WriteNext(id)) && id < |m.assets|
    requires AssetSound(id, m.assets[id], StageOf(m, id), m.storage)
    ensures var after := Execute(m, WriteNext(id));
      AssetSound(id, after.assets[id], StageOf(after, id), after.storage)
  {
    RecordedKeysOwned(id, m.assets[id]);
    var stage := m.uploads[id];
    var keys := ObjectKeys(id, stage.image);
    assert keys[stage.written] in keys;
    forall j | 0 <= j < stage.written
      ensures keys[j] != keys[stage.written]
    {
      KeysDiffer(id, stage.image, j, stage.written);
    }
    hide ObjectKeys, ObjectSizes, StoredBytes;
  }

  lemma CleanUpKeepsAsset(m: Library, id: nat, key: Key)
    requires Enabled(m, CleanUp(id, key)) && id < |m.assets|
    requires AssetSound(id, m.assets[id], StageOf(m, id), m.storage)
    ensures var after := Execute(m, CleanUp(id, key));
      AssetSound(id, after.assets[id], StageOf(after, id), after.storage)
  {
  }

  lemma RawKeepsAsset(m: Library, step: Step, id: nat)
    requires ((step.BrowserPut? && step.asset == id) || step == DropRaw(id)) && Enabled(m, step)
    requires AssetSound(id, m.assets[id], StageOf(m, id), m.storage)
    ensures var after := Execute(m, step);
      AssetSound(id, after.assets[id], StageOf(after, id), after.storage)
  {
    if StageOf(m, id).Some? && m.uploads[id].Writing? {
      forall j | 0 <= j < m.uploads[id].written
        ensures SameObject(m.storage, Execute(m, step).storage, ObjectKeys(id, m.uploads[id].image)[j])
      {
        assert ObjectKeys(id, m.uploads[id].image)[j] in ObjectKeys(id, m.uploads[id].image);
      }
    }
  }

  lemma DeleteKeepsAsset(m: Library, id: nat, process: nat)
    requires Enabled(m, DeleteAsset(id, false, process))
    requires AssetSound(id, m.assets[id], StageOf(m, id), m.storage)
    ensures var after := Execute(m, DeleteAsset(id, false, process));
      AssetSound(id, after.assets[id], StageOf(after, id), after.storage)
  {
  }

  lemma PurgeKeepsAsset(m: Library, step: Step, id: nat)
    requires (step.PurgeNext? || step.FinishPurge?) && Enabled(m, step) && Owner(m, step) == Some(id)
    requires id < |m.assets| && PurgeSound(m.assets[id], m.purges[step.process], m.storage)
    requires AssetSound(id, m.assets[id], StageOf(m, id), m.storage)
    ensures var after := Execute(m, step);
      AssetSound(id, after.assets[id], StageOf(after, id), after.storage)
  {
    if StageOf(m, id).Some? && m.uploads[id].Writing? {
      var todo := m.purges[step.process].todo;
      assert forall k | k in todo :: k == RawUpload(id);
      assert step.PurgeNext? ==> todo[0] in todo;
      forall j | 0 <= j < m.uploads[id].written
        ensures SameObject(m.storage, Execute(m, step).storage, ObjectKeys(id, m.uploads[id].image)[j])
      {
        assert ObjectKeys(id, m.uploads[id].image)[j] in ObjectKeys(id, m.uploads[id].image);
      }
    }
  }

  predicate OnlyMovesStatus(step: Step) {
    || step.ClaimUpload? || step.StartWriting? || step.AbandonWriting? || step.Reject?
    || step.Crash? || step.SweepStuck? || step.RetryPurge?
  }

  lemma StatusKeepsAsset(m: Library, step: Step, id: nat)
    requires OnlyMovesStatus(step) && Enabled(m, step) && Owner(m, step) == Some(id) && id < |m.assets|
    requires AssetSound(id, m.assets[id], StageOf(m, id), m.storage)
    ensures var after := Execute(m, step);
      AssetSound(id, after.assets[id], StageOf(after, id), after.storage)
  {
  }

  /** The asset a step is about stays sound, whatever the step. */
  lemma StepKeepsOwner(m: Library, step: Step, id: nat)
    requires Owner(m, step) == Some(id) && id < |m.assets| && Enabled(m, step)
    requires AssetSound(id, m.assets[id], StageOf(m, id), m.storage)
    requires PurgesSound(m)
    ensures var after := Execute(m, step);
      AssetSound(id, after.assets[id], StageOf(after, id), after.storage)
  {
    if step.Commit? {
      CommitKeepsAsset(m, id, step.granted);
    } else if step.WriteNext? {
      WriteKeepsAsset(m, id);
    } else if step.CleanUp? {
      CleanUpKeepsAsset(m, id, step.key);
    } else if step.BrowserPut? || step.DropRaw? {
      RawKeepsAsset(m, step, id);
    } else if step.DeleteAsset? {
      DeleteKeepsAsset(m, id, step.process);
    } else if step.PurgeNext? || step.FinishPurge? {
      PurgeKeepsAsset(m, step, id);
    } else {
      StatusKeepsAsset(m, step, id);
    }
  }

  lemma StepKeepsAssets(m: Library, step: Step)
    requires Sound(m)
    ensures AssetsSound(Execute(m, step)) && UploadsExist(Execute(m, step))
  {
    var after := Execute(m, step);
    StepIsLocal(m, step);
    forall id: nat | id < |after.assets|
      ensures AssetSound(id, after.assets[id], StageOf(after, id), after.storage)
    {
      if id < |m.assets| {
        assert AssetSound(id, m.assets[id], StageOf(m, id), m.storage);
        if Owner(m, step) == Some(id) && Enabled(m, step) {
          StepKeepsOwner(m, step, id);
        } else {
          ElsewhereKeepsAsset(id, m.assets[id], StageOf(m, id), m.storage, after.storage);
        }
      }
    }
  }

  lemma ElsewhereKeepsAsset(id: nat, a: Asset, stage: Option<Stage>, before: map<Key, nat>, after: map<Key, nat>)
    requires AssetSound(id, a, stage, before)
    requires forall k: Key | k.asset == id :: SameObject(before, after, k)
    ensures AssetSound(id, a, stage, after)
  {
    RecordedKeysOwned(id, a);
    if stage.Some? && stage.value.Writing? {
      forall j | 0 <= j < stage.value.written
        ensures SameObject(before, after, ObjectKeys(id, stage.value.image)[j])
      {
        assert ObjectKeys(id, stage.value.image)[j] in ObjectKeys(id, stage.value.image);
      }
    }
  }

  // --- purges ----------------------------------------------------------------------

  /** No step brings back a recorded object of a deleted row, or changes what the row records. */
  lemma DeletedOnlyShrinks(m: Library, step: Step, id: nat)
    requires Sound(m) && id < |m.assets| && m.assets[id].status == DELETED
    ensures var after := Execute(m, step);
      && after.assets[id].status == DELETED
      && RecordedKeys(after.assets[id]) == RecordedKeys(m.assets[id])
      && forall k | k in RecordedKeys(m.assets[id]) && !k.RawUpload? && k in after.storage :: k in m.storage
  {
    StepIsLocal(m, step);
    assert AssetSound(id, m.assets[id], StageOf(m, id), m.storage);
    RecordedKeysOwned(id, m.assets[id]);
  }

  lemma PurgeSurvives(m: Library, step: Step, p: Purge)
    requires Sound(m) && p.asset < |m.assets| && PurgeSound(m.assets[p.asset], p, m.storage)
    ensures PurgeSound(Execute(m, step).assets[p.asset], p, Execute(m, step).storage)
  {
    DeletedOnlyShrinks(m, step, p.asset);
  }

  lemma DeletionKeysRecorded(id: nat, a: Asset)
    ensures forall k | k in DeletionKeys(id, a) :: k == RawUpload(id) || k in RecordedKeys(a)
    ensures forall k | k in RecordedKeys(a) :: k in DeletionKeys(id, a)
  {
    var keys := DeletionKeys(id, a);
    assert keys[0] == a.storageKey;
    forall r | r in a.renditions
      ensures r.key in keys
    {
      var i :| 0 <= i < |a.renditions| && a.renditions[i] == r;
      assert keys[1 + i] == r.key;
    }
  }

  /** A purge that starts has all the row's objects to do. */
  lemma PurgeStarts(m: Library, step: Step)
    requires (step.DeleteAsset? || step.RetryPurge?) && Enabled(m, step)
    ensures var after := Execute(m, step);
      && step.process in after.purges && after.purges[step.process].asset == step.asset < |after.assets|
      && PurgeSound(after.assets[step.asset], after.purges[step.process], after.storage)
  {
    DeletionKeysRecorded(step.asset, m.assets[step.asset]);
  }

  lemma StepKeepsPurges(m: Library, step: Step)
    requires Sound(m)
    ensures PurgesSound(Execute(m, step))
  {
    var after := Execute(m, step);
    StepIsLocal(m, step);
    forall p | p in after.purges
      ensures after.purges[p].asset < |after.assets|
      ensures PurgeSound(after.assets[after.purges[p].asset], after.purges[p], after.storage)
    {
      if p in m.purges && after.purges[p] == m.purges[p] {
        PurgeSurvives(m, step, m.purges[p]);
      } else if step.PurgeNext? {
        PurgeAdvances(m, step.process, step.ok);
      } else {
        PurgeStarts(m, step);
      }
    }
  }

  lemma PurgeAdvances(m: Library, process: nat, ok: bool)
    requires PurgesSound(m) && Enabled(m, PurgeNext(process, ok))
    ensures var after := Execute(m, PurgeNext(process, ok));
      PurgeSound(after.assets[after.purges[process].asset], after.purges[process], after.storage)
  {
    var p := m.purges[process];
    assert forall k | k in p.todo :: k == p.todo[0] || k in p.todo[1..];
    assert forall k | k in p.todo[1..] :: k in p.todo;
  }

  // --- counter and ledger ---------------------------------------------------------------

  lemma CommitKeepsCounter(m: Library, id: nat, granted: EntitlementValue)
    requires Sound(m) && Enabled(m, Commit(id, granted))
    ensures Accurate(Execute(m, Commit(id, granted)).counter, ReadyBytes(Execute(m, Commit(id, granted)).assets))
  {
    ReadyBytesUpdate(m.assets, id, FinishAsset(m, id, m.uploads[id].image));
    RecordedAddsUp(id, m.uploads[id].image.renditions);
  }

  lemma StepKeepsCounter(m: Library, step: Step)
    requires Sound(m)
    ensures Accurate(Execute(m, step).counter, ReadyBytes(Execute(m, step).assets))
  {
    hide PurgesSound, LedgerExact, SameElsewhere, ReadyBytes;
    var after := Execute(m, step);
    OneRowChanges(m, step);
    if step.Commit? && Enabled(m, step) {
      CommitKeepsCounter(m, step.asset, step.granted);
    } else if after.assets == m.assets {
    } else if |after.assets| == |m.assets| {
      var id := Owner(m, step).value;
      assert AssetSound(id, m.assets[id], StageOf(m, id), m.storage);
      ReadyBytesUpdate(m.assets, id, after.assets[id]);
    } else {
      ReadyBytesAppend(m.assets, Asset(PENDING_UPLOAD, RawUpload(|m.assets|), 0, [], false));
    }
  }

  lemma CommitKeepsLedger(m: Library, id: nat, granted: EntitlementValue)
    requires Sound(m) && Enabled(m, Commit(id, granted))
    ensures LedgerExact(Execute(m, Commit(id, granted)))
  {
    hide PurgesSound, Stored, ReadyBytes, Accurate, Gone;
    assert AssetSound(id, m.assets[id], StageOf(m, id), m.storage);
    assert !CountsAsConsumed(m.assets, id);
  }

  lemma DeleteKeepsLedger(m: Library, id: nat, process: nat)
    requires Sound(m) && Enabled(m, DeleteAsset(id, false, process))
    ensures LedgerExact(Execute(m, DeleteAsset(id, false, process)))
  {
    hide PurgesSound, Stored, StageSound, ReadyBytes, Accurate, Gone;
    assert AssetSound(id, m.assets[id], StageOf(m, id), m.storage);
    assert !CountsAsReleased(m.assets, id);
  }

  lemma OtherKeepsLedger(m: Library, step: Step)
    requires Sound(m) && !step.Commit? && !step.DeleteAsset?
    ensures LedgerExact(Execute(m, step))
  {
    hide PurgesSound, Stored, StageSound, ReadyBytes, StoredBytes, Accurate;
    var after := Execute(m, step);
    OneRowChanges(m, step);
    forall id: nat
      ensures CountsAsConsumed(after.assets, id) == CountsAsConsumed(m.assets, id)
      ensures CountsAsReleased(after.assets, id) == CountsAsReleased(m.assets, id)
    {
      if id < |m.assets| {
        assert AssetSound(id, m.assets[id], StageOf(m, id), m.storage);
      }
    }
  }

  lemma StepKeepsLedger(m: Library, step: Step)
    requires Sound(m)
    ensures LedgerExact(Execute(m, step))
  {
    if step.Commit? && Enabled(m, step) {
      CommitKeepsLedger(m, step.asset, step.granted);
    } else if step.DeleteAsset? && Enabled(m, step) {
      DeleteKeepsLedger(m, step.asset, step.process);
    } else if Enabled(m, step) {
      OtherKeepsLedger(m, step);
    }
  }

  lemma StepSound(m: Library, step: Step)
    requires Sound(m)
    ensures Sound(Execute(m, step))
  {
    StepKeepsCounter(m, step);
    StepKeepsAssets(m, step);
    StepKeepsPurges(m, step);
    StepKeepsLedger(m, step);
  }

  lemma {:induction false} RunSound(m: Library, steps: seq<Step>)
    requires Sound(m)
    ensures Sound(Run(m, steps))
    decreases |steps|
  {
    if steps != [] {
      StepSound(m, steps[0]);
      RunSound(Execute(m, steps[0]), steps[1..]);
    }
  }

  // --- the promises -------------------------------------------------------------------

  /** In every interleaving the media_storage counter, once it exists, is the bytes of the READY assets. */
  lemma QuotaIsExact(steps: seq<Step>)
    ensures var m := Run(EMPTY, steps);
      m.counter.Some? ==> m.counter.value == ReadyBytes(m.assets)
  {
    RunSound(EMPTY, steps);
  }

  /** Each asset is consumed at most once and released at most once, and released only after it was consumed. */
  lemma CountedOnce(steps: seq<Step>)
    ensures var m := Run(EMPTY, steps);
      && NoDuplicates(m.consumed) && NoDuplicates(m.released)
      && forall id | id in m.released :: id in m.consumed
  {
    RunSound(EMPTY, steps);
  }

  /** A READY asset can always be served: its original and its recorded renditions are in storage, at their sizes. */
  lemma ReadyIsServable(steps: seq<Step>, id: nat)
    requires id < |Run(EMPTY, steps).assets| && Run(EMPTY, steps).assets[id].status == READY
    ensures var m := Run(EMPTY, steps); var a := m.assets[id];
      && a.storageKey.Original? && a.storageKey in m.storage && m.storage[a.storageKey] == a.sizeBytes
      && (forall i | 0 <= i < |a.renditions| ::
          a.renditions[i].key in m.storage && m.storage[a.renditions[i].key] == a.renditions[i].bytes)
      && (forall i, j | 0 <= i < j < |a.renditions| :: a.renditions[i].key != a.renditions[j].key)
  {
    RunSound(EMPTY, steps);
  }

  function SizeOf(storage: map<Key, nat>, k: Key): nat {
    if k in storage then storage[k] else 0
  }

  function SizesOf(storage: map<Key, nat>, renditions: seq<StoredRendition>): nat {
    if renditions == [] then 0
    else SizesOf(storage, renditions[..|renditions| - 1]) + SizeOf(storage, renditions[|renditions| - 1].key)
  }

  /** The sizes, in storage, of all objects that READY rows name. */
  function ServedBytes(storage: map<Key, nat>, assets: seq<Asset>): nat {
    if assets == [] then 0
    else
      var last := assets[|assets| - 1];
      ServedBytes(storage, assets[..|assets| - 1])
        + if last.status == READY then SizeOf(storage, last.storageKey) + SizesOf(storage, last.renditions) else 0
  }

  lemma {:induction false} SizesAreRecorded(storage: map<Key, nat>, renditions: seq<StoredRendition>)
    requires forall i | 0 <= i < |renditions| :: Holds(storage, renditions[i].key, renditions[i].bytes)
    ensures SizesOf(storage, renditions) == RenditionBytes(renditions)
    decreases |renditions|
  {
    if renditions != [] {
      SizesAreRecorded(storage, renditions[..|renditions| - 1]);
    }
  }

  lemma {:induction false} ServedIsReady(storage: map<Key, nat>, assets: seq<Asset>)
    requires forall i | 0 <= i < |assets| && assets[i].status == READY :: Stored(assets[i], storage)
    ensures ServedBytes(storage, assets) == ReadyBytes(assets)
    decreases |assets|
  {
    if assets != [] {
      var last := assets[|assets| - 1];
      ServedIsReady(storage, assets[..|assets| - 1]);
      if last.status == READY {
        assert Stored(last, storage);
        SizesAreRecorded(storage, last.renditions);
      }
    }
  }

  /** The quota is real: the counter, once it exists, is the total size in storage of what READY rows can serve. */
  lemma QuotaIsStorage(steps: seq<Step>)
    ensures var m := Run(EMPTY, steps);
      m.counter.Some? ==> m.counter.value == ServedBytes(m.storage, m.assets)
  {
    RunSound(EMPTY, steps);
    var m := Run(EMPTY, steps);
    forall i | 0 <= i < |m.assets| && m.assets[i].status == READY
      ensures Stored(m.assets[i], m.storage)
    {
      assert AssetSound(i, m.assets[i], StageOf(m, i), m.storage);
    }
    ServedIsReady(m.storage, m.assets);
  }

  /** A purged asset is out of reach: none of the objects its row records is in storage. */
  lemma PurgedIsGone(steps: seq<Step>, id: nat)
    requires id < |Run(EMPTY, steps).assets| && Run(EMPTY, steps).assets[id].purged
    ensures var m := Run(EMPTY, steps);
      forall k | k in RecordedKeys(m.assets[id]) && !k.RawUpload? :: k !in m.storage
  {
    RunSound(EMPTY, steps);
  }

  lemma DeleteReleases(m: Library, id: nat, process: nat)
    requires Enabled(m, DeleteAsset(id, false, process)) && m.assets[id].status == READY
    requires m.counter == Some(ReadyBytes(m.assets))
    ensures Execute(m, DeleteAsset(id, false, process)).counter == Some(m.counter.value - StoredBytes(m.assets[id]))
  {
    ReadyBytesUpdate(m.assets, id, m.assets[id].(status := DELETED));
    hide ReadyBytes;
  }

  /** Deleting a READY asset gives back exactly its bytes: the clamp at zero never fires. */
  lemma DeleteReleasesExactly(steps: seq<Step>, id: nat, process: nat)
    requires var m := Run(EMPTY, steps);
      && Enabled(m, DeleteAsset(id, false, process))
      && m.assets[id].status == READY && m.counter.Some?
    ensures var m := Run(EMPTY, steps);
      Execute(m, DeleteAsset(id, false, process)).counter == Some(m.counter.value - StoredBytes(m.assets[id]))
  {
    RunSound(EMPTY, steps);
    DeleteReleases(Run(EMPTY, steps), id, process);
  }
}
