/** The media library in place: a whole completion, deletion, sweep or purge as it runs. */
module MediaService {
  import opened Common
  import opened Entitlements
  import opened Usage
  import opened Media
  import opened MediaRuns

  /**
   * What a completion meets: whether the upload arrived and could be read,
   * what processing made of it, the first object that cannot be written, the
   * keys that cannot be deleted just now, and the storage limit.
   */
  datatype Environment = Environment(
    readable: bool, processed: Option<Image>, writeFault: Option<nat>, undeletable: set<Key>, granted: EntitlementValue)

  datatype Outcome = Completed | Refused | Rejected | Cancelled | Interrupted

  /** Every object gets written: nothing faults, or not before the last one. */
  predicate Stores(env: Environment, image: Image) {
    env.writeFault.None? || 1 + |image.renditions| <= env.writeFault.value
  }

  /** The plan leaves room for all that was processed. */
  predicate Fits(counter: Option<int>, assets: seq<Asset>, image: Image, granted: EntitlementValue) {
    Consume(counter, ReadyBytes(assets), granted, ImageBytes(image)).Ok?
  }

  /** No row but this one changed. */
  predicate OnlyRow(before: seq<Asset>, after: seq<Asset>, id: nat) {
    |after| == |before| && forall j | 0 <= j < |before| && j != id :: after[j] == before[j]
  }

  /** What a committed upload leaves in the counter. */
  function Consumed(counter: Option<int>, assets: seq<Asset>, id: nat, image: Image, granted: EntitlementValue)
    : Option<int>
  {
    match Consume(counter, ReadyBytes(assets), granted, ImageBytes(image))
    case Ok(value) => Some(value)
    case Err(_) => None
  }

  lemma DeletableIs(keys: seq<Key>, undeletable: set<Key>)
    ensures forall k | k in keys && k !in undeletable :: k in Deletable(keys, undeletable)
  {
  }

  lemma NothingDeletable(undeletable: set<Key>)
    ensures Deletable([], undeletable) == {}
  {
  }

  lemma RawUploadGoes(id: nat, a: Asset)
    ensures RawUpload(id) in DeletionKeys(id, a)
  {
  }

  lemma DeletableMore(keys: seq<Key>, undeletable: set<Key>, k: nat)
    requires k < |keys|
    ensures Deletable(keys[..k + 1], undeletable)
      == Deletable(keys[..k], undeletable) + if keys[k] in undeletable then {} else {keys[k]}
  {
    assert keys[..k + 1] == keys[..k] + [keys[k]];
  }

  /** The completed row names one object per processed file, each under its own width and at its own size. */
  predicate Records(a: Asset, id: nat, image: Image) {
    && a.status == READY
    && a.storageKey == Original(id, image.extension) && a.sizeBytes == image.bytes
    && |a.renditions| == |image.renditions|
    && forall i | 0 <= i < |image.renditions| ::
      a.renditions[i].key == Rendition(id, image.renditions[i].0) && a.renditions[i].bytes == image.renditions[i].1
  }

  lemma FinishedRecords(m: Library, id: nat, image: Image)
    requires id < |m.assets|
    ensures Records(FinishAsset(m, id, image), id, image)
  {
  }

  lemma ConsumedIsAdded(counter: Option<int>, assets: seq<Asset>, id: nat, image: Image, granted: EntitlementValue)
    requires Consumed(counter, assets, id, image, granted).Some?
    ensures Consumed(counter, assets, id, image, granted)
      == Some(LockCounter(counter, ReadyBytes(assets)) + image.bytes + ProcessedBytes(image.renditions))
  {
  }

  /**
   * The final transaction: an upload still PROCESSING, with bytes that fit the plan, becomes
   * READY and its bytes count; any other leaves every row and the counter as they were.
   */
  lemma CommitsExactly(m: Library, id: nat, granted: EntitlementValue)
    requires Sound(m) && Enabled(m, Commit(id, granted))
    ensures var after := Execute(m, Commit(id, granted)); var image := m.uploads[id].image;
      var bytes := image.bytes + ProcessedBytes(image.renditions);
      var accepted := m.assets[id].status == PROCESSING && 0 < bytes
        && (LimitOf(granted).AtMost? ==> ReadyBytes(m.assets) + bytes <= LimitOf(granted).limit);
      && after.storage == m.storage
      && (accepted ==>
          && Records(after.assets[id], id, image)
          && OnlyRow(m.assets, after.assets, id)
          && after.counter == Some(ReadyBytes(m.assets) + bytes)
          && id !in after.uploads)
      && (!accepted ==>
          && after.assets == m.assets && after.counter == m.counter
          && id in after.uploads && after.uploads[id] == CleaningUp(image))
  {
    CommitStep(m, id, granted);
    FinishedRecords(m, id, m.uploads[id].image);
    hide Execute, FinishAsset, Records, AssetsSound, PurgesSound, LedgerExact, UploadsExist, ReadyBytes, ProcessedBytes;
  }

  /** A purge taken up again has all of the row's objects, and the raw upload, to do over. */
  lemma RetryCoversAll(m: Library, id: nat, process: nat)
    requires id < |m.assets| && m.assets[id].status == DELETED && !m.assets[id].purged && process !in m.purges
    ensures var after := Execute(m, RetryPurge(id, process));
      && after.assets == m.assets && after.storage == m.storage && after.counter == m.counter
      && process in after.purges && after.purges[process].asset == id && !after.purges[process].failed
      && forall k :: k in after.purges[process].todo <==> k in RecordedKeys(m.assets[id]) || k == RawUpload(id)
  {
    DeletionKeysRecorded(id, m.assets[id]);
  }

  /** An upload starts as a pending row of its own, arrives in storage, and is claimed once. */
  lemma UploadStarts(m: Library, bytes: nat)
    requires Sound(m)
    ensures var id := |m.assets|;
      var created := Execute(m, CreateUpload);
      var arrived := Execute(created, BrowserPut(id, bytes));
      var claimed := Execute(arrived, ClaimUpload(id));
      && |created.assets| == id + 1 && created.assets[..id] == m.assets
      && created.assets[id].status == PENDING_UPLOAD && Untouched(id, created.assets[id])
      && Holds(arrived.storage, RawUpload(id), bytes)
      && claimed.assets == created.assets[id := created.assets[id].(status := PROCESSING)]
      && id in claimed.uploads && claimed.uploads[id].Reading?
      && Execute(claimed, ClaimUpload(id)) == claimed
      && claimed.counter == m.counter
  {
  }

  /** Reconciling sets the counter to the sizes in storage of what READY rows name. */
  lemma ReconcilesExactly(m: Library)
    requires Sound(m)
    ensures Execute(m, Reconcile) == m.(counter := Some(ServedBytes(m.storage, m.assets)))
  {
    forall i | 0 <= i < |m.assets| && m.assets[i].status == READY
      ensures Stored(m.assets[i], m.storage)
    {
      assert AssetSound(i, m.assets[i], StageOf(m, i), m.storage);
    }
    ServedIsReady(m.storage, m.assets);
  }

  /** A deletion undertakes to remove every object the row names, and the raw upload. */
  lemma DeletionCoversAll(m: Library, id: nat, process: nat)
    requires Enabled(m, DeleteAsset(id, false, process))
    ensures var after := Execute(m, DeleteAsset(id, false, process)); var row := m.assets[id];
      && OnlyRow(m.assets, after.assets, id)
      && after.assets[id] == row.(status := DELETED)
      && after.storage == m.storage
      && process in after.purges && after.purges[process].asset == id && !after.purges[process].failed
      && forall k :: k in after.purges[process].todo <==> k in RecordedKeys(row) || k == RawUpload(id)
  {
    DeletionKeysRecorded(id, m.assets[id]);
  }

  lemma SameBytesConsumed(
    counter: Option<int>, before: seq<Asset>, after: seq<Asset>, id: nat, image: Image, granted: EntitlementValue)
    requires ReadyBytes(before) == ReadyBytes(after)
    ensures Consumed(counter, before, id, image, granted) == Consumed(counter, after, id, image, granted)
    ensures Fits(counter, before, image, granted) <==> Fits(counter, after, image, granted)
  {
  }

  /** Which of these keys storage can delete just now. */
  function Deletable(keys: seq<Key>, undeletable: set<Key>): set<Key> {
    set k | k in keys && k !in undeletable
  }

  /** What the sweep's query looks for, age aside. */
  predicate Sweepable(a: Asset) {
    a.status == PROCESSING || a.status == PENDING_UPLOAD
  }

  /** The listed rows are REJECTED and nothing else changed. */
  predicate AllRejected(before: seq<Asset>, after: seq<Asset>, ids: seq<nat>) {
    && |after| == |before|
    && forall id | 0 <= id < |before| ::
         after[id] == if id in ids then before[id].(status := REJECTED) else before[id]
  }

  function CountStatus(assets: seq<Asset>, ids: seq<nat>, status: AssetStatus): nat
    requires forall i | 0 <= i < |ids| :: ids[i] < |assets|
  {
    if ids == [] then 0
    else
      var n := |ids| - 1;
      CountStatus(assets, ids[..n], status) + if assets[ids[n]].status == status then 1 else 0
  }

  lemma {:induction false} CountAtMost(assets: seq<Asset>, ids: seq<nat>, status: AssetStatus)
    requires forall i | 0 <= i < |ids| :: ids[i] < |assets|
    ensures CountStatus(assets, ids, status) <= |ids|
  {
    if ids != [] {
      CountAtMost(assets, ids[..|ids| - 1], status);
    }
  }

  lemma NoneRejected(assets: seq<Asset>)
    ensures AllRejected(assets, assets, []) && CountStatus(assets, [], PROCESSING) == 0
  {
  }

  lemma OneMoreRejected(before: seq<Asset>, assets: seq<Asset>, ids: seq<nat>, k: nat)
    requires NoDuplicates(ids) && k < |ids| && forall i | 0 <= i < |ids| :: ids[i] < |before|
    requires AllRejected(before, assets, ids[..k])
    ensures ids[k] < |assets| && assets[ids[k]] == before[ids[k]]
    ensures AllRejected(before, assets[ids[k] := assets[ids[k]].(status := REJECTED)], ids[..k + 1])
  {
    assert ids[..k + 1] == ids[..k] + [ids[k]];
    assert ids[k] !in ids[..k];
    hide NoDuplicates;
    var after := assets[ids[k] := assets[ids[k]].(status := REJECTED)];
    forall id | 0 <= id < |before|
      ensures after[id] == if id in ids[..k + 1] then before[id].(status := REJECTED) else before[id]
    {
      assert id in ids[..k + 1] <==> id in ids[..k] || id == ids[k];
    }
  }

  lemma OneMoreCounted(before: seq<Asset>, ids: seq<nat>, k: nat)
    requires k < |ids| && forall i | 0 <= i < |ids| :: ids[i] < |before|
    ensures CountStatus(before, ids[..k + 1], PROCESSING)
      == CountStatus(before, ids[..k], PROCESSING) + if before[ids[k]].status == PROCESSING then 1 else 0
  {
    assert ids[..k + 1][..k] == ids[..k];
  }

  class MediaLibrary {
    var assets: seq<Asset>
    var storage: map<Key, nat>
    var counter: Option<int>
    ghost var consumed: seq<nat>
    ghost var released: seq<nat>

    constructor ()
      ensures State(map[], map[]) == EMPTY
    {
      assets, storage, counter, consumed, released := [], map[], None, [], [];
    }

    ghost function State(uploads: map<nat, Stage>, purges: map<nat, Purge>): Library
      reads this
    {
      Library(assets, storage, counter, consumed, released, uploads, purges)
    }

    /** Claims the asset so that a second completion cannot run in parallel. */
    method Claim(id: nat) returns (claimed: bool)
      modifies this`assets
      ensures claimed <==> id < |old(assets)| && old(assets)[id].status == PENDING_UPLOAD
      ensures assets == if claimed then old(assets)[id := old(assets)[id].(status := PROCESSING)] else old(assets)
    {
      claimed := id < |assets| && assets[id].status == PENDING_UPLOAD;
      if claimed {
        assets := assets[id := assets[id].(status := PROCESSING)];
      }
    }

    /** Ends a claimed upload that cannot finish, so it never stays PROCESSING. */
    method MarkRejected(id: nat)
      requires id < |assets|
      modifies this`assets
      ensures assets == old(assets)[id := old(assets)[id].(
        status := if old(assets)[id].status == PROCESSING then REJECTED else old(assets)[id].status)]
    {
      if assets[id].status == PROCESSING {
        assets := assets[id := assets[id].(status := REJECTED)];
      }
    }

    method DeleteObject(key: Key, undeletable: set<Key>) returns (ok: bool)
      modifies this`storage
      ensures ok <==> key !in undeletable
      ensures storage == if ok then old(storage) - {key} else old(storage)
    {
      ok := key !in undeletable;
      if ok {
        storage := storage - {key};
      }
    }

    /** Writes the original and the renditions in order, stopping at the first fault. */
    method WriteObjects(id: nat, image: Image, fault: Option<nat>, ghost from: Library)
      returns (written: seq<Key>, ghost steps: seq<Step>)
      requires id in from.uploads && from.uploads[id] == Writing(image, 0)
      requires State(from.uploads, from.purges) == from
      modifies this`storage
      ensures written <= ObjectKeys(id, image)
      ensures |written| < |ObjectKeys(id, image)| ==> fault == Some(|written|)
      ensures fault.Some? ==> |written| <= fault.value
      ensures State(from.uploads[id := Writing(image, |written|)], from.purges) == Run(from, steps)
    {
      var keys, sizes := ObjectKeys(id, image), ObjectSizes(image);
      written, steps := [], [];
      while |written| < |keys| && fault != Some(|written|)
        invariant |written| <= |keys| && written == keys[..|written|]
        invariant fault.Some? ==> |written| <= fault.value
        invariant State(from.uploads[id := Writing(image, |written|)], from.purges) == Run(from, steps)
      {
        ghost var before := Run(from, steps);
        RunSnoc(from, steps, WriteNext(id));
        storage := storage[keys[|written|] := sizes[|written|]];
        written := written + [keys[|written|]];
        assert from.uploads[id := Writing(image, |written|)] == before.uploads[id := Writing(image, |written|)];
        steps := steps + [WriteNext(id)];
      }
    }

    /** Deletes what was written, as far as storage allows. */
    method CleanUpObjects(id: nat, image: Image, written: seq<Key>, undeletable: set<Key>, ghost from: Library)
      returns (ghost steps: seq<Step>)
      requires id in from.uploads && from.uploads[id] == CleaningUp(image)
      requires written <= ObjectKeys(id, image)
      requires State(from.uploads, from.purges) == from
      modifies this`storage
      ensures State(from.uploads, from.purges) == Run(from, steps)
      ensures forall k | k in written && k in storage :: k in undeletable
    {
      var j := 0;
      steps := [];
      while j < |written|
        invariant j <= |written|
        invariant State(from.uploads, from.purges) == Run(from, steps)
        invariant forall i | 0 <= i < j && written[i] in storage :: written[i] in undeletable
      {
        assert written[j] == ObjectKeys(id, image)[j];
        var ok := DeleteObject(written[j], undeletable);
        if ok {
          RunSnoc(from, steps, CleanUp(id, written[j]));
          steps := steps + [CleanUp(id, written[j])];
        }
        j := j + 1;
      }
    }

    /** The final transaction: consume the bytes and mark the asset READY, or roll back. */
    method CommitReady(id: nat, image: Image, granted: EntitlementValue) returns (ok: bool)
      requires id < |assets|
      modifies this
      ensures forall uploads, purges ::
        match CommitUpload(old(State(uploads, purges)), id, image, granted)
        case Some(m) => ok && State(uploads, purges) == m
        case None => !ok && State(uploads, purges) == old(State(uploads, purges))
    {
      var usage := Consume(counter, ReadyBytes(assets), granted, ImageBytes(image));
      if usage.Err? || assets[id].status != PROCESSING {
        return false;
      }
      counter := Some(usage.value);
      assets := assets[id := assets[id].(
        status := READY,
        storageKey := Original(id, image.extension),
        sizeBytes := image.bytes,
        renditions := RenditionsOf(id, image.renditions))];
      consumed := consumed + [id];
      return true;
    }

    /** The part of a completion after processing: store the objects, drop the raw upload, commit. */
    method StoreAndCommit(id: nat, image: Image, env: Environment, ghost uploads: map<nat, Stage>, ghost purges: map<nat, Purge>)
      returns (outcome: Outcome, ghost steps: seq<Step>)
      requires id !in uploads && id < |assets| && assets[id].status == PROCESSING
      modifies this
      ensures State(uploads, purges) == Run(old(State(uploads[id := Writing(image, 0)], purges)), steps)
      ensures OnlyRow(old(assets), assets, id) && outcome != Refused
      ensures outcome == Rejected <==> !Stores(env, image)
      ensures outcome == Interrupted <==> Stores(env, image) && RawUpload(id) in env.undeletable
      ensures outcome == Completed <==>
        Stores(env, image) && RawUpload(id) !in env.undeletable && Fits(old(counter), old(assets), image, env.granted)
      ensures counter == if outcome == Completed
        then Consumed(old(counter), old(assets), id, image, env.granted) else old(counter)
      ensures outcome == Completed ==> counter.Some?
      ensures outcome == Completed ==> assets[id] == FinishAsset(old(State(uploads, purges)), id, image)
      ensures outcome == Rejected || outcome == Cancelled ==> assets[id].status == REJECTED
    {
      ghost var start := State(uploads[id := Writing(image, 0)], purges);
      hide Run, Execute, Consumed, FinishAsset, Fits;
      var written;
      written, steps := WriteObjects(id, image, env.writeFault, start);
      ghost var stage := Writing(image, |written|);
      assert start.uploads[id := stage] == uploads[id := stage];
      if |written| < |ObjectKeys(id, image)| {
        AbandonStep(Run(start, steps), id);
        steps := Extend(start, steps, AbandonWriting(id));
        assert uploads[id := stage][id := CleaningUp(image)] == uploads[id := CleaningUp(image)];
        ghost var cleaned := GiveUp(id, image, written, env.undeletable, uploads, purges);
        RunConcat(start, steps, cleaned);
        return Rejected, steps + cleaned;
      }
      ghost var more;
      outcome, more := DropRawAndCommit(id, image, written, env, uploads, purges);
      RunConcat(start, steps, more);
      steps := steps + more;
    }

    /** The last stage, with every object stored: drop the raw upload, then commit or give up. */
    method DropRawAndCommit(id: nat, image: Image, written: seq<Key>, env: Environment,
                            ghost uploads: map<nat, Stage>, ghost purges: map<nat, Purge>)
      returns (outcome: Outcome, ghost steps: seq<Step>)
      requires id !in uploads && id < |assets| && assets[id].status == PROCESSING
      requires written == ObjectKeys(id, image)
      modifies this
      ensures State(uploads, purges) ==
        Run(old(State(uploads[id := Writing(image, |written|)], purges)), steps)
      ensures OnlyRow(old(assets), assets, id) && (outcome == Completed || outcome == Cancelled || outcome == Interrupted)
      ensures outcome == Interrupted <==> RawUpload(id) in env.undeletable
      ensures outcome == Completed <==>
        RawUpload(id) !in env.undeletable && Fits(old(counter), old(assets), image, env.granted)
      ensures counter == if outcome == Completed
        then Consumed(old(counter), old(assets), id, image, env.granted) else old(counter)
      ensures outcome == Completed ==> counter.Some?
      ensures outcome == Completed ==> assets[id] == FinishAsset(old(State(uploads, purges)), id, image)
      ensures outcome == Cancelled ==> assets[id].status == REJECTED
    {
      ghost var stage := Writing(image, |written|);
      ghost var start := State(uploads[id := stage], purges);
      assert Run(start, []) == start;
      hide Run, Execute, Consumed, FinishAsset;
      steps := [];
      assert uploads[id := stage] - {id} == uploads;
      var dropped := DeleteObject(RawUpload(id), env.undeletable);
      if !dropped {
        CrashStep(start, id);
        steps := Extend(start, steps, Crash(id));
        return Interrupted, steps;
      }
      DropRawStep(start, id);
      steps := Extend(start, steps, DropRaw(id));
      ghost var ready := Run(start, steps);
      assert ready == State(uploads[id := stage], purges);
      steps := Extend(start, steps, Commit(id, env.granted));
      CommitStep(ready, id, env.granted);
      var ok := CommitReady(id, image, env.granted);
      if ok {
        return Completed, steps;
      }
      assert uploads[id := stage][id := CleaningUp(image)] == uploads[id := CleaningUp(image)];
      ghost var cleaned := GiveUp(id, image, written, env.undeletable, uploads, purges);
      RunConcat(start, steps, cleaned);
      return Cancelled, steps + cleaned;
    }

    /**
     * A completion that meets nobody: it is a run of the protocol, so it keeps
     * all of the protocol's promises, and unless it was interrupted the asset
     * does not stay PROCESSING.
     */
    method CompleteMediaUpload(id: nat, env: Environment, ghost uploads: map<nat, Stage>, ghost purges: map<nat, Purge>)
      returns (outcome: Outcome, ghost steps: seq<Step>)
      requires id !in uploads
      requires env.processed.Some? ==> env.processed.value.DistinctWidths()
      modifies this
      ensures State(uploads, purges) == Run(old(State(uploads, purges)), steps)
      ensures outcome == Refused <==> !(id < |old(assets)| && old(assets)[id].status == PENDING_UPLOAD)
      ensures outcome == Refused ==> State(uploads, purges) == old(State(uploads, purges))
      ensures outcome == Rejected <==>
        outcome != Refused && (!env.readable || env.processed.None? || !Stores(env, env.processed.value))
      ensures outcome == Completed <==>
        && outcome != Refused
        && env.readable && env.processed.Some? && Stores(env, env.processed.value)
        && RawUpload(id) !in env.undeletable
        && Fits(old(counter), old(assets), env.processed.value, env.granted)
      ensures outcome == Completed ==> env.processed.Some? && id < |assets|
      ensures outcome == Completed ==> Records(assets[id], id, env.processed.value)
      ensures outcome == Rejected || outcome == Cancelled ==> id < |assets| && assets[id].status == REJECTED
      ensures OnlyRow(old(assets), assets, id)
      ensures outcome == Completed ==>
        counter == Some(LockCounter(old(counter), ReadyBytes(old(assets)))
          + env.processed.value.bytes + ProcessedBytes(env.processed.value.renditions))
      ensures outcome != Completed ==> counter == old(counter)
    {
      ghost var start := State(uploads, purges);
      assert Run(start, []) == start;
      hide Run, Consumed, ReadyBytes, CommitUpload, RenditionsOf;
      steps := [];
      var claimed := Claim(id);
      if !claimed {
        return Refused, steps;
      }
      steps := Extend(start, steps, ClaimUpload(id));
      ReadyBytesUpdate(start.assets, id, assets[id]);
      ghost var more;
      if env.processed.Some? {
        SameBytesConsumed(counter, start.assets, assets, id, env.processed.value, env.granted);
      }
      outcome, more := FinishClaimed(id, env, uploads, purges);
      RunConcat(start, steps, more);
      steps := steps + more;
      if outcome == Completed {
        FinishedRecords(start, id, env.processed.value);
        ConsumedIsAdded(start.counter, start.assets, id, env.processed.value, env.granted);
      }
    }

    /** A claimed upload that cannot be used: its raw upload goes, if it was there, and the row is rejected. */
    method RejectUnusable(id: nat, env: Environment, ghost uploads: map<nat, Stage>, ghost purges: map<nat, Purge>)
      returns (ghost steps: seq<Step>)
      requires id !in uploads && id < |assets| && assets[id].status == PROCESSING
      modifies this`assets, this`storage
      ensures State(uploads, purges) == Run(old(State(uploads[id := Reading], purges)), steps)
      ensures OnlyRow(old(assets), assets, id) && assets[id].status == REJECTED
    {
      ghost var start := State(uploads[id := Reading], purges);
      steps := [];
      assert Run(start, []) == start;
      hide Run, Execute;
      assert uploads[id := Reading] - {id} == uploads;
      if env.readable {
        var dropped := DeleteObject(RawUpload(id), env.undeletable);
        if dropped {
          DropRawStep(start, id);
          steps := Extend(start, steps, DropRaw(id));
        }
      }
      MarkRejected(id);
      RejectStep(Run(start, steps), id);
      steps := Extend(start, steps, Reject(id));
    }

    /** Everything after the claim. */
    method FinishClaimed(id: nat, env: Environment, ghost uploads: map<nat, Stage>, ghost purges: map<nat, Purge>)
      returns (outcome: Outcome, ghost steps: seq<Step>)
      requires id !in uploads && id < |assets| && assets[id].status == PROCESSING
      requires env.processed.Some? ==> env.processed.value.DistinctWidths()
      modifies this
      ensures State(uploads, purges) == Run(old(State(uploads[id := Reading], purges)), steps)
      ensures OnlyRow(old(assets), assets, id) && outcome != Refused
      ensures outcome == Rejected <==>
        !env.readable || env.processed.None? || !Stores(env, env.processed.value)
      ensures outcome == Completed <==>
        && env.readable && env.processed.Some? && Stores(env, env.processed.value)
        && RawUpload(id) !in env.undeletable
        && Fits(old(counter), old(assets), env.processed.value, env.granted)
      ensures outcome == Completed ==>
        env.processed.Some? && counter.Some?
        && assets[id] == FinishAsset(old(State(uploads, purges)), id, env.processed.value)
        && counter == Consumed(old(counter), old(assets), id, env.processed.value, env.granted)
      ensures outcome != Completed ==> counter == old(counter)
      ensures outcome == Rejected || outcome == Cancelled ==> assets[id].status == REJECTED
    {
      if !env.readable || env.processed.None? {
        steps := RejectUnusable(id, env, uploads, purges);
        return Rejected, steps;
      }
      var image := env.processed.value;
      ghost var start := State(uploads[id := Reading], purges);
      assert Run(start, []) == start;
      hide Run, Consumed, FinishAsset;
      steps := Extend(start, [], StartWriting(id, image));
      assert uploads[id := Reading][id := Writing(image, 0)] == uploads[id := Writing(image, 0)];
      ghost var more;
      outcome, more := StoreAndCommit(id, image, env, uploads, purges);
      RunConcat(start, steps, more);
      steps := steps + more;
    }

    /** Removes what was written and the raw upload, then rejects the asset. */
    method GiveUp(id: nat, image: Image, written: seq<Key>, undeletable: set<Key>,
                  ghost uploads: map<nat, Stage>, ghost purges: map<nat, Purge>)
      returns (ghost steps: seq<Step>)
      requires id !in uploads && id < |assets| && assets[id].status == PROCESSING
      requires written <= ObjectKeys(id, image)
      modifies this`assets, this`storage
      ensures State(uploads, purges) == Run(old(State(uploads[id := CleaningUp(image)], purges)), steps)
      ensures OnlyRow(old(assets), assets, id) && assets[id].status == REJECTED
      ensures forall k | k in written && k in storage :: k in undeletable
    {
      ghost var start := State(uploads[id := CleaningUp(image)], purges);
      hide Run, Execute;
      steps := CleanUpObjects(id, image, written, undeletable, start);
      var dropped := DeleteObject(RawUpload(id), undeletable);
      if dropped {
        DropRawStep(Run(start, steps), id);
        steps := Extend(start, steps, DropRaw(id));
      }
      MarkRejected(id);
      assert uploads[id := CleaningUp(image)] - {id} == uploads;
      RejectStep(Run(start, steps), id);
      steps := Extend(start, steps, Reject(id));
    }

    /** One statement rejects every listed row; `stuck` counts those that were PROCESSING. */
    method RejectDue(due: seq<nat>, ghost uploads: map<nat, Stage>, ghost purges: map<nat, Purge>)
      returns (stuck: nat, ghost steps: seq<Step>)
      requires NoDuplicates(due) && forall i | 0 <= i < |due| :: due[i] < |assets| && Sweepable(assets[due[i]])
      modifies this`assets
      ensures State(uploads, purges) == Run(old(State(uploads, purges)), steps)
      ensures AllRejected(old(assets), assets, due)
      ensures stuck == CountStatus(old(assets), due, PROCESSING)
    {
      ghost var start := State(uploads, purges);
      assert Run(start, []) == start;
      hide Run, Execute, AllRejected, CountStatus, NoDuplicates;
      stuck, steps := 0, [];
      NoneRejected(assets);
      assert due[..0] == [];
      for k := 0 to |due|
        invariant AllRejected(start.assets, assets, due[..k])
        invariant stuck == CountStatus(start.assets, due[..k], PROCESSING)
        invariant State(uploads, purges) == Run(start, steps)
      {
        OneMoreRejected(start.assets, assets, due, k);
        OneMoreCounted(start.assets, due, k);
        if assets[due[k]].status == PROCESSING {
          stuck := stuck + 1;
        }
        assets := assets[due[k] := assets[due[k]].(status := REJECTED)];
        SweepStuckStep(Run(start, steps), due[k]);
        steps := Extend(start, steps, SweepStuck(due[k]));
      }
      assert due[..|due|] == due;
    }

    /** Deletes the raw uploads of rejected rows, as far as storage allows, and nothing else. */
    method DropRaws(due: seq<nat>, undeletable: set<Key>, ghost uploads: map<nat, Stage>, ghost purges: map<nat, Purge>)
      returns (ghost steps: seq<Step>)
      requires forall i | 0 <= i < |due| :: due[i] < |assets| && assets[due[i]].status == REJECTED
      modifies this`storage
      ensures State(uploads, purges) == Run(old(State(uploads, purges)), steps)
      ensures forall id | id in due && RawUpload(id) !in undeletable :: RawUpload(id) !in storage
      ensures storage.Keys <= old(storage).Keys
      ensures forall k | k in old(storage) && !(k.RawUpload? && k.asset in due) ::
        SameObject(old(storage), storage, k)
    {
      ghost var start := State(uploads, purges);
      steps := [];
      assert Run(start, []) == start;
      hide Run, Execute;
      for k := 0 to |due|
        invariant State(uploads, purges) == Run(start, steps)
        invariant forall j | 0 <= j < k && RawUpload(due[j]) !in undeletable :: RawUpload(due[j]) !in storage
        invariant storage.Keys <= old(storage).Keys
        invariant forall k | k in old(storage) && !(k.RawUpload? && k.asset in due) ::
          SameObject(old(storage), storage, k)
      {
        assert due[k] in due;
        var dropped := DeleteObject(RawUpload(due[k]), undeletable);
        if dropped {
          DropRawStep(Run(start, steps), due[k]);
          steps := Extend(start, steps, DropRaw(due[k]));
        }
      }
    }

    /**
     * The worker's sweep: the rows its query lists, stuck or abandoned, become REJECTED and
     * no other row changes; then their raw uploads are deleted, as far as storage allows.
     */
    method SweepMedia(due: seq<nat>, undeletable: set<Key>, ghost uploads: map<nat, Stage>, ghost purges: map<nat, Purge>)
      returns (stuck: nat, abandoned: nat, ghost steps: seq<Step>)
      requires NoDuplicates(due) && forall i | 0 <= i < |due| :: due[i] < |assets| && Sweepable(assets[due[i]])
      modifies this`assets, this`storage
      ensures State(uploads, purges) == Run(old(State(uploads, purges)), steps)
      ensures AllRejected(old(assets), assets, due)
      ensures stuck == CountStatus(old(assets), due, PROCESSING) && stuck + abandoned == |due|
      ensures forall id | id in due && RawUpload(id) !in undeletable :: RawUpload(id) !in storage
      ensures storage.Keys <= old(storage).Keys
      ensures forall k | k in old(storage) && !(k.RawUpload? && k.asset in due) ::
        SameObject(old(storage), storage, k)
    {
      ghost var start := State(uploads, purges);
      CountAtMost(assets, due, PROCESSING);
      stuck, steps := RejectDue(due, uploads, purges);
      ghost var more := DropRaws(due, undeletable, uploads, purges);
      RunConcat(start, steps, more);
      steps := steps + more;
      abandoned := |due| - stuck;
    }

    /** The deleting transaction: a READY asset's bytes stop counting. */
    method MarkDeleted(id: nat, ghost uploads: map<nat, Stage>, ghost purges: map<nat, Purge>)
      requires id < |assets|
      modifies this
      ensures State(uploads, purges) == DeleteRow(old(State(uploads, purges)), id)
    {
      var row := assets[id];
      assets := assets[id := row.(status := DELETED)];
      if row.status == READY {
        var stored := StoredBytes(row);
        if 0 < stored {
          counter := Release(counter, stored);
          released := released + [id];
        }
      }
    }

    /** Deletes an asset nothing uses, then its objects; it counts as purged only if every delete worked. */
    method DeleteMedia(id: nat, inUse: bool, undeletable: set<Key>,
                       ghost uploads: map<nat, Stage>, ghost purges: map<nat, Purge>, ghost process: nat)
      returns (deleted: bool, ghost steps: seq<Step>)
      requires process !in purges
      modifies this
      ensures State(uploads, purges) == Run(old(State(uploads, purges)), steps)
      ensures deleted <==> id < |old(assets)| && old(assets)[id].status != DELETED && !inUse
      ensures !deleted ==> State(uploads, purges) == old(State(uploads, purges))
      ensures deleted ==>
        var row, keys := old(assets)[id], DeletionKeys(id, old(assets)[id]);
        && assets == old(assets)[id :=
          row.(status := DELETED, purged := row.purged || forall k | k in keys :: k !in undeletable)]
        && counter == DeleteRow(old(State(uploads, purges)), id).counter
        && storage == old(storage) - Deletable(keys, undeletable)
      ensures deleted ==> forall k | k in RecordedKeys(old(assets)[id]) || k == RawUpload(id) ::
        k in storage ==> k in undeletable
    {
      if id < |assets| {
        DeletionKeysRecorded(id, assets[id]);
        RawUploadGoes(id, assets[id]);
      }
      ghost var start := State(uploads, purges);
      assert Run(start, []) == start;
      hide Run, Deletable, DeletionKeys;
      steps := [];
      if |assets| <= id || assets[id].status == DELETED || inUse {
        return false, steps;
      }
      var row := assets[id];
      DeleteStep(start, id, process);
      hide Execute, DeleteRow;
      MarkDeleted(id, uploads, purges);
      steps := Extend(start, steps, DeleteAsset(id, inUse, process));
      var _, more := PurgeObjects(id, DeletionKeys(id, row), undeletable, uploads, purges, process);
      RunConcat(start, steps, more);
      steps := steps + more;
      DeletableIs(DeletionKeys(id, row), undeletable);
      return true, steps;
    }

    /** Deletes an asset's objects one by one; only if none failed is the row marked purged. */
    method PurgeObjects(id: nat, keys: seq<Key>, undeletable: set<Key>,
                        ghost uploads: map<nat, Stage>, ghost purges: map<nat, Purge>, ghost process: nat)
      returns (purged: bool, ghost steps: seq<Step>)
      requires process !in purges && id < |assets|
      modifies this`assets, this`storage
      ensures State(uploads, purges) ==
        Run(old(State(uploads, purges[process := Purge(id, keys, false)])), steps)
      ensures purged <==> forall k | k in keys :: k !in undeletable
      ensures assets == if purged then old(assets)[id := old(assets)[id].(purged := true)] else old(assets)
      ensures storage == old(storage) - Deletable(keys, undeletable)
    {
      ghost var start := State(uploads, purges[process := Purge(id, keys, false)]);
      purged, steps := DeleteObjects(id, keys, undeletable, uploads, purges, process);
      hide Run, Execute, Deletable;
      ghost var last := Purge(id, [], !purged);
      if purged {
        assets := assets[id := assets[id].(purged := true)];
      }
      assert purges[process := last] - {process} == purges;
      FinishPurgeStep(Run(start, steps), process);
      steps := Extend(start, steps, FinishPurge(process));
    }

    /** The loop: every key is tried, whether or not one before it failed. */
    method DeleteObjects(id: nat, keys: seq<Key>, undeletable: set<Key>,
                         ghost uploads: map<nat, Stage>, ghost purges: map<nat, Purge>, ghost process: nat)
      returns (purged: bool, ghost steps: seq<Step>)
      requires process !in purges && id < |assets|
      modifies this`storage
      ensures State(uploads, purges[process := Purge(id, [], !purged)]) ==
        Run(old(State(uploads, purges[process := Purge(id, keys, false)])), steps)
      ensures purged <==> forall k | k in keys :: k !in undeletable
      ensures storage == old(storage) - Deletable(keys, undeletable)
    {
      ghost var start := State(uploads, purges[process := Purge(id, keys, false)]);
      assert Run(start, []) == start;
      hide Run, Deletable, Execute;
      NothingDeletable(undeletable);
      purged, steps := true, [];
      var k := 0;
      while k < |keys|
        invariant k <= |keys|
        invariant State(uploads, purges[process := Purge(id, keys[k..], !purged)]) == Run(start, steps)
        invariant purged <==> forall j | 0 <= j < k :: keys[j] !in undeletable
        invariant storage == old(storage) - Deletable(keys[..k], undeletable)
      {
        DeletableMore(keys, undeletable, k);
        PurgeNextStep(State(uploads, purges), process, Purge(id, keys[k..], !purged), keys[k] !in undeletable);
        assert keys[k..][1..] == keys[k + 1..];
        var ok := DeleteObject(keys[k], undeletable);
        purged := purged && ok;
        steps := Extend(start, steps, PurgeNext(process, ok));
        k := k + 1;
      }
      assert keys[..k] == keys;
    }
  }

  lemma {:induction false} RunConcat(m: Library, first: seq<Step>, second: seq<Step>)
    ensures Run(m, first + second) == Run(Run(m, first), second)
    decreases |first|
  {
    if first == [] {
      assert first + second == second;
    } else {
      assert (first + second)[1..] == first[1..] + second;
      RunConcat(Execute(m, first[0]), first[1..], second);
    }
  }

  lemma RunSnoc(m: Library, steps: seq<Step>, step: Step)
    ensures Run(m, steps + [step]) == Execute(Run(m, steps), step)
  {
    RunConcat(m, steps, [step]);
    assert [step][1..] == [];
  }

  lemma CommitStep(m: Library, id: nat, granted: EntitlementValue)
    requires Enabled(m, Commit(id, granted))
    ensures Execute(m, Commit(id, granted)) ==
      match CommitUpload(m, id, m.uploads[id].image, granted)
      case Some(committed) => committed.(uploads := m.uploads - {id})
      case None => m.(uploads := m.uploads[id := CleaningUp(m.uploads[id].image)])
  {
  }

  lemma DeleteStep(m: Library, id: nat, process: nat)
    requires Enabled(m, DeleteAsset(id, false, process))
    ensures var after := DeleteRow(m, id);
      && Execute(m, DeleteAsset(id, false, process))
        == after.(purges := m.purges[process := Purge(id, DeletionKeys(id, m.assets[id]), false)])
      && after.assets == m.assets[id := m.assets[id].(status := DELETED)]
      && after.storage == m.storage
  {
  }

  lemma PurgeNextStep(m: Library, process: nat, p: Purge, ok: bool)
    requires p.todo != []
    ensures Execute(m.(purges := m.purges[process := p]), PurgeNext(process, ok)) ==
      m.(storage := if ok then m.storage - {p.todo[0]} else m.storage,
         purges := m.purges[process := Purge(p.asset, p.todo[1..], p.failed || !ok)])
  {
    assert m.purges[process := p][process := Purge(p.asset, p.todo[1..], p.failed || !ok)]
        == m.purges[process := Purge(p.asset, p.todo[1..], p.failed || !ok)];
  }

  lemma AbandonStep(m: Library, id: nat)
    requires id in m.uploads && m.uploads[id].Writing?
    ensures Execute(m, AbandonWriting(id)) == m.(uploads := m.uploads[id := CleaningUp(m.uploads[id].image)])
  {
  }

  lemma CrashStep(m: Library, id: nat)
    requires id in m.uploads
    ensures Execute(m, Crash(id)) == m.(uploads := m.uploads - {id})
  {
  }

  lemma DropRawStep(m: Library, id: nat)
    requires id < |m.assets| && (id in m.uploads || m.assets[id].status in {REJECTED, DELETED})
    ensures Execute(m, DropRaw(id)) == m.(storage := m.storage - {RawUpload(id)})
  {
  }

  lemma RejectStep(m: Library, id: nat)
    requires id in m.uploads && id < |m.assets| && (m.uploads[id].Reading? || m.uploads[id].CleaningUp?)
    ensures Execute(m, Reject(id)) == m.(
      uploads := m.uploads - {id},
      assets := m.assets[id := m.assets[id].(
        status := if m.assets[id].status == PROCESSING then REJECTED else m.assets[id].status)])
  {
    if m.assets[id].status != PROCESSING {
      assert m.assets[id := m.assets[id]] == m.assets;
    }
  }

  lemma SweepStuckStep(m: Library, id: nat)
    requires id < |m.assets| && Sweepable(m.assets[id])
    ensures Execute(m, SweepStuck(id)) == m.(assets := m.assets[id := m.assets[id].(status := REJECTED)])
  {
  }

  lemma FinishPurgeStep(m: Library, process: nat)
    requires process in m.purges && m.purges[process].todo == [] && m.purges[process].asset < |m.assets|
    ensures var p := m.purges[process];
      Execute(m, FinishPurge(process)) == m.(purges := m.purges - {process},
        assets := if p.failed then m.assets else m.assets[p.asset := m.assets[p.asset].(purged := true)])
  {
  }

  /** One more step at the end of a run. */
  ghost function Extend(m: Library, steps: seq<Step>, step: Step): (r: seq<Step>)
    ensures Run(m, r) == Execute(Run(m, steps), step)
  {
    RunSnoc(m, steps, step);
    steps + [step]
  }
}
