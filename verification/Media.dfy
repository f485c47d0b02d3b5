/**
 * The media library as a protocol: upload completion, deletion, the worker's
 * sweep and purge, each transaction and each object write or delete a step.
 */
module Media {
  import opened Common
  import opened Entitlements
  import opened Usage

  /** Object keys name their asset: the raw upload, the cleaned original, a rendition. */
  datatype Key =
    | RawUpload(asset: nat)
    | Original(asset: nat, extension: string)
    | Rendition(asset: nat, width: nat)

  datatype AssetStatus = PENDING_UPLOAD | PROCESSING | READY | REJECTED | DELETED

  datatype StoredRendition = StoredRendition(key: Key, bytes: nat)

  /** Assets are soft-deleted only, so an asset's identity is its index. */
  datatype Asset = Asset(
    status: AssetStatus, storageKey: Key, sizeBytes: nat, renditions: seq<StoredRendition>, purged: bool)

  /** What image processing produced: the original's bytes and each rendition's width and bytes. */
  datatype Image = Image(extension: string, bytes: nat, renditions: seq<(nat, nat)>)
  {
    /** Processing makes one rendition per standard width, so no two share an object name. */
    predicate DistinctWidths() {
      forall i, j | 0 <= i < j < |renditions| :: renditions[i].0 != renditions[j].0
    }
  }

  /** How far a completion got. `written` counts the objects stored so far. */
  datatype Stage =
    | Reading
    | Writing(image: Image, written: nat)
    | CleaningUp(image: Image)

  /** A deletion of an asset's objects: what is left to do, and whether some delete failed. */
  datatype Purge = Purge(asset: nat, todo: seq<Key>, failed: bool)

  /** The rows, and the objects in storage with their sizes. */
  datatype Library = Library(
    assets: seq<Asset>,
    storage: map<Key, nat>,
    counter: Option<int>,
    consumed: seq<nat>,
    released: seq<nat>,
    uploads: map<nat, Stage>,
    purges: map<nat, Purge>)

  const EMPTY := Library([], map[], None, [], [], map[], map[])

  // --- keys and bytes ------------------------------------------------------------------

  function RenditionsOf(asset: nat, widths: seq<(nat, nat)>): seq<StoredRendition> {
    seq(|widths|, i requires 0 <= i < |widths| => StoredRendition(Rendition(asset, widths[i].0), widths[i].1))
  }

  /** The objects a completion writes, in order: the original, then each rendition. */
  function ObjectKeys(asset: nat, image: Image): (keys: seq<Key>)
    ensures |keys| == 1 + |image.renditions|
    ensures forall k | k in keys :: k.asset == asset && !k.RawUpload?
  {
    [Original(asset, image.extension)]
      + seq(|image.renditions|, i requires 0 <= i < |image.renditions| => Rendition(asset, image.renditions[i].0))
  }

  /** The sizes of those objects, in the same order. */
  function ObjectSizes(image: Image): (sizes: seq<nat>)
    ensures |sizes| == 1 + |image.renditions|
  {
    [image.bytes] + seq(|image.renditions|, i requires 0 <= i < |image.renditions| => image.renditions[i].1)
  }

  function RenditionBytes(renditions: seq<StoredRendition>): nat {
    if renditions == [] then 0
    else RenditionBytes(renditions[..|renditions| - 1]) + renditions[|renditions| - 1].bytes
  }

  function StoredBytes(a: Asset): nat {
    a.sizeBytes + RenditionBytes(a.renditions)
  }

  function ProcessedBytes(renditions: seq<(nat, nat)>): nat {
    if renditions == [] then 0
    else ProcessedBytes(renditions[..|renditions| - 1]) + renditions[|renditions| - 1].1
  }

  /** What processing produced, in bytes: the original and every rendition. */
  function ImageBytes(image: Image): nat {
    image.bytes + ProcessedBytes(image.renditions)
  }

  /** Bytes counted against the plan: the original plus renditions of every READY asset. */
  function ReadyBytes(assets: seq<Asset>): nat {
    if assets == [] then 0
    else
      var last := assets[|assets| - 1];
      ReadyBytes(assets[..|assets| - 1]) + (if last.status == READY then StoredBytes(last) else 0)
  }

  /** The objects recorded on the row. */
  function RecordedKeys(a: Asset): set<Key> {
    {a.storageKey} + set r | r in a.renditions :: r.key
  }

  /** What a deletion removes: the recorded objects and the raw upload. */
  function DeletionKeys(id: nat, a: Asset): seq<Key> {
    var recorded := [a.storageKey] + seq(|a.renditions|, i requires 0 <= i < |a.renditions| => a.renditions[i].key);
    if RawUpload(id) in recorded then recorded else recorded + [RawUpload(id)]
  }

  // --- steps -----------------------------------------------------------------------------

  datatype Step =
    | CreateUpload
    | BrowserPut(asset: nat, bytes: nat)
    | ClaimUpload(asset: nat)
    | StartWriting(asset: nat, image: Image)
    | WriteNext(asset: nat)
    | AbandonWriting(asset: nat)
    | DropRaw(asset: nat)
    | Commit(asset: nat, granted: EntitlementValue)
    | CleanUp(asset: nat, key: Key)
    | Reject(asset: nat)
    | Crash(asset: nat)
    | SweepStuck(asset: nat)
    | DeleteAsset(asset: nat, inUse: bool, process: nat)
    | RetryPurge(asset: nat, process: nat)
    | PurgeNext(process: nat, ok: bool)
    | FinishPurge(process: nat)
    | Reconcile

  function SetStatus(m: Library, id: nat, status: AssetStatus): Library
    requires id < |m.assets|
  {
    m.(assets := m.assets[id := m.assets[id].(status := status)])
  }

  function FinishAsset(m: Library, id: nat, image: Image): Asset
    requires id < |m.assets|
  {
    m.assets[id].(
      status := READY,
      storageKey := Original(id, image.extension),
      sizeBytes := image.bytes,
      renditions := RenditionsOf(id, image.renditions))
  }

  /** The final transaction of a completion: consume and mark READY, or neither (None). */
  function CommitUpload(m: Library, id: nat, image: Image, granted: EntitlementValue): Option<Library>
    requires id < |m.assets|
  {
    match Consume(m.counter, ReadyBytes(m.assets), granted, ImageBytes(image))
    case Err(_) => None
    case Ok(value) =>
      if m.assets[id].status != PROCESSING then None
      else Some(m.(
        assets := m.assets[id := FinishAsset(m, id, image)],
        counter := Some(value),
        consumed := m.consumed + [id]))
  }

  /** The transaction of a deletion: refused while in use, it frees the bytes of a READY asset. */
  function DeleteRow(m: Library, id: nat): Library
    requires id < |m.assets|
  {
    var a := m.assets[id];
    var deleted := SetStatus(m, id, DELETED);
    if a.status == READY && 0 < StoredBytes(a)
    then deleted.(counter := Release(m.counter, StoredBytes(a)), released := m.released + [id])
    else deleted
  }

  predicate Enabled(m: Library, step: Step) {
    match step
    case CreateUpload => true
    case Reconcile => true
    case BrowserPut(id, _) => id < |m.assets|
    case ClaimUpload(id) => id < |m.assets| && m.assets[id].status == PENDING_UPLOAD
    case StartWriting(id, image) => id in m.uploads && m.uploads[id].Reading? && image.DistinctWidths()
    case WriteNext(id) =>
      && id in m.uploads && m.uploads[id].Writing?
      && m.uploads[id].written < |ObjectKeys(id, m.uploads[id].image)|
    case AbandonWriting(id) => id in m.uploads && m.uploads[id].Writing?
    case DropRaw(id) => id < |m.assets| && (id in m.uploads || m.assets[id].status in {REJECTED, DELETED})
    case Commit(id, _) =>
      && id < |m.assets| && id in m.uploads && m.uploads[id].Writing?
      && m.uploads[id].written == |ObjectKeys(id, m.uploads[id].image)|
    case CleanUp(id, key) =>
      id in m.uploads && m.uploads[id].CleaningUp? && key in ObjectKeys(id, m.uploads[id].image)
    case Reject(id) =>
      id < |m.assets| && id in m.uploads && (m.uploads[id].Reading? || m.uploads[id].CleaningUp?)
    case Crash(id) => id in m.uploads
    case SweepStuck(id) => id < |m.assets| && (m.assets[id].status == PROCESSING || m.assets[id].status == PENDING_UPLOAD)
    case DeleteAsset(id, inUse, process) =>
      id < |m.assets| && m.assets[id].status != DELETED && !inUse && process !in m.purges
    case RetryPurge(id, process) =>
      id < |m.assets| && m.assets[id].status == DELETED && !m.assets[id].purged && process !in m.purges
    case PurgeNext(process, _) => process in m.purges && m.purges[process].todo != []
    case FinishPurge(process) =>
      process in m.purges && m.purges[process].todo == [] && m.purges[process].asset < |m.assets|
  }

  /** What an enabled step does; any other step does nothing. */
  function Execute(m: Library, step: Step): Library {
    if !Enabled(m, step) then m
    else
      match step
      case CreateUpload =>
        m.(assets := m.assets + [Asset(PENDING_UPLOAD, RawUpload(|m.assets|), 0, [], false)])
      case BrowserPut(id, bytes) => m.(storage := m.storage[RawUpload(id) := bytes])
      case ClaimUpload(id) => SetStatus(m, id, PROCESSING).(uploads := m.uploads[id := Reading])
      case StartWriting(id, image) => m.(uploads := m.uploads[id := Writing(image, 0)])
      case WriteNext(id) =>
        var stage := m.uploads[id];
        m.(storage := m.storage[ObjectKeys(id, stage.image)[stage.written] := ObjectSizes(stage.image)[stage.written]],
           uploads := m.uploads[id := Writing(stage.image, stage.written + 1)])
      case AbandonWriting(id) => m.(uploads := m.uploads[id := CleaningUp(m.uploads[id].image)])
      case DropRaw(id) => m.(storage := m.storage - {RawUpload(id)})
      case Commit(id, granted) =>
        var image := m.uploads[id].image;
        (match CommitUpload(m, id, image, granted)
         case Some(committed) => committed.(uploads := m.uploads - {id})
         case None => m.(uploads := m.uploads[id := CleaningUp(image)]))
      case CleanUp(id, key) => m.(storage := m.storage - {key})
      case Reject(id) =>
        var stopped := m.(uploads := m.uploads - {id});
        if m.assets[id].status == PROCESSING then SetStatus(stopped, id, REJECTED) else stopped
      case Crash(id) => m.(uploads := m.uploads - {id})
      case SweepStuck(id) => SetStatus(m, id, REJECTED)
      case DeleteAsset(id, _, process) =>
        DeleteRow(m, id).(purges := m.purges[process := Purge(id, DeletionKeys(id, m.assets[id]), false)])
      case RetryPurge(id, process) =>
        m.(purges := m.purges[process := Purge(id, DeletionKeys(id, m.assets[id]), false)])
      case PurgeNext(process, ok) =>
        var p := m.purges[process];
        m.(storage := if ok then m.storage - {p.todo[0]} else m.storage,
           purges := m.purges[process := Purge(p.asset, p.todo[1..], p.failed || !ok)])
      case FinishPurge(process) =>
        var p := m.purges[process];
        m.(purges := m.purges - {process},
           assets := if p.failed then m.assets else m.assets[p.asset := m.assets[p.asset].(purged := true)])
      case Reconcile => m.(counter := Some(ReadyBytes(m.assets)))
  }

  function Run(m: Library, steps: seq<Step>): Library
    decreases |steps|
  {
    if steps == [] then m else Run(Execute(m, steps[0]), steps[1..])
  }
}
