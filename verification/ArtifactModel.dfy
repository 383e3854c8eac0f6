/** lava_mcp/artifacts.py: the artifact store as a state machine.  Every operation is a change of
    the in-memory state together with the list of file-system steps it performs, in order; a crash
    stops after any number of those steps and restarts from what is on disk. */
module ArtifactModel {
  import opened Text

  type Id = string
  type Bytes = string

  datatype Phase = AwaitUpload | Stored

  datatype Artifact = Artifact(
    id: Id,
    filename: string,
    owner: string,
    tokenHash: string,
    declared: nat,
    created: real,
    expires: real,
    bindJob: Option<int>,
    phase: Phase,
    sizeActual: Option<nat>,
    tokenName: Option<string>
  )

  // ---- the disk --------------------------------------------------------------------------

  /** A metadata file: `Torn` is one that has been opened for writing but not written. */
  datatype Meta = Torn | Json(art: Artifact)

  datatype Disk = Disk(meta: map<Id, Meta>, blob: map<Id, Bytes>, part: map<Id, Bytes>)

  datatype FsOp =
    | TruncateMeta(id: Id)
    | WriteMeta(art: Artifact)
    | UnlinkMeta(id: Id)
    | UnlinkBlob(id: Id)
    | UnlinkPart(id: Id)
    | CreatePart(id: Id)
    | AppendPart(id: Id, data: Bytes)
    | PartToBlob(id: Id)
    | TruncateBlob(id: Id)
    | WriteBlob(id: Id, data: Bytes)

  /** Unlinking a missing file, renaming a missing file, and writing to a file that has lost its
      name change nothing on disk. */
  function Apply(d: Disk, op: FsOp): Disk {
    match op
    case TruncateMeta(id) => d.(meta := d.meta[id := Torn])
    case WriteMeta(art) => d.(meta := d.meta[art.id := Json(art)])
    case UnlinkMeta(id) => d.(meta := d.meta - {id})
    case UnlinkBlob(id) => d.(blob := d.blob - {id})
    case UnlinkPart(id) => d.(part := d.part - {id})
    case CreatePart(id) => d.(part := d.part[id := []])
    case AppendPart(id, data) => if id in d.part then d.(part := d.part[id := d.part[id] + data]) else d
    case PartToBlob(id) => if id in d.part then d.(blob := d.blob[id := d.part[id]], part := d.part - {id}) else d
    case TruncateBlob(id) => d.(blob := d.blob[id := []])
    case WriteBlob(id, data) => d.(blob := d.blob[id := data])
  }

  function ApplyAll(d: Disk, ops: seq<FsOp>): Disk
    decreases |ops|
  {
    if ops == [] then d else ApplyAll(Apply(d, ops[0]), ops[1..])
  }

  /** _persist */
  function Persist(art: Artifact): seq<FsOp> {
    [TruncateMeta(art.id), WriteMeta(art)]
  }

  /** _remove_files */
  function RemoveFiles(id: Id): seq<FsOp> {
    [UnlinkMeta(id), UnlinkBlob(id), UnlinkPart(id)]
  }

  /** _load: the readable metadata files. */
  function Load(d: Disk): map<Id, Artifact> {
    map id | id in d.meta && d.meta[id].Json? :: d.meta[id].art
  }

  // ---- admission ---------------------------------------------------------------------------

  datatype Refusal = NegativeSize | ExceedsCap | InsufficientDisk

  /** Admitted: not negative, within the cap, and within what may be stored now; the first of these
      that fails is the reason of the refusal. */
  function CheckAdmission(size: int, maxBytes: nat, headroom: nat): (r: Option<Refusal>)
    ensures r == None <==> 0 <= size <= maxBytes && size <= headroom
    ensures r == Some(NegativeSize) <==> size < 0
    ensures r == Some(ExceedsCap) <==> maxBytes < size
    ensures r == Some(InsufficientDisk) <==> headroom < size <= maxBytes
  {
    if size < 0 then Some(NegativeSize)
    else if size > maxBytes then Some(ExceedsCap)
    else if size > headroom then Some(InsufficientDisk)
    else None
  }

  // ---- one upload ----------------------------------------------------------------------------

  const RECHECK: nat := 64 * 1024 * 1024

  /** The local state of write_stream: what it has written, and `checkpoint`. */
  datatype Upload = Upload(data: Bytes, checkpoint: nat)

  datatype Verdict = Take(next: Upload) | Reject(reason: Refusal)

  /** One turn of the streaming loop for a non-empty chunk. */
  function Consider(u: Upload, chunk: Bytes, maxBytes: nat, headroom: nat): Verdict {
    var written := |u.data| + |chunk|;
    if written > maxBytes then Reject(ExceedsCap)
    else if written - u.checkpoint >= RECHECK then
      if headroom == 0 then Reject(InsufficientDisk) else Take(Upload(u.data + chunk, written))
    else Take(Upload(u.data + chunk, u.checkpoint))
  }

  // ---- the store -----------------------------------------------------------------------------

  datatype Config = Config(ttlDefault: real, ttlMax: real, maxBytes: nat)

  datatype Store = Store(
    cfg: Config,
    now: real,
    heap: map<Id, Artifact>,            // the Artifact objects of this process, by id
    live: set<Id>,                      // the keys of _artifacts
    pending: set<(string, string)>,     // _pending_token_deletions
    uploads: map<Id, Upload>,           // write_stream calls in flight; each holds heap[id]
    disk: Disk,
    issued: set<Id>,                    // every id ever drawn
    handed: multiset<(string, string)>  // (caller, name) pairs this process has returned for deletion
  )

  datatype Op =
    | Tick(to: real)
    | Create(id: Id, filename: string, size: int, owner: string, hash: string, ttl: Option<real>, bindJob: Option<int>, headroom: nat)
    | Expire(id: Id)                                          // _reap_one, from get or reap
    | Put(id: Id, contentLength: Option<int>, headroom: nat)  // the route, up to the first await
    | Chunk(id: Id, chunk: Bytes, headroom: nat)
    | EndOfStream(id: Id)
    | Disconnect(id: Id)
    | StoreBytes(id: Id, data: Bytes, headroom: nat)
    | Delete(id: Id, requester: Option<string>)
    | NameToken(id: Id)
    | TakePending(owner: string)

  /** The name create_artifact_upload registers with LAVA. */
  function TokenName(id: Id): string {
    "lava-mcp-artifact-" + id
  }

  predicate Expired(s: Store, id: Id)
    requires id in s.heap
  {
    s.now >= s.heap[id].expires
  }

  /** Fresh ids, a clock that does not run backwards, one upload per artifact at a time, and events
      of an upload only while it is in flight.  Uploads and store_bytes hold the artifact object,
      whether or not the index still does. */
  predicate Accepts(s: Store, op: Op) {
    match op
    case Tick(to) => to >= s.now
    case Create(id, _, _, _, _, _, _, _) => id !in s.issued
    case Expire(id) => id in s.live && id in s.heap && Expired(s, id)
    case Put(id, _, _) => id !in s.uploads
    case Chunk(id, _, _) => id in s.uploads && id in s.heap
    case EndOfStream(id) => id in s.uploads && id in s.heap
    case Disconnect(id) => id in s.uploads && id in s.heap
    case StoreBytes(id, _, _) => id in s.heap && id !in s.uploads
    case Delete(id, _) => id in s.live ==> id in s.heap
    case NameToken(id) => id in s.live ==> id in s.heap
    case TakePending(_) => true
  }

  /** The operations of a run: store_bytes does not write an artifact that has been removed. */
  predicate Enabled(s: Store, op: Op) {
    Accepts(s, op) && (op.StoreBytes? && StoresNow(s, op.id, op.data, op.headroom) ==> op.id in s.live)
  }

  function TtlOf(cfg: Config, ttl: Option<real>): real {
    var t := if ttl.Some? then ttl.value else cfg.ttlDefault;
    var capped := if t <= cfg.ttlMax then t else cfg.ttlMax;
    if capped >= 1.0 then capped else 1.0
  }

  function NewArtifact(s: Store, op: Op): Artifact
    requires op.Create? && op.size >= 0
  {
    Artifact(op.id, op.filename, op.owner, op.hash, op.size, s.now, s.now + TtlOf(s.cfg, op.ttl), op.bindJob, AwaitUpload, None, None)
  }

  function Owed(art: Artifact): set<(string, string)> {
    if art.tokenName.Some? && art.tokenName.value != "" then {(art.owner, art.tokenName.value)} else {}
  }

  predicate Removes(s: Store, id: Id, requester: Option<string>) {
    id in s.live && id in s.heap && (requester.Some? ==> s.heap[id].owner == requester.value)
  }

  /** The upload is admitted: the artifact is live, not expired, still awaits its bytes, and the
      announced length is acceptable. */
  predicate Admitted(s: Store, id: Id, contentLength: Option<int>, headroom: nat) {
    && id in s.live && id in s.heap && !Expired(s, id) && s.heap[id].phase == AwaitUpload
    && (contentLength.Some? ==> CheckAdmission(contentLength.value, s.cfg.maxBytes, headroom).None?)
  }

  predicate StoresNow(s: Store, id: Id, data: Bytes, headroom: nat)
    requires id in s.heap
  {
    s.heap[id].phase == AwaitUpload && CheckAdmission(|data|, s.cfg.maxBytes, headroom).None?
  }

  function StoredAs(art: Artifact, size: nat): Artifact {
    art.(phase := Stored, sizeActual := Some(size))
  }

  function Taken(pending: set<(string, string)>, owner: string): set<(string, string)> {
    set p | p in pending && p.0 == owner
  }

  function Removed(s: Store, id: Id): Store
    requires id in s.heap
  {
    s.(live := s.live - {id}, pending := s.pending + Owed(s.heap[id]))
  }

  /** The memory after an operation; the disk is left to FsOps. */
  function Memory(s: Store, op: Op): Store
    requires Accepts(s, op)
  {
    match op
    case Tick(to) => s.(now := to)
    case Create(id, _, size, _, _, _, _, headroom) =>
      if CheckAdmission(size, s.cfg.maxBytes, headroom).Some? then s
      else s.(heap := s.heap[id := NewArtifact(s, op)], live := s.live + {id}, issued := s.issued + {id})
    case Expire(id) => Removed(s, id)
    case Put(id, length, headroom) =>
      if Admitted(s, id, length, headroom) then s.(uploads := s.uploads[id := Upload([], 0)]) else s
    case Chunk(id, chunk, headroom) =>
      if chunk == [] then s
      else (match Consider(s.uploads[id], chunk, s.cfg.maxBytes, headroom)
            case Reject(_) => s.(uploads := s.uploads - {id})
            case Take(u) => s.(uploads := s.uploads[id := u]))
    case EndOfStream(id) =>
      if id in s.disk.part then
        s.(uploads := s.uploads - {id}, heap := s.heap[id := StoredAs(s.heap[id], |s.uploads[id].data|)])
      else s.(uploads := s.uploads - {id})
    case Disconnect(id) => s.(uploads := s.uploads - {id})
    case StoreBytes(id, data, headroom) =>
      if StoresNow(s, id, data, headroom) then s.(heap := s.heap[id := StoredAs(s.heap[id], |data|)]) else s
    case Delete(id, requester) => if Removes(s, id, requester) then Removed(s, id) else s
    case NameToken(id) =>
      if id in s.live then s.(heap := s.heap[id := s.heap[id].(tokenName := Some(TokenName(id)))]) else s
    case TakePending(owner) =>
      s.(pending := s.pending - Taken(s.pending, owner), handed := s.handed + multiset(Taken(s.pending, owner)))
  }

  /** The file-system steps of an operation, in the order the code performs them. */
  function FsOps(s: Store, op: Op): seq<FsOp>
    requires Accepts(s, op)
  {
    match op
    case Tick(_) => []
    case Create(id, _, size, _, _, _, _, headroom) =>
      if CheckAdmission(size, s.cfg.maxBytes, headroom).Some? then [] else Persist(NewArtifact(s, op))
    case Expire(id) => RemoveFiles(id)
    case Put(id, length, headroom) => if Admitted(s, id, length, headroom) then [CreatePart(id)] else []
    case Chunk(id, chunk, headroom) =>
      if chunk == [] then []
      else (match Consider(s.uploads[id], chunk, s.cfg.maxBytes, headroom)
            case Reject(_) => [UnlinkPart(id)]
            case Take(_) => [AppendPart(id, chunk)])
    case EndOfStream(id) =>
      if id in s.disk.part then [PartToBlob(id)] + Persist(StoredAs(s.heap[id], |s.uploads[id].data|))
      else [PartToBlob(id), UnlinkPart(id)]
    case Disconnect(id) => [UnlinkPart(id)]
    case StoreBytes(id, data, headroom) =>
      if StoresNow(s, id, data, headroom)
      then [TruncateBlob(id), WriteBlob(id, data)] + Persist(StoredAs(s.heap[id], |data|))
      else []
    case Delete(id, requester) => if Removes(s, id, requester) then RemoveFiles(id) else []
    case NameToken(id) =>
      if id in s.live then Persist(s.heap[id].(tokenName := Some(TokenName(id)))) else []
    case TakePending(_) => []
  }

  function Next(s: Store, op: Op): Store
    requires Accepts(s, op)
  {
    Memory(s, op).(disk := ApplyAll(s.disk, FsOps(s, op)))
  }

  /** A new process on what is on disk: ids and the clock go on, everything else is reloaded. */
  function Restart(s: Store, disk: Disk): Store {
    s.(heap := Load(disk), live := Load(disk).Keys, pending := {}, uploads := map[], disk := disk, handed := multiset{})
  }

  datatype Event = Do(op: Op) | Crash(op: Op, steps: nat)

  predicate Possible(s: Store, e: Event) {
    match e
    case Do(op) => Enabled(s, op)
    case Crash(op, k) => Enabled(s, op) && k <= |FsOps(s, op)|
  }

  /** The store after stopping `op` when `steps` of its file-system steps are done, and starting again. */
  function Crashed(s: Store, op: Op, steps: nat): Store
    requires Enabled(s, op) && steps <= |FsOps(s, op)|
  {
    Restart(s.(issued := Memory(s, op).issued, now := Memory(s, op).now), ApplyAll(s.disk, FsOps(s, op)[..steps]))
  }

  function Step(s: Store, e: Event): Store
    requires Possible(s, e)
  {
    match e
    case Do(op) => Next(s, op)
    case Crash(op, k) => Crashed(s, op, k)
  }

  ghost predicate Run(s: Store, events: seq<Event>, q: Store)
    decreases |events|
  {
    if events == [] then s == q
    else Possible(s, events[0]) && Run(Step(s, events[0]), events[1..], q)
  }

  function Empty(cfg: Config, now: real): Store {
    Store(cfg, now, map[], {}, {}, map[], Disk(map[], map[], map[]), {}, multiset{})
  }

  // ---- what the store keeps -----------------------------------------------------------------

  predicate LifetimeOk(cfg: Config, now: real, art: Artifact) {
    && art.created <= now
    && 1.0 <= art.expires - art.created
    && (art.expires - art.created <= 1.0 || art.expires - art.created <= cfg.ttlMax)
  }

  /** A stored artifact's blob is complete: exactly `size_actual` bytes, within the cap. */
  predicate BlobOk(cfg: Config, blob: map<Id, Bytes>, art: Artifact) {
    art.phase == Stored ==>
      art.id in blob && art.sizeActual == Some(|blob[art.id]|) && |blob[art.id]| <= cfg.maxBytes
  }

  predicate MetaOk(cfg: Config, now: real, blob: map<Id, Bytes>, id: Id, m: Meta) {
    m.Json? ==> m.art.id == id && LifetimeOk(cfg, now, m.art) && BlobOk(cfg, blob, m.art) && TokenOk(m.art)
  }

  predicate TokenOk(art: Artifact) {
    art.tokenName == None || art.tokenName == Some(TokenName(art.id))
  }

  /** Whatever process starts on this disk finds only complete stored artifacts. */
  predicate DiskOk(s: Store, d: Disk) {
    && d.meta.Keys <= s.issued && d.blob.Keys <= s.issued && d.part.Keys <= s.issued
    && forall id :: id in d.meta ==> MetaOk(s.cfg, s.now, d.blob, id, d.meta[id])
  }

  /** The index is what _load would rebuild. */
  predicate IndexOk(s: Store) {
    && s.live <= s.heap.Keys && s.heap.Keys <= s.issued
    && (forall id :: id in s.heap ==> s.heap[id].id == id)
    && (forall id :: id in s.live ==> id in s.disk.meta && s.disk.meta[id] == Json(s.heap[id]))
    && (forall id :: id in s.disk.meta && s.disk.meta[id].Json? ==> id in s.live)
  }

  predicate UploadOk(s: Store, id: Id, u: Upload)
    requires id in s.heap
  {
    && |u.data| <= s.cfg.maxBytes && u.checkpoint <= |u.data| && |u.data| - u.checkpoint < RECHECK
    && if id in s.live
       then s.heap[id].phase == AwaitUpload && id in s.disk.part && s.disk.part[id] == u.data
       else id !in s.disk.meta && id !in s.disk.blob && id !in s.disk.part
  }

  predicate UploadsOk(s: Store) {
    && s.uploads.Keys <= s.heap.Keys
    && forall id :: id in s.uploads && id in s.heap ==> UploadOk(s, id, s.uploads[id])
  }

  // ---- where a token name is ----------------------------------------------------------------

  /** The (owner, name) pair of an artifact's registered token. */
  function Token(art: Artifact): (string, string) {
    (art.owner, TokenName(art.id))
  }

  /** In how many places the token of an artifact of this process is: on the live artifact, in the
      pending set, or among those handed out. */
  function Places(s: Store, id: Id): nat
    requires id in s.heap
  {
    (if id in s.live && s.heap[id].tokenName.Some? then 1 else 0)
    + (if Token(s.heap[id]) in s.pending then 1 else 0)
    + s.handed[Token(s.heap[id])]
  }

  ghost predicate TokensOk(s: Store) {
    && (forall id :: id in s.heap ==> TokenOk(s.heap[id]))
    && (forall id :: id in s.heap ==> Places(s, id) == if s.heap[id].tokenName.Some? then 1 else 0)
    && (forall p :: p in s.pending || p in s.handed ==> OwnedBy(s, p))
  }

  /** The pair is the token of a removed artifact of this process. */
  ghost predicate OwnedBy(s: Store, p: (string, string)) {
    exists id :: id in s.heap && id !in s.live && s.heap[id].tokenName.Some? && p == Token(s.heap[id])
  }

  ghost predicate Inv(s: Store) {
    DiskOk(s, s.disk) && IndexOk(s) && UploadsOk(s) && TokensOk(s)
  }
}
