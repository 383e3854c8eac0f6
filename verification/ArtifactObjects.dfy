/** lava_mcp/artifacts.py as objects: Artifact records that are updated in place and shared between
    the index and the uploads in flight, and a store whose methods perform the file-system steps one
    by one.  Every method is a step of the state machine, on memory and on disk. */
module ArtifactObjects {
  import opened Text
  import M = ArtifactModel
  import C = ArtifactClaims
  import opened ArtifactRuns

  type Id = M.Id
  type Bytes = M.Bytes

  class ArtifactObject {
    const id: Id
    const filename: string
    const owner: string
    const tokenHash: string
    const declared: nat
    const created: real
    const expires: real
    const bindJob: Option<int>
    var phase: M.Phase
    var sizeActual: Option<nat>
    var tokenName: Option<string>

    function Record(): M.Artifact
      reads this
    {
      M.Artifact(id, filename, owner, tokenHash, declared, created, expires, bindJob, phase, sizeActual, tokenName)
    }

    constructor (art: M.Artifact)
      ensures Record() == art && id == art.id
    {
      id, filename, owner, tokenHash := art.id, art.filename, art.owner, art.tokenHash;
      declared, created, expires, bindJob := art.declared, art.created, art.expires, art.bindJob;
      phase, sizeActual, tokenName := art.phase, art.sizeActual, art.tokenName;
    }
  }

  ghost predicate Expiries(trace: seq<M.Event>) {
    forall i :: 0 <= i < |trace| ==> trace[i].Do? && trace[i].op.Expire?
  }

  lemma MoreExpiries(trace: seq<M.Event>, n: nat, id: Id)
    requires n <= |trace| && Expiries(trace[n..])
    ensures var more := trace + [M.Do(M.Expire(id))];
      more[..n] == trace[..n] && Expiries(more[n..])
  {}

  function ExpiredNow(artifacts: map<Id, ArtifactObject>, now: real): set<Id> {
    set id | id in artifacts && now >= artifacts[id].expires
  }

  lemma DropOne<K, V>(all: map<K, V>, gone: set<K>, todo: set<K>, k: K)
    requires k in todo && todo <= gone
    ensures all - (gone - todo) - {k} == all - (gone - (todo - {k}))
  {}

  function Records(objects: map<Id, ArtifactObject>): map<Id, M.Artifact>
    reads objects.Values
  {
    map id | id in objects :: objects[id].Record()
  }

  lemma RecordsWith(objects: map<Id, ArtifactObject>, art: ArtifactObject)
    ensures Records(objects[art.id := art]) == Records(objects)[art.id := art.Record()]
  {}

  /** The readable metadata among these files. */
  function Readable(d: M.Disk, ids: set<Id>): map<Id, M.Artifact> {
    map id | id in ids && id in d.meta && d.meta[id].Json? :: d.meta[id].art
  }

  /** Every readable metadata file is named after the artifact in it. */
  predicate Named(d: M.Disk) {
    forall id :: id in d.meta && d.meta[id].Json? ==> d.meta[id].art.id == id
  }

  lemma FilesNamed(s: M.Store, d: M.Disk)
    requires M.DiskOk(s, d)
    ensures Named(d)
  {
    forall id | id in d.meta && d.meta[id].Json? ensures d.meta[id].art.id == id {
      assert M.MetaOk(s.cfg, s.now, d.blob, id, d.meta[id]);
    }
  }

  lemma ReadableNext(d: M.Disk, ids: set<Id>, id: Id)
    requires id in d.meta && id !in ids
    ensures Readable(d, ids + {id}) == if d.meta[id].Json? then Readable(d, ids)[id := d.meta[id].art] else Readable(d, ids)
  {}

  lemma ApplyTwo(d: M.Disk, a: M.FsOp, b: M.FsOp)
    ensures M.ApplyAll(d, [a, b]) == M.Apply(M.Apply(d, a), b)
  {
    var e := M.Apply(d, a);
    assert [b][1..] == [];
    assert M.ApplyAll(e, [b]) == M.ApplyAll(M.Apply(e, b), []);
    assert [a, b][1..] == [b];
  }

  lemma OneStep(d: M.Disk, a: M.FsOp)
    ensures M.ApplyAll(d, [a]) == M.Apply(d, a)
  {
    assert [a][1..] == [];
  }

  lemma AfterFirst(d: M.Disk, a: M.FsOp, rest: seq<M.FsOp>)
    ensures M.ApplyAll(d, [a] + rest) == M.ApplyAll(M.Apply(d, a), rest)
  {
    assert ([a] + rest)[1..] == rest;
  }

  lemma {:induction false} RunAppend(s: M.Store, events: seq<M.Event>, q: M.Store, e: M.Event)
    requires M.Run(s, events, q) && M.Possible(q, e)
    ensures M.Run(s, events + [e], M.Step(q, e))
    decreases |events|
  {
    if events == [] {
      assert events + [e] == [e] && [e][1..] == [];
    } else {
      assert (events + [e])[0] == events[0] && (events + [e])[1..] == events[1..] + [e];
      RunAppend(M.Step(s, events[0]), events[1..], q, e);
    }
  }

  lemma ApplyThree(d: M.Disk, a: M.FsOp, b: M.FsOp, c: M.FsOp)
    ensures M.ApplyAll(d, [a, b, c]) == M.Apply(M.Apply(M.Apply(d, a), b), c)
  {
    assert [a, b, c][1..] == [b, c];
    ApplyTwo(M.Apply(d, a), b, c);
  }

  // ---- what each step of the machine is, outcome by outcome -------------------------------

  lemma NextCreate(s: M.Store, op: M.Op)
    requires M.Enabled(s, op) && op.Create?
    ensures M.CheckAdmission(op.size, s.cfg.maxBytes, op.headroom).Some? ==> M.Next(s, op) == s && M.FsOps(s, op) == []
    ensures M.CheckAdmission(op.size, s.cfg.maxBytes, op.headroom).None? ==>
      var art := M.NewArtifact(s, op);
      && M.Next(s, op) == s.(heap := s.heap[op.id := art], live := s.live + {op.id}, issued := s.issued + {op.id},
                             disk := M.ApplyAll(s.disk, M.Persist(art)))
      && M.FsOps(s, op) == M.Persist(art)
  {}

  /** What a new process finds. */
  lemma OpenAt(cfg: M.Config, start: real, earlier: seq<M.Event>, before: M.Store, op: M.Op, steps: nat, disk: M.Disk)
    requires C.Reached(cfg, start, earlier, before) && M.Enabled(before, op) && steps <= |M.FsOps(before, op)|
    requires disk == M.ApplyAll(before.disk, M.FsOps(before, op)[..steps])
    ensures Named(disk)
    ensures C.Reached(cfg, start, earlier + [M.Crash(op, steps)], M.Crashed(before, op, steps))
    ensures C.StoredComplete(M.Crashed(before, op, steps))
    ensures M.Crashed(before, op, steps) ==
            M.Store(cfg, M.Memory(before, op).now, M.Load(disk), M.Load(disk).Keys, {}, map[], disk,
                    M.Memory(before, op).issued, multiset{})
  {
    C.ReachedInv(cfg, start, earlier, before);
    CrashDisk(before, op, steps);
    FilesNamed(M.Memory(before, op), disk);
    RunAppend(M.Empty(cfg, start), earlier, before, M.Crash(op, steps));
    C.CrashConsistency(cfg, start, earlier, before, op, steps);
  }

  lemma NewId(cfg: M.Config, start: real, trace: seq<M.Event>, s: M.Store, id: Id)
    requires C.Reached(cfg, start, trace, s) && id !in s.issued
    ensures id !in s.heap
  {
    C.ReachedInv(cfg, start, trace, s);
  }

  lemma NextPut(s: M.Store, id: Id, length: Option<int>, headroom: nat)
    requires id !in s.uploads
    ensures var op := M.Put(id, length, headroom);
      if M.Admitted(s, id, length, headroom)
      then M.Next(s, op) == s.(uploads := s.uploads[id := M.Upload([], 0)], disk := M.Apply(s.disk, M.CreatePart(id)))
           && M.FsOps(s, op) == [M.CreatePart(id)]
      else M.Next(s, op) == s && M.FsOps(s, op) == []
  {
    OneStep(s.disk, M.CreatePart(id));
  }

  lemma NextDisconnect(s: M.Store, id: Id)
    requires id in s.uploads && id in s.heap
    ensures M.Next(s, M.Disconnect(id)) == s.(uploads := s.uploads - {id}, disk := M.Apply(s.disk, M.UnlinkPart(id)))
    ensures M.FsOps(s, M.Disconnect(id)) == [M.UnlinkPart(id)]
  {
    OneStep(s.disk, M.UnlinkPart(id));
  }

  lemma NextChunk(s: M.Store, id: Id, chunk: Bytes, headroom: nat)
    requires id in s.uploads && id in s.heap
    ensures var op := M.Chunk(id, chunk, headroom);
      if chunk == [] then M.Next(s, op) == s && M.FsOps(s, op) == []
      else
        var verdict := M.Consider(s.uploads[id], chunk, s.cfg.maxBytes, headroom);
        var step := if verdict.Take? then M.AppendPart(id, chunk) else M.UnlinkPart(id);
        && M.Next(s, op) == s.(uploads := (if verdict.Take? then s.uploads[id := verdict.next] else s.uploads - {id}),
                               disk := M.Apply(s.disk, step))
        && M.FsOps(s, op) == [step]
  {
    OneStep(s.disk, M.UnlinkPart(id));
    OneStep(s.disk, M.AppendPart(id, chunk));
  }

  lemma NextFinish(s: M.Store, id: Id)
    requires M.Inv(s) && id in s.uploads && id in s.heap
    ensures id in s.disk.part <==> id in s.live
    ensures var op, art, d := M.EndOfStream(id), M.StoredAs(s.heap[id], |s.uploads[id].data|), M.Apply(s.disk, M.PartToBlob(id));
      if id in s.disk.part
      then M.Next(s, op) == s.(uploads := s.uploads - {id}, heap := s.heap[id := art], disk := M.ApplyAll(d, M.Persist(art)))
           && M.FsOps(s, op) == [M.PartToBlob(id)] + M.Persist(art)
      else M.Next(s, op) == s.(uploads := s.uploads - {id}, disk := M.Apply(d, M.UnlinkPart(id)))
           && M.FsOps(s, op) == [M.PartToBlob(id)] + [M.UnlinkPart(id)]
  {
    assert M.UploadOk(s, id, s.uploads[id]);
    ApplyTwo(s.disk, M.PartToBlob(id), M.UnlinkPart(id));
    AfterFirst(s.disk, M.PartToBlob(id), M.Persist(M.StoredAs(s.heap[id], |s.uploads[id].data|)));
  }

  lemma FinishAt(cfg: M.Config, start: real, trace: seq<M.Event>, s: M.Store, id: Id)
    requires C.Reached(cfg, start, trace, s) && id in s.uploads && id in s.heap
    ensures id in s.disk.part <==> id in s.live
    ensures var op, art, d := M.EndOfStream(id), M.StoredAs(s.heap[id], |s.uploads[id].data|), M.Apply(s.disk, M.PartToBlob(id));
      if id in s.disk.part
      then M.Next(s, op) == s.(uploads := s.uploads - {id}, heap := s.heap[id := art], disk := M.ApplyAll(d, M.Persist(art)))
           && M.FsOps(s, op) == [M.PartToBlob(id)] + M.Persist(art)
      else M.Next(s, op) == s.(uploads := s.uploads - {id}, disk := M.Apply(d, M.UnlinkPart(id)))
           && M.FsOps(s, op) == [M.PartToBlob(id)] + [M.UnlinkPart(id)]
    ensures Finished(M.Next(s, M.EndOfStream(id)), id, C.Collected([], trace, id), id in s.live)
  {
    C.ReachedInv(cfg, start, trace, s);
    NextFinish(s, id);
    C.UploadFinishes(cfg, start, trace, s, id);
  }

  /** The artifact is stored with these bytes, or nothing of it is left. */
  ghost predicate Finished(q: M.Store, id: Id, bytes: Bytes, stored: bool) {
    if stored then
      && id in q.heap && q.heap[id].phase == M.Stored && q.heap[id].sizeActual == Some(|bytes|)
      && |bytes| <= q.cfg.maxBytes && id in q.disk.blob && q.disk.blob[id] == bytes
    else id !in q.disk.meta && id !in q.disk.blob && id !in q.disk.part
  }

  lemma NextStoreBytes(s: M.Store, id: Id, data: Bytes, headroom: nat)
    requires id in s.heap && id !in s.uploads
    ensures var op, art := M.StoreBytes(id, data, headroom), M.StoredAs(s.heap[id], |data|);
      if M.StoresNow(s, id, data, headroom)
      then M.Next(s, op) == s.(heap := s.heap[id := art],
             disk := M.ApplyAll(M.Apply(M.Apply(s.disk, M.TruncateBlob(id)), M.WriteBlob(id, data)), M.Persist(art)))
           && M.FsOps(s, op) == [M.TruncateBlob(id)] + [M.WriteBlob(id, data)] + M.Persist(art)
      else M.Next(s, op) == s && M.FsOps(s, op) == []
  {
    var art := M.StoredAs(s.heap[id], |data|);
    var a, b := M.TruncateBlob(id), M.WriteBlob(id, data);
    AfterFirst(M.Apply(s.disk, a), b, M.Persist(art));
    AfterFirst(s.disk, a, [b] + M.Persist(art));
    assert [a, b] + M.Persist(art) == [a] + ([b] + M.Persist(art)) == [a] + [b] + M.Persist(art);
  }

  lemma StoreBytesAt(cfg: M.Config, start: real, trace: seq<M.Event>, s: M.Store, id: Id, data: Bytes, headroom: nat)
    requires C.Reached(cfg, start, trace, s) && id in s.heap && id !in s.uploads
    ensures var op, art := M.StoreBytes(id, data, headroom), M.StoredAs(s.heap[id], |data|);
      if M.StoresNow(s, id, data, headroom)
      then M.Next(s, op) == s.(heap := s.heap[id := art],
             disk := M.ApplyAll(M.Apply(M.Apply(s.disk, M.TruncateBlob(id)), M.WriteBlob(id, data)), M.Persist(art)))
           && M.FsOps(s, op) == [M.TruncateBlob(id)] + [M.WriteBlob(id, data)] + M.Persist(art)
      else M.Next(s, op) == s && M.FsOps(s, op) == []
    ensures id in s.live || !M.StoresNow(s, id, data, headroom) ==> M.Enabled(s, M.StoreBytes(id, data, headroom))
    ensures var q := M.Next(s, M.StoreBytes(id, data, headroom));
      id !in s.live && M.StoresNow(s, id, data, headroom) ==> C.Index(q) != M.Load(q.disk)
  {
    C.ReachedInv(cfg, start, trace, s);
    C.StoreBytesKeepsIff(s, id, data, headroom);
    NextStoreBytes(s, id, data, headroom);
  }

  lemma NextNaming(s: M.Store, id: Id)
    requires id in s.live ==> id in s.heap
    ensures var op := M.NameToken(id);
      if id in s.live then
        var art := s.heap[id].(tokenName := Some("lava-mcp-artifact-" + id));
        && M.Next(s, op) == s.(heap := s.heap[id := art], disk := M.ApplyAll(s.disk, M.Persist(art)))
        && M.FsOps(s, op) == M.Persist(art)
      else M.Next(s, op) == s && M.FsOps(s, op) == []
  {}

  lemma NextDelete(s: M.Store, id: Id, requester: Option<string>)
    requires id in s.live ==> id in s.heap
    ensures var op := M.Delete(id, requester);
      if M.Removes(s, id, requester)
      then M.Next(s, op) == M.Removed(s, id).(disk := M.ApplyAll(s.disk, M.RemoveFiles(id)))
           && M.FsOps(s, op) == M.RemoveFiles(id)
           && id !in M.Next(s, op).disk.meta && id !in M.Next(s, op).disk.blob && id !in M.Next(s, op).disk.part
      else M.Next(s, op) == s && M.FsOps(s, op) == []
  {
    RemoveSafe(s, s.disk, id);
  }

  lemma FoundIsThere(cfg: M.Config, start: real, trace: seq<M.Event>, s: M.Store, id: Id)
    requires C.Reached(cfg, start, trace, s) && id in s.live && id in s.heap && s.now < s.heap[id].expires
    ensures C.AlwaysThere(cfg, start, trace, id) && C.StoredComplete(s)
  {
    C.NeverGone(cfg, start, trace, s, id);
    C.ReachedInv(cfg, start, trace, s);
    C.Complete(s);
  }

  lemma TakeAt(cfg: M.Config, start: real, trace: seq<M.Event>, s: M.Store, owner: string)
    requires C.Reached(cfg, start, trace, s)
    ensures forall p :: p in M.Taken(s.pending, owner) ==> p.0 == owner && p !in s.handed
    ensures M.Next(s, M.TakePending(owner)) ==
            s.(pending := s.pending - M.Taken(s.pending, owner), handed := s.handed + multiset(M.Taken(s.pending, owner)))
  {
    forall p | p in M.Taken(s.pending, owner) ensures p !in s.handed {
      C.PendingIsNew(cfg, start, trace, s, p);
    }
  }

  /** The record of a new artifact, as the caller asked for it: nothing uploaded yet, no token named, and
      the time to live it asked for, or the default, between one second and the configured maximum. */
  ghost predicate AsAsked(art: M.Artifact, cfg: M.Config, now: real, id: Id, filename: string, size: int, owner: string,
                          hash: string, ttl: Option<real>, bindJob: Option<int>)
  {
    var wanted := if ttl.Some? then ttl.value else cfg.ttlDefault;
    && art.id == id && art.filename == filename && art.owner == owner && art.tokenHash == hash && art.declared == size
    && art.bindJob == bindJob && art.phase == M.AwaitUpload && art.sizeActual == None && art.tokenName == None
    && art.created == now
    && (1.0 <= wanted <= cfg.ttlMax ==> art.expires == now + wanted)
    && (1.0 <= cfg.ttlMax < wanted ==> art.expires == now + cfg.ttlMax)
    && (wanted < 1.0 || cfg.ttlMax < 1.0 ==> art.expires == now + 1.0)
  }

  lemma NewIsAsAsked(s: M.Store, op: M.Op)
    requires op.Create? && op.size >= 0
    ensures AsAsked(M.NewArtifact(s, op), s.cfg, s.now, op.id, op.filename, op.size, op.owner, op.hash, op.ttl, op.bindJob)
  {}

  /** Exactly the owner's pairs are taken, and exactly the others are left. */
  ghost predicate SplitByOwner(all: set<(string, string)>, taken: set<(string, string)>, left: set<(string, string)>, owner: string) {
    && (forall p :: p in taken <==> p in all && p.0 == owner)
    && (forall p :: p in left <==> p in all && p.0 != owner)
  }

  /** The route's answers: 200, 404, 401, 409, 413. */
  datatype PutReply = Begun | NotFound | Unauthorized | AlreadyUploaded | TooMuch(reason: M.Refusal)

  class ArtifactStore {
    const cfg: M.Config
    var now: real
    var artifacts: map<Id, ArtifactObject>       // _artifacts
    var pending: set<(string, string)>           // _pending_token_deletions
    var uploads: map<Id, M.Upload>               // the local state of each write_stream in flight
    var disk: M.Disk
    ghost var objects: map<Id, ArtifactObject>   // every Artifact this process has made
    ghost var issued: set<Id>
    ghost var handed: multiset<(string, string)>
    ghost var journal: seq<M.FsOp>               // every file-system step performed
    ghost const start: real                      // when the first process began, on an empty directory
    ghost var trace: seq<M.Event>                // every operation and crash since

    ghost function View(): M.Store
      reads this, objects.Values
    {
      M.Store(cfg, now, Records(objects), artifacts.Keys, pending, uploads, disk, issued, handed)
    }

    ghost predicate Shares()
      reads this, objects.Values
    {
      && (forall id :: id in artifacts ==> id in objects && artifacts[id] == objects[id])
      && (forall id :: id in objects ==> objects[id].id == id)
    }

    /** The objects are in a state the machine reaches from an empty directory, so the claims about
        runs hold of them. */
    ghost predicate Valid()
      reads this, objects.Values
    {
      Shares() && C.Reached(cfg, start, trace, View())
    }

    /** A new process on what an earlier one left on disk when it stopped after `steps` file-system steps
        of `op`, or on an empty directory: _load reads the metadata files one by one and ignores the
        unreadable ones.  Every stored artifact it finds is complete. */
    constructor Open(cfg: M.Config, now: real, disk: M.Disk,
                     ghost start: real, ghost earlier: seq<M.Event>, ghost before: M.Store, ghost op: M.Op, ghost steps: nat)
      requires C.Reached(cfg, start, earlier, before) && M.Enabled(before, op) && steps <= |M.FsOps(before, op)|
      requires disk == M.ApplyAll(before.disk, M.FsOps(before, op)[..steps]) && now == M.Memory(before, op).now
      ensures Valid() && trace == earlier + [M.Crash(op, steps)] && journal == []
      ensures View() == M.Crashed(before, op, steps)
      ensures C.StoredComplete(View())
    {
      this.cfg, this.now, this.disk, this.start := cfg, now, disk, start;
      artifacts, objects, pending, uploads := map[], map[], {}, map[];
      issued, handed, journal := M.Memory(before, op).issued, multiset{}, [];
      trace := earlier + [M.Crash(op, steps)];
      new;
      OpenAt(cfg, start, earlier, before, op, steps, disk);
      LoadAll();
    }

    /** _load */
    method LoadAll()
      requires artifacts == map[] && objects == map[] && Named(disk)
      modifies this`artifacts, this`objects
      ensures Shares() && artifacts == objects && Records(objects) == M.Load(disk)
      ensures artifacts.Keys == M.Load(disk).Keys
    {
      var todo := disk.meta.Keys;
      ghost var done: set<Id> := {};
      while todo != {}
        invariant todo <= disk.meta.Keys && done == disk.meta.Keys - todo
        invariant artifacts == objects && Shares()
        invariant Records(objects) == Readable(disk, done)
        decreases todo
      {
        var id :| id in todo;
        ReadableNext(disk, done, id);
        todo, done := todo - {id}, done + {id};
        if disk.meta[id].Json? {
          var art := new ArtifactObject(disk.meta[id].art);
          Index(art);
        }
      }
    }

    method Index(art: ArtifactObject)
      requires Shares() && artifacts == objects
      modifies this`artifacts, this`objects
      ensures Shares() && artifacts == objects == old(objects)[art.id := art]
      ensures Records(objects) == old(Records(objects))[art.id := art.Record()]
    {
      RecordsWith(objects, art);
      artifacts := artifacts[art.id := art];
      objects := objects[art.id := art];
    }

    method Tick(to: real)
      requires Valid() && to >= now
      modifies this`now, this`trace
      ensures View() == M.Next(old(View()), M.Tick(to))
      ensures Valid() && trace == old(trace) + [M.Do(M.Tick(to))]
    {
      Log(M.Tick(to));
      now := to;
    }

    ghost method Log(op: M.Op)
      requires C.Reached(cfg, start, trace, View()) && M.Enabled(View(), op)
      modifies this`trace
      ensures trace == old(trace) + [M.Do(op)] && C.Reached(cfg, start, trace, M.Next(View(), op))
    {
      RunAppend(M.Empty(cfg, start), trace, View(), M.Do(op));
      trace := trace + [M.Do(op)];
    }

    method Fs(op: M.FsOp)
      modifies this`disk, this`journal
      ensures disk == M.Apply(old(disk), op) && journal == old(journal) + [op]
    {
      disk := M.Apply(disk, op);
      journal := journal + [op];
    }

    /** _persist */
    method Persist(art: ArtifactObject)
      modifies this`disk, this`journal
      ensures disk == M.ApplyAll(old(disk), M.Persist(art.Record()))
      ensures journal == old(journal) + M.Persist(art.Record())
      ensures disk == old(disk).(meta := old(disk).meta[art.id := M.Json(art.Record())])
    {
      assert disk.meta[art.id := M.Torn][art.id := M.Json(art.Record())] == disk.meta[art.id := M.Json(art.Record())];
      ApplyTwo(disk, M.TruncateMeta(art.id), M.WriteMeta(art.Record()));
      Fs(M.TruncateMeta(art.id));
      Fs(M.WriteMeta(art.Record()));
    }

    /** _remove_files */
    method RemoveFiles(id: Id)
      modifies this`disk, this`journal
      ensures disk == M.ApplyAll(old(disk), M.RemoveFiles(id))
      ensures journal == old(journal) + M.RemoveFiles(id)
    {
      ApplyThree(disk, M.UnlinkMeta(id), M.UnlinkBlob(id), M.UnlinkPart(id));
      Fs(M.UnlinkMeta(id));
      Fs(M.UnlinkBlob(id));
      Fs(M.UnlinkPart(id));
    }

    /** Takes the artifact out of the index, removes its files and queues its token. */
    method Drop(art: ArtifactObject)
      requires Shares() && art.id in artifacts && artifacts[art.id] == art
      modifies this`artifacts, this`disk, this`journal, this`pending
      ensures View() == M.Removed(old(View()), art.id).(disk := M.ApplyAll(old(disk), M.RemoveFiles(art.id)))
      ensures Shares() && journal == old(journal) + M.RemoveFiles(art.id)
      ensures artifacts == old(artifacts) - {art.id}
    {
      assert View().heap[art.id] == art.Record();
      artifacts := artifacts - {art.id};
      RemoveFiles(art.id);
      if art.tokenName.Some? && art.tokenName.value != "" {
        pending := pending + {(art.owner, art.tokenName.value)};
      }
      assert pending == old(pending) + M.Owed(art.Record());
    }

    /** _reap_one */
    method ReapOne(art: ArtifactObject)
      requires Valid() && art.id in artifacts && artifacts[art.id] == art && now >= art.expires
      modifies this`trace, this`artifacts, this`disk, this`journal, this`pending
      ensures View() == M.Next(old(View()), M.Expire(art.id))
      ensures Valid() && trace == old(trace) + [M.Do(M.Expire(art.id))]
      ensures journal == old(journal) + M.FsOps(old(View()), M.Expire(art.id))
      ensures artifacts == old(artifacts) - {art.id}
      ensures art.id !in disk.meta && art.id !in disk.blob && art.id !in disk.part
    {
      RemoveSafe(View(), disk, art.id);
      Log(M.Expire(art.id));
      Drop(art);
    }

    /** Nothing of a removed artifact is left. */
    method Delete(id: Id, requester: Option<string>) returns (removed: Option<ArtifactObject>)
      requires Valid()
      modifies this`trace, this`artifacts, this`disk, this`journal, this`pending
      ensures View() == M.Next(old(View()), M.Delete(id, requester))
      ensures Valid() && trace == old(trace) + [M.Do(M.Delete(id, requester))]
      ensures journal == old(journal) + M.FsOps(old(View()), M.Delete(id, requester))
      ensures removed.Some? <==> id in old(artifacts) && (requester == None || requester == Some(old(artifacts)[id].owner))
      ensures removed.Some? ==> id in old(artifacts) && removed.value == old(artifacts)[id]
      ensures removed.Some? ==> id !in artifacts && id !in disk.meta && id !in disk.blob && id !in disk.part
    {
      Log(M.Delete(id, requester));
      NextDelete(View(), id, requester);
      removed := DropIfOwned(id, requester);
    }

    method DropIfOwned(id: Id, requester: Option<string>) returns (removed: Option<ArtifactObject>)
      requires Shares()
      modifies this`artifacts, this`disk, this`journal, this`pending
      ensures Shares()
      ensures removed.Some? <==> M.Removes(old(View()), id, requester)
      ensures removed.Some? <==> id in old(artifacts) && (requester == None || requester == Some(old(artifacts)[id].owner))
      ensures removed.Some? ==> id in old(artifacts) && removed.value == old(artifacts)[id] && id !in artifacts
      ensures removed.Some? ==> journal == old(journal) + M.RemoveFiles(id)
      ensures removed.Some? ==> View() == M.Removed(old(View()), id).(disk := M.ApplyAll(old(disk), M.RemoveFiles(id)))
      ensures removed.None? ==> View() == old(View()) && journal == old(journal)
    {
      if id !in artifacts {
        return None;
      }
      var art := artifacts[id];
      if requester.Some? && art.owner != requester.value {
        return None;
      }
      Drop(art);
      removed := Some(art);
    }

    /** reap: everything that is expired now is removed, one artifact after the other. */
    method Reap() returns (removed: set<ArtifactObject>)
      requires Valid()
      modifies this`trace, this`artifacts, this`disk, this`journal, this`pending
      ensures Valid() && old(trace) <= trace && Expiries(trace[|old(trace)|..])
      ensures artifacts == old(artifacts) - ExpiredNow(old(artifacts), now)
      ensures forall id :: id in artifacts <==> id in old(artifacts) && now < old(artifacts)[id].expires
      ensures removed == set id | id in old(artifacts) && now >= old(artifacts)[id].expires :: old(artifacts)[id]
    {
      var expired := ExpiredNow(artifacts, now);
      removed := set id | id in expired :: artifacts[id];
      ghost var all, n := artifacts, |trace|;
      var todo := expired;
      while todo != {}
        invariant Valid() && n <= |trace| && old(trace) == trace[..n] && Expiries(trace[n..])
        invariant todo <= expired && artifacts == all - (expired - todo)
        decreases todo
      {
        var id :| id in todo;
        ghost var before := trace;
        ReapOne(artifacts[id]);
        MoreExpiries(before, n, id);
        DropOne(all, expired, todo, id);
        todo := todo - {id};
      }
    }

    /** list_for: what is expired is removed first; of the rest exactly the owner's artifacts are listed. */
    method ListFor(owner: string) returns (listed: set<ArtifactObject>)
      requires Valid()
      modifies this`trace, this`artifacts, this`disk, this`journal, this`pending
      ensures Valid() && old(trace) <= trace && Expiries(trace[|old(trace)|..])
      ensures listed == set id | id in old(artifacts) && now < old(artifacts)[id].expires
                                 && old(artifacts)[id].owner == owner :: old(artifacts)[id]
    {
      var _ := Reap();
      listed := set id | id in artifacts && artifacts[id].owner == owner :: artifacts[id];
    }

    /** What is returned has not expired, has been there ever since it was created, and has a complete
        blob if it is stored. */
    method Get(id: Id) returns (art: Option<ArtifactObject>)
      requires Valid()
      modifies this`trace, this`artifacts, this`disk, this`journal, this`pending
      ensures Valid()
      ensures art.Some? <==> id in old(artifacts) && now < old(artifacts)[id].expires
      ensures art.Some? ==> art.value == old(artifacts)[id] && View() == old(View()) && trace == old(trace)
      ensures art.Some? ==> C.AlwaysThere(cfg, start, trace, id) && C.StoredComplete(View())
      ensures art.None? && id in old(artifacts) ==>
                View() == M.Next(old(View()), M.Expire(id)) && trace == old(trace) + [M.Do(M.Expire(id))]
      ensures id !in old(artifacts) ==> View() == old(View()) && trace == old(trace)
    {
      if id !in artifacts {
        return None;
      }
      var found := artifacts[id];
      if now >= found.expires {
        ReapOne(found);
        return None;
      }
      FoundIsThere(cfg, start, trace, View(), id);
      art := Some(found);
    }

    /** create, after its reap; the id and the token's hash have been drawn.  The artifact is as asked for,
        and it is refused exactly if its size is negative, above the cap or above what may be stored. */
    method Create(id: Id, filename: string, size: int, owner: string, hash: string, ttl: Option<real>,
                  bindJob: Option<int>, headroom: nat) returns (created: Option<ArtifactObject>, refusal: Option<M.Refusal>)
      requires Valid() && id !in issued
      modifies this`trace, this`artifacts, this`disk, this`journal, this`objects, this`issued
      ensures View() == M.Next(old(View()), M.Create(id, filename, size, owner, hash, ttl, bindJob, headroom))
      ensures Valid() && trace == old(trace) + [M.Do(M.Create(id, filename, size, owner, hash, ttl, bindJob, headroom))]
      ensures journal == old(journal) + M.FsOps(old(View()), M.Create(id, filename, size, owner, hash, ttl, bindJob, headroom))
      ensures created.Some? <==> 0 <= size <= cfg.maxBytes && size <= headroom
      ensures refusal == (if size < 0 then Some(M.NegativeSize) else if size > cfg.maxBytes then Some(M.ExceedsCap)
                          else if size > headroom then Some(M.InsufficientDisk) else None)
      ensures created.Some? ==> id in artifacts && artifacts[id] == created.value && fresh(created.value)
      ensures created.Some? ==>
                AsAsked(created.value.Record(), cfg, now, id, filename, size, owner, hash, ttl, bindJob)
    {
      ghost var op := M.Create(id, filename, size, owner, hash, ttl, bindJob, headroom);
      NewId(cfg, start, trace, View(), id);
      Log(op);
      NextCreate(View(), op);
      refusal := M.CheckAdmission(size, cfg.maxBytes, headroom);
      if refusal.Some? {
        return None, refusal;
      }
      var art := Reserve(id, filename, size, owner, hash, ttl, bindJob, op);
      created := Some(art);
    }

    method Reserve(id: Id, filename: string, size: nat, owner: string, hash: string, ttl: Option<real>,
                   bindJob: Option<int>, ghost op: M.Op) returns (art: ArtifactObject)
      requires Shares() && id !in objects
      requires op.Create? && op == M.Create(id, filename, size, owner, hash, ttl, bindJob, op.headroom)
      modifies this`artifacts, this`disk, this`journal, this`objects, this`issued
      ensures Shares() && id in artifacts && artifacts[id] == art && fresh(art)
      ensures AsAsked(art.Record(), cfg, now, id, filename, size, owner, hash, ttl, bindJob)
      ensures View() == old(View()).(
        heap := old(View()).heap[id := M.NewArtifact(old(View()), op)], live := old(View()).live + {id},
        issued := old(issued) + {id}, disk := M.ApplyAll(old(disk), M.Persist(M.NewArtifact(old(View()), op))))
      ensures journal == old(journal) + M.Persist(M.NewArtifact(old(View()), op))
    {
      NewIsAsAsked(View(), op);
      art := NewObject(id, filename, size, owner, hash, ttl, bindJob, op);
      Adopt(art);
    }

    method NewObject(id: Id, filename: string, size: nat, owner: string, hash: string, ttl: Option<real>,
                     bindJob: Option<int>, ghost op: M.Op) returns (art: ArtifactObject)
      requires op.Create? && op == M.Create(id, filename, size, owner, hash, ttl, bindJob, op.headroom)
      ensures fresh(art) && art.id == id && art.Record() == M.NewArtifact(View(), op)
    {
      var lifetime := Lifetime(ttl);
      art := new ArtifactObject(
        M.Artifact(id, filename, owner, hash, size, now, now + lifetime, bindJob, M.AwaitUpload, None, None));
    }

    /** The clamped time to live. */
    method Lifetime(ttl: Option<real>) returns (wanted: real)
      ensures wanted == M.TtlOf(cfg, ttl)
      ensures 1.0 <= wanted && (wanted <= 1.0 || wanted <= cfg.ttlMax)
    {
      wanted := if ttl.None? then cfg.ttlDefault else ttl.value;
      if wanted > cfg.ttlMax {
        wanted := cfg.ttlMax;
      }
      if wanted < 1.0 {
        wanted := 1.0;
      }
    }

    /** The locked part of create. */
    method Adopt(art: ArtifactObject)
      requires Shares() && art.id !in objects
      modifies this`artifacts, this`disk, this`journal, this`objects, this`issued
      ensures Shares() && art.id in artifacts && artifacts[art.id] == art
      ensures View() == old(View()).(
        heap := old(View()).heap[art.id := art.Record()], live := old(View()).live + {art.id},
        issued := old(issued) + {art.id}, disk := M.ApplyAll(old(disk), M.Persist(art.Record())))
      ensures journal == old(journal) + M.Persist(art.Record())
    {
      Enter(art);
      Persist(art);
    }

    method Enter(art: ArtifactObject)
      requires Shares() && art.id !in objects
      modifies this`artifacts, this`objects, this`issued
      ensures artifacts == old(artifacts)[art.id := art] && objects == old(objects)[art.id := art]
      ensures View() == old(View()).(
        heap := old(View()).heap[art.id := art.Record()], live := old(View()).live + {art.id}, issued := old(issued) + {art.id})
    {
      ghost var was := View();
      artifacts := artifacts[art.id := art];
      objects := objects[art.id := art];
      issued := issued + {art.id};
      RecordsWith(old(objects), art);
      assert Records(objects) == was.heap[art.id := art.Record()];
      assert artifacts.Keys == was.live + {art.id};
    }

    /** The lock-protected end of write_stream and store_bytes. */
    method MarkStored(art: ArtifactObject, size: nat)
      requires Shares() && art.id in objects && objects[art.id] == art
      modifies art, this`disk, this`journal
      ensures Shares()
      ensures View() == old(View()).(
        heap := old(View()).heap[art.id := M.StoredAs(old(art.Record()), size)],
        disk := M.ApplyAll(old(disk), M.Persist(M.StoredAs(old(art.Record()), size))))
      ensures journal == old(journal) + M.Persist(M.StoredAs(old(art.Record()), size))
      ensures art.phase == M.Stored && art.sizeActual == Some(size) && disk.blob == old(disk).blob
    {
      art.phase := M.Stored;
      art.sizeActual := Some(size);
      Persist(art);
      assert art.Record() == M.StoredAs(old(art.Record()), size);
      assert Records(objects) == old(View()).heap[art.id := art.Record()];
    }

    method SetLavaTokenName(id: Id)
      requires Valid()
      modifies this`trace, this`disk, this`journal, objects.Values
      ensures View() == M.Next(old(View()), M.NameToken(id))
      ensures Valid() && trace == old(trace) + [M.Do(M.NameToken(id))]
      ensures journal == old(journal) + M.FsOps(old(View()), M.NameToken(id))
      ensures artifacts == old(artifacts)
      ensures id in artifacts ==> artifacts[id].tokenName == Some("lava-mcp-artifact-" + id)
    {
      Log(M.NameToken(id));
      NextNaming(View(), id);
      NameIfThere(id);
    }

    method NameIfThere(id: Id)
      requires Shares()
      modifies this`disk, this`journal, objects.Values
      ensures Shares() && artifacts == old(artifacts)
      ensures id !in artifacts ==> View() == old(View()) && journal == old(journal)
      ensures id in artifacts ==>
        var art := old(View()).heap[id].(tokenName := Some("lava-mcp-artifact-" + id));
        && View() == old(View()).(heap := old(View()).heap[id := art], disk := M.ApplyAll(old(disk), M.Persist(art)))
        && journal == old(journal) + M.Persist(art)
        && artifacts[id].tokenName == Some("lava-mcp-artifact-" + id)
    {
      if id in artifacts {
        assert View().heap[id] == artifacts[id].Record();
        NameIt(artifacts[id], M.TokenName(id));
      }
    }

    method NameIt(art: ArtifactObject, name: string)
      requires Shares() && art.id in objects && objects[art.id] == art
      modifies art, this`disk, this`journal
      ensures Shares()
      ensures View() == old(View()).(
        heap := old(View()).heap[art.id := old(art.Record()).(tokenName := Some(name))],
        disk := M.ApplyAll(old(disk), M.Persist(old(art.Record()).(tokenName := Some(name)))))
      ensures journal == old(journal) + M.Persist(old(art.Record()).(tokenName := Some(name)))
      ensures art.tokenName == Some(name)
    {
      art.tokenName := Some(name);
      Persist(art);
      assert art.Record() == old(art.Record()).(tokenName := Some(name));
      assert Records(objects) == old(View()).heap[art.id := art.Record()];
    }

    // write_stream, between its awaits

    /** The PUT route up to the first chunk: the artifact is looked up, the token compared, and the upload
        begun. */
    method HandlePut(id: Id, presented: Option<string>, contentLength: Option<int>, headroom: nat) returns (reply: PutReply)
      requires Valid() && id !in uploads
      modifies this`trace, this`artifacts, this`disk, this`journal, this`pending, this`uploads
      ensures Valid()
      ensures reply == NotFound <==> id !in old(artifacts) || now >= old(artifacts)[id].expires
      ensures reply != NotFound ==> (reply == Unauthorized <==> presented != Some(old(artifacts)[id].tokenHash))
      ensures reply != NotFound && reply != Unauthorized ==>
                (reply == AlreadyUploaded <==> old(artifacts)[id].phase == M.Stored)
      ensures reply == Begun <==> (
                && id in old(artifacts) && now < old(artifacts)[id].expires
                && presented == Some(old(artifacts)[id].tokenHash)
                && old(artifacts)[id].phase == M.AwaitUpload
                && (contentLength.Some? ==> 0 <= contentLength.value <= cfg.maxBytes && contentLength.value <= headroom))
      ensures reply.TooMuch? ==> contentLength.Some?
      ensures reply == TooMuch(M.NegativeSize) ==> contentLength.value < 0
      ensures reply == TooMuch(M.ExceedsCap) ==> contentLength.value > cfg.maxBytes
      ensures reply == TooMuch(M.InsufficientDisk) ==> headroom < contentLength.value <= cfg.maxBytes
      ensures reply == Begun ==> id in uploads && uploads[id] == M.Upload([], 0) && id in disk.part && disk.part[id] == []
      ensures reply == Begun ==> View() == M.Next(old(View()), M.Put(id, contentLength, headroom))
      ensures reply == Begun ==> trace == old(trace) + [M.Do(M.Put(id, contentLength, headroom))]
      ensures reply != Begun ==> uploads == old(uploads)
    {
      var art := Get(id);
      if art == None {
        return NotFound;
      }
      if presented == None || art.value.tokenHash != presented.value {
        return Unauthorized;
      }
      if art.value.phase != M.AwaitUpload {
        return AlreadyUploaded;
      }
      var begun := BeginUpload(id, contentLength, headroom);
      if begun {
        return Begun;
      }
      reply := TooMuch(M.CheckAdmission(contentLength.value, cfg.maxBytes, headroom).value);
    }

    /** write_stream up to the first chunk, with the route's check that the artifact is there. */
    method BeginUpload(id: Id, contentLength: Option<int>, headroom: nat) returns (admitted: bool)
      requires Valid() && id !in uploads
      modifies this`trace, this`disk, this`journal, this`uploads
      ensures View() == M.Next(old(View()), M.Put(id, contentLength, headroom))
      ensures Valid() && trace == old(trace) + [M.Do(M.Put(id, contentLength, headroom))]
      ensures journal == old(journal) + M.FsOps(old(View()), M.Put(id, contentLength, headroom))
      ensures admitted <==> (
                && id in artifacts && now < artifacts[id].expires && artifacts[id].phase == M.AwaitUpload
                && (contentLength.Some? ==> 0 <= contentLength.value <= cfg.maxBytes && contentLength.value <= headroom))
      ensures uploads == if admitted then old(uploads)[id := M.Upload([], 0)] else old(uploads)
      ensures admitted ==> id in disk.part && disk.part[id] == []
    {
      Log(M.Put(id, contentLength, headroom));
      NextPut(View(), id, contentLength, headroom);
      admitted := MayUpload(id, contentLength, headroom);
      if admitted {
        OpenPart(id);
      }
    }

    method OpenPart(id: Id)
      modifies this`disk, this`journal, this`uploads
      ensures View() == old(View()).(disk := M.Apply(old(disk), M.CreatePart(id)), uploads := old(uploads)[id := M.Upload([], 0)])
      ensures journal == old(journal) + [M.CreatePart(id)]
      ensures uploads == old(uploads)[id := M.Upload([], 0)] && id in disk.part && disk.part[id] == []
    {
      Fs(M.CreatePart(id));
      uploads := uploads[id := M.Upload([], 0)];
    }

    method MayUpload(id: Id, contentLength: Option<int>, headroom: nat) returns (admitted: bool)
      requires Shares()
      ensures admitted <==> M.Admitted(View(), id, contentLength, headroom)
      ensures admitted <==> (
                && id in artifacts && now < artifacts[id].expires && artifacts[id].phase == M.AwaitUpload
                && (contentLength.Some? ==> 0 <= contentLength.value <= cfg.maxBytes && contentLength.value <= headroom))
    {
      if id !in artifacts || now >= artifacts[id].expires || artifacts[id].phase != M.AwaitUpload {
        return false;
      }
      if contentLength.Some? && M.CheckAdmission(contentLength.value, cfg.maxBytes, headroom).Some? {
        return false;
      }
      admitted := true;
    }

    /** Within the cap, and not a chunk that needs a check (64 MiB after the last one) with no space left. */
    predicate Fits(u: M.Upload, chunk: Bytes, headroom: nat) {
      && |u.data| + |chunk| <= cfg.maxBytes
      && (|u.data| + |chunk| - u.checkpoint < 67108864 || headroom > 0)
    }

    /** One chunk of the stream: appended, ignored when empty, or rejected with the part file removed. */
    method ReceiveChunk(id: Id, chunk: Bytes, headroom: nat) returns (accepted: bool)
      requires Valid() && id in uploads && id in objects
      modifies this`trace, this`disk, this`journal, this`uploads
      ensures View() == M.Next(old(View()), M.Chunk(id, chunk, headroom))
      ensures Valid() && trace == old(trace) + [M.Do(M.Chunk(id, chunk, headroom))]
      ensures journal == old(journal) + M.FsOps(old(View()), M.Chunk(id, chunk, headroom))
      ensures accepted <==> chunk == [] || Fits(old(uploads)[id], chunk, headroom)
      ensures accepted ==> id in uploads && uploads[id].data == old(uploads)[id].data + chunk
      ensures !accepted ==> id !in uploads && id !in disk.part
    {
      Log(M.Chunk(id, chunk, headroom));
      NextChunk(View(), id, chunk, headroom);
      if chunk == [] {
        return true;
      }
      accepted := WriteChunk(id, chunk, headroom);
    }

    /** The body of the loop over the chunks. */
    method WriteChunk(id: Id, chunk: Bytes, headroom: nat) returns (accepted: bool)
      requires id in uploads && chunk != []
      modifies this`disk, this`journal, this`uploads
      ensures var verdict := M.Consider(old(uploads)[id], chunk, cfg.maxBytes, headroom);
        && accepted == verdict.Take?
        && uploads == (if verdict.Take? then old(uploads)[id := verdict.next] else old(uploads) - {id})
        && disk == M.Apply(old(disk), if verdict.Take? then M.AppendPart(id, chunk) else M.UnlinkPart(id))
        && journal == old(journal) + [if verdict.Take? then M.AppendPart(id, chunk) else M.UnlinkPart(id)]
      ensures accepted <==> Fits(old(uploads)[id], chunk, headroom)
      ensures accepted ==> id in uploads && uploads[id].data == old(uploads)[id].data + chunk
      ensures !accepted ==> id !in uploads && id !in disk.part
    {
      var written := |uploads[id].data| + |chunk|;
      var checkpoint := uploads[id].checkpoint;
      if written > cfg.maxBytes {
        Abandon(id);
        return false;
      }
      if written - checkpoint >= M.RECHECK {
        checkpoint := written;
        if headroom <= 0 {
          Abandon(id);
          return false;
        }
      }
      Fs(M.AppendPart(id, chunk));
      uploads := uploads[id := M.Upload(uploads[id].data + chunk, checkpoint)];
      accepted := true;
    }

    /** The exception handlers: the partial file goes, the call is over. */
    method Abandon(id: Id)
      modifies this`disk, this`journal, this`uploads
      ensures disk == M.Apply(old(disk), M.UnlinkPart(id)) && journal == old(journal) + [M.UnlinkPart(id)]
      ensures uploads == old(uploads) - {id}
      ensures View() == old(View()).(disk := disk, uploads := uploads)
    {
      Fs(M.UnlinkPart(id));
      uploads := uploads - {id};
    }

    method ClientGone(id: Id)
      requires Valid() && id in uploads && id in objects
      modifies this`trace, this`disk, this`journal, this`uploads
      ensures View() == M.Next(old(View()), M.Disconnect(id))
      ensures Valid() && trace == old(trace) + [M.Do(M.Disconnect(id))]
      ensures journal == old(journal) + M.FsOps(old(View()), M.Disconnect(id))
    {
      Log(M.Disconnect(id));
      NextDisconnect(View(), id);
      Abandon(id);
    }

    /** The end of the stream: rename, then record; a missing part file is an error.  The call has
        held `art` since it began, whether or not the index still does.  The artifact is then stored
        with exactly the bytes received since its PUT began, or, if it has been removed, nothing of it
        is left. */
    method FinishUpload(art: ArtifactObject) returns (stored: bool)
      requires Valid() && art.id in uploads && art.id in objects && objects[art.id] == art
      modifies this`trace, this`disk, this`journal, this`uploads, art
      ensures View() == M.Next(old(View()), M.EndOfStream(art.id))
      ensures Valid() && trace == old(trace) + [M.Do(M.EndOfStream(art.id))]
      ensures journal == old(journal) + M.FsOps(old(View()), M.EndOfStream(art.id))
      ensures stored <==> art.id in old(artifacts)
      ensures Finished(View(), art.id, C.Collected([], old(trace), art.id), stored)
    {
      Log(M.EndOfStream(art.id));
      FinishAt(cfg, start, old(trace), View(), art.id);
      stored := RenameAndRecord(art, |uploads[art.id].data|);
    }

    method RenameAndRecord(art: ArtifactObject, written: nat) returns (renamed: bool)
      requires Shares() && art.id in objects && objects[art.id] == art
      modifies this`disk, this`journal, this`uploads, art
      ensures Shares() && renamed == (art.id in old(disk).part)
      ensures renamed ==>
        && View() == old(View()).(
             uploads := old(uploads) - {art.id},
             heap := old(View()).heap[art.id := M.StoredAs(old(art.Record()), written)],
             disk := M.ApplyAll(M.Apply(old(disk), M.PartToBlob(art.id)), M.Persist(M.StoredAs(old(art.Record()), written))))
        && journal == old(journal) + [M.PartToBlob(art.id)] + M.Persist(M.StoredAs(old(art.Record()), written))
      ensures !renamed ==>
        && View() == old(View()).(
             uploads := old(uploads) - {art.id},
             disk := M.Apply(M.Apply(old(disk), M.PartToBlob(art.id)), M.UnlinkPart(art.id)))
        && journal == old(journal) + [M.PartToBlob(art.id)] + [M.UnlinkPart(art.id)]
    {
      renamed := art.id in disk.part;
      Fs(M.PartToBlob(art.id));
      if !renamed {
        Abandon(art.id);
        return;
      }
      uploads := uploads - {art.id};
      assert View() == old(View()).(uploads := uploads, disk := disk);
      MarkStored(art, written);
    }

    /** store_bytes on an artifact object, which need not be in the index any more.  The state is still
        one that a run reaches if nothing was written to an artifact that has been removed; otherwise
        the index no longer is what _load would rebuild. */
    method StoreBytes(art: ArtifactObject, data: Bytes, headroom: nat) returns (stored: bool)
      requires Valid() && art.id in objects && objects[art.id] == art && art.id !in uploads
      modifies this`trace, this`disk, this`journal, art
      ensures Shares() && View() == M.Next(old(View()), M.StoreBytes(art.id, data, headroom))
      ensures journal == old(journal) + M.FsOps(old(View()), M.StoreBytes(art.id, data, headroom))
      ensures stored <==> old(art.phase) == M.AwaitUpload && |data| <= cfg.maxBytes && |data| <= headroom
      ensures stored ==> art.phase == M.Stored && art.sizeActual == Some(|data|) && art.id in disk.blob && disk.blob[art.id] == data
      ensures art.id in artifacts || !stored ==>
                Valid() && trace == old(trace) + [M.Do(M.StoreBytes(art.id, data, headroom))]
      ensures art.id !in artifacts && stored ==> C.Index(View()) != M.Load(disk)
    {
      ghost var was := View();
      StoreBytesAt(cfg, start, trace, was, art.id, data, headroom);
      if art.id in artifacts || !M.StoresNow(was, art.id, data, headroom) {
        Log(M.StoreBytes(art.id, data, headroom));
      }
      stored := StoreIfAwaited(art, data, headroom);
    }

    method StoreIfAwaited(art: ArtifactObject, data: Bytes, headroom: nat) returns (stored: bool)
      requires Shares() && art.id in objects && objects[art.id] == art
      modifies this`disk, this`journal, art
      ensures Shares() && stored == M.StoresNow(old(View()), art.id, data, headroom)
      ensures stored <==> old(art.phase) == M.AwaitUpload && |data| <= cfg.maxBytes && |data| <= headroom
      ensures stored ==> art.phase == M.Stored && art.sizeActual == Some(|data|) && art.id in disk.blob && disk.blob[art.id] == data
      ensures !stored ==> View() == old(View()) && journal == old(journal)
      ensures stored ==>
        && View() == old(View()).(
             heap := old(View()).heap[art.id := M.StoredAs(old(art.Record()), |data|)],
             disk := M.ApplyAll(M.Apply(M.Apply(old(disk), M.TruncateBlob(art.id)), M.WriteBlob(art.id, data)),
                                M.Persist(M.StoredAs(old(art.Record()), |data|))))
        && journal == old(journal) + ([M.TruncateBlob(art.id)] + [M.WriteBlob(art.id, data)]
                                      + M.Persist(M.StoredAs(old(art.Record()), |data|)))
    {
      if art.phase != M.AwaitUpload {
        return false;
      }
      if M.CheckAdmission(|data|, cfg.maxBytes, headroom).Some? {
        return false;
      }
      WriteAndRecord(art, data);
      stored := true;
    }

    method WriteAndRecord(art: ArtifactObject, data: Bytes)
      requires Shares() && art.id in objects && objects[art.id] == art
      modifies this`disk, this`journal, art
      ensures Shares()
      ensures View() == old(View()).(
        heap := old(View()).heap[art.id := M.StoredAs(old(art.Record()), |data|)],
        disk := M.ApplyAll(M.Apply(M.Apply(old(disk), M.TruncateBlob(art.id)), M.WriteBlob(art.id, data)),
                           M.Persist(M.StoredAs(old(art.Record()), |data|))))
      ensures journal == old(journal) + ([M.TruncateBlob(art.id)] + [M.WriteBlob(art.id, data)]
                                         + M.Persist(M.StoredAs(old(art.Record()), |data|)))
      ensures art.phase == M.Stored && art.sizeActual == Some(|data|) && art.id in disk.blob && disk.blob[art.id] == data
    {
      WriteBlobFile(art.id, data);
      assert View() == old(View()).(disk := disk);
      MarkStored(art, |data|);
    }

    /** write_bytes */
    method WriteBlobFile(id: Id, data: Bytes)
      modifies this`disk, this`journal
      ensures disk == M.Apply(M.Apply(old(disk), M.TruncateBlob(id)), M.WriteBlob(id, data))
      ensures journal == old(journal) + [M.TruncateBlob(id)] + [M.WriteBlob(id, data)]
      ensures id in disk.blob && disk.blob[id] == data
    {
      Fs(M.TruncateBlob(id));
      Fs(M.WriteBlob(id, data));
    }

    /** No name is ever handed over twice. */
    method TakePendingTokenDeletions(owner: string) returns (taken: set<(string, string)>)
      requires Valid()
      modifies this`trace, this`pending, this`handed
      ensures View() == M.Next(old(View()), M.TakePending(owner))
      ensures Valid() && trace == old(trace) + [M.Do(M.TakePending(owner))]
      ensures SplitByOwner(old(pending), taken, pending, owner)
      ensures handed == old(handed) + multiset(taken) && forall p :: p in taken ==> p !in old(handed)
    {
      TakeAt(cfg, start, trace, View(), owner);
      Log(M.TakePending(owner));
      taken := PopOwned(owner);
    }

    method PopOwned(owner: string) returns (taken: set<(string, string)>)
      modifies this`pending, this`handed
      ensures taken == M.Taken(old(pending), owner)
      ensures pending == old(pending) - taken && handed == old(handed) + multiset(taken)
      ensures SplitByOwner(old(pending), taken, pending, owner)
    {
      taken := set p | p in pending && p.0 == owner;
      pending := pending - taken;
      handed := handed + multiset(taken);
    }
  }
}
