/** What every run of the artifact store keeps, crashes and restarts included. */
module ArtifactRuns {
  import opened Text
  import opened ArtifactModel

  // ---- file-system steps, one at a time ------------------------------------------------------

  /** No readable metadata promises a blob for `id`. */
  predicate Unpromised(d: Disk, id: Id) {
    id in d.meta && d.meta[id].Json? ==> d.meta[id].art.phase != Stored
  }

  /** A step after which a crash is harmless. */
  predicate Safe(s: Store, d: Disk, op: FsOp) {
    match op
    case TruncateMeta(id) => id in s.issued
    case WriteMeta(art) => art.id in s.issued && MetaOk(s.cfg, s.now, d.blob, art.id, Json(art))
    case UnlinkMeta(_) => true
    case UnlinkBlob(id) => Unpromised(d, id)
    case UnlinkPart(_) => true
    case CreatePart(id) => id in s.issued
    case AppendPart(_, _) => true
    case PartToBlob(id) => Unpromised(d, id)
    case TruncateBlob(id) => Unpromised(d, id) && id in s.issued
    case WriteBlob(id, _) => Unpromised(d, id) && id in s.issued
  }

  predicate AllSafe(s: Store, d: Disk, ops: seq<FsOp>)
    decreases |ops|
  {
    ops == [] || (Safe(s, d, ops[0]) && AllSafe(s, Apply(d, ops[0]), ops[1..]))
  }

  lemma SafeStep(s: Store, d: Disk, op: FsOp)
    requires DiskOk(s, d) && Safe(s, d, op)
    ensures DiskOk(s, Apply(d, op))
  {
    var e := Apply(d, op);
    forall id | id in e.meta ensures MetaOk(s.cfg, s.now, e.blob, id, e.meta[id]) {
      assert id in d.meta && d.meta[id] == e.meta[id] ==> MetaOk(s.cfg, s.now, d.blob, id, d.meta[id]);
    }
  }

  /** However many of the steps are done, the disk is one that a new process can trust. */
  lemma {:induction false} SafePrefix(s: Store, d: Disk, ops: seq<FsOp>, k: nat)
    requires DiskOk(s, d) && AllSafe(s, d, ops) && k <= |ops|
    ensures DiskOk(s, ApplyAll(d, ops[..k]))
    decreases k
  {
    if k > 0 {
      SafeStep(s, d, ops[0]);
      SafePrefix(s, Apply(d, ops[0]), ops[1..], k - 1);
      assert ops[..k][1..] == ops[1..][..k-1];
    }
  }

  lemma Safe1(s: Store, d: Disk, a: FsOp)
    requires Safe(s, d, a)
    ensures AllSafe(s, d, [a]) && ApplyAll(d, [a]) == Apply(d, a)
  {
    assert [a][1..] == [];
  }

  lemma SafeCons(s: Store, d: Disk, a: FsOp, rest: seq<FsOp>)
    requires Safe(s, d, a) && AllSafe(s, Apply(d, a), rest)
    ensures AllSafe(s, d, [a] + rest) && ApplyAll(d, [a] + rest) == ApplyAll(Apply(d, a), rest)
  {
    assert ([a] + rest)[1..] == rest;
  }

  lemma PersistSafe(s: Store, d: Disk, art: Artifact)
    requires art.id in s.issued && MetaOk(s.cfg, s.now, d.blob, art.id, Json(art))
    ensures AllSafe(s, d, Persist(art))
    ensures ApplyAll(d, Persist(art)) == d.(meta := d.meta[art.id := Json(art)])
  {
    var a, b := TruncateMeta(art.id), WriteMeta(art);
    Safe1(s, Apply(d, a), b);
    SafeCons(s, d, a, [b]);
    assert Persist(art) == [a] + [b];
    assert d.meta[art.id := Torn][art.id := Json(art)] == d.meta[art.id := Json(art)];
  }

  lemma RemoveSafe(s: Store, d: Disk, id: Id)
    ensures AllSafe(s, d, RemoveFiles(id))
    ensures ApplyAll(d, RemoveFiles(id)) == Disk(d.meta - {id}, d.blob - {id}, d.part - {id})
  {
    var a, b, c := UnlinkMeta(id), UnlinkBlob(id), UnlinkPart(id);
    Safe1(s, Apply(Apply(d, a), b), c);
    SafeCons(s, Apply(d, a), b, [c]);
    SafeCons(s, d, a, [b] + [c]);
    assert RemoveFiles(id) == [a] + ([b] + [c]);
  }

  // ---- every operation performs its steps in a safe order --------------------------------------

  lemma LiveMeta(s: Store, id: Id)
    requires Inv(s) && id in s.live
    ensures id in s.heap && s.heap[id].id == id && id in s.issued
    ensures MetaOk(s.cfg, s.now, s.disk.blob, id, Json(s.heap[id]))
    ensures id in s.disk.meta && s.disk.meta[id] == Json(s.heap[id])
  {}

  lemma CreateSafe(s: Store, op: Op)
    requires Inv(s) && Enabled(s, op) && op.Create?
    ensures AllSafe(Memory(s, op), s.disk, FsOps(s, op))
  {
    if CheckAdmission(op.size, s.cfg.maxBytes, op.headroom).None? {
      PersistSafe(Memory(s, op), s.disk, NewArtifact(s, op));
    }
  }

  /** Renaming the upload's file and then recording it as stored. */
  lemma FinishSafe(s: Store, id: Id)
    requires Inv(s) && Enabled(s, EndOfStream(id))
    ensures AllSafe(Memory(s, EndOfStream(id)), s.disk, FsOps(s, EndOfStream(id)))
    ensures id in s.disk.part ==>
      var art := StoredAs(s.heap[id], |s.uploads[id].data|);
      ApplyAll(s.disk, FsOps(s, EndOfStream(id))) ==
        Disk(s.disk.meta[id := Json(art)], s.disk.blob[id := s.uploads[id].data], s.disk.part - {id})
    ensures id !in s.disk.part ==> ApplyAll(s.disk, FsOps(s, EndOfStream(id))) == s.disk.(part := s.disk.part - {id})
  {
    var m := Memory(s, EndOfStream(id));
    var d := Apply(s.disk, PartToBlob(id));
    assert UploadOk(s, id, s.uploads[id]);
    if id in s.disk.part {
      LiveMeta(s, id);
      var art := StoredAs(s.heap[id], |s.uploads[id].data|);
      PersistSafe(m, d, art);
      SafeCons(m, s.disk, PartToBlob(id), Persist(art));
    } else {
      Safe1(m, d, UnlinkPart(id));
      SafeCons(m, s.disk, PartToBlob(id), [UnlinkPart(id)]);
      assert [PartToBlob(id), UnlinkPart(id)] == [PartToBlob(id)] + [UnlinkPart(id)];
    }
  }

  lemma WriteThenRecord(m: Store, d: Disk, data: Bytes, art: Artifact)
    requires Unpromised(d, art.id) && art.id in m.issued
    requires MetaOk(m.cfg, m.now, d.blob[art.id := data], art.id, Json(art))
    ensures AllSafe(m, d, [TruncateBlob(art.id), WriteBlob(art.id, data)] + Persist(art))
    ensures ApplyAll(d, [TruncateBlob(art.id), WriteBlob(art.id, data)] + Persist(art)) ==
            d.(meta := d.meta[art.id := Json(art)], blob := d.blob[art.id := data])
  {
    var a, b := TruncateBlob(art.id), WriteBlob(art.id, data);
    var d1 := Apply(d, a);
    var d2 := Apply(d1, b);
    assert d.blob[art.id := []][art.id := data] == d.blob[art.id := data];
    PersistSafe(m, d2, art);
    SafeCons(m, d1, b, Persist(art));
    SafeCons(m, d, a, [b] + Persist(art));
    assert [a, b] + Persist(art) == [a] + ([b] + Persist(art));
  }

  lemma StoreBytesSafe(s: Store, id: Id, data: Bytes, headroom: nat)
    requires Inv(s) && Enabled(s, StoreBytes(id, data, headroom)) && StoresNow(s, id, data, headroom)
    ensures AllSafe(Memory(s, StoreBytes(id, data, headroom)), s.disk, FsOps(s, StoreBytes(id, data, headroom)))
    ensures ApplyAll(s.disk, FsOps(s, StoreBytes(id, data, headroom))) ==
      s.disk.(meta := s.disk.meta[id := Json(StoredAs(s.heap[id], |data|))], blob := s.disk.blob[id := data])
  {
    LiveMeta(s, id);
    WriteThenRecord(Memory(s, StoreBytes(id, data, headroom)), s.disk, data, StoredAs(s.heap[id], |data|));
  }

  lemma StepsSafe(s: Store, op: Op)
    requires Inv(s) && Enabled(s, op)
    ensures AllSafe(Memory(s, op), s.disk, FsOps(s, op))
  {
    var m := Memory(s, op);
    match op
    case Tick(_) =>
    case Create(_, _, _, _, _, _, _, _) => CreateSafe(s, op);
    case Expire(id) => RemoveSafe(m, s.disk, id);
    case Put(id, length, headroom) =>
      if Admitted(s, id, length, headroom) {
        LiveMeta(s, id);
        Safe1(m, s.disk, CreatePart(id));
      }
    case Chunk(id, chunk, headroom) =>
      Safe1(m, s.disk, UnlinkPart(id));
      Safe1(m, s.disk, AppendPart(id, chunk));
    case EndOfStream(id) => FinishSafe(s, id);
    case Disconnect(id) => Safe1(m, s.disk, UnlinkPart(id));
    case StoreBytes(id, data, headroom) =>
      if StoresNow(s, id, data, headroom) {
        StoreBytesSafe(s, id, data, headroom);
      }
    case Delete(id, requester) =>
      if Removes(s, id, requester) {
        RemoveSafe(m, s.disk, id);
      }
    case NameToken(id) =>
      if id in s.live {
        LiveMeta(s, id);
        PersistSafe(m, s.disk, m.heap[id]);
      }
    case TakePending(_) =>
  }

  // ---- crashes ----------------------------------------------------------------------------------

  lemma MemoryGrows(s: Store, op: Op)
    requires Accepts(s, op)
    ensures Memory(s, op).cfg == s.cfg && s.now <= Memory(s, op).now && s.issued <= Memory(s, op).issued
  {}

  lemma DiskOkGrows(s: Store, m: Store, d: Disk)
    requires DiskOk(s, d) && m.cfg == s.cfg && s.now <= m.now && s.issued <= m.issued
    ensures DiskOk(m, d)
  {
    forall id | id in d.meta ensures MetaOk(m.cfg, m.now, d.blob, id, d.meta[id]) {
      assert MetaOk(s.cfg, s.now, d.blob, id, d.meta[id]);
    }
  }

  lemma DiskOkLater(s: Store, op: Op)
    requires Inv(s) && Enabled(s, op)
    ensures DiskOk(Memory(s, op), s.disk)
  {
    MemoryGrows(s, op);
    DiskOkGrows(s, Memory(s, op), s.disk);
  }

  /** Stopping any operation after any number of its file-system steps leaves a disk on which every
      readable `stored` artifact has a complete blob of exactly `size_actual` bytes. */
  lemma CrashDisk(s: Store, op: Op, k: nat)
    requires Inv(s) && Enabled(s, op) && k <= |FsOps(s, op)|
    ensures DiskOk(Memory(s, op), ApplyAll(s.disk, FsOps(s, op)[..k]))
  {
    DiskOkLater(s, op);
    StepsSafe(s, op);
    SafePrefix(Memory(s, op), s.disk, FsOps(s, op), k);
  }

  lemma RestartInv(s: Store, d: Disk)
    requires DiskOk(s, d)
    ensures Inv(Restart(s, d))
  {
    var q := Restart(s, d);
    forall id | id in q.heap ensures q.heap[id].id == id && TokenOk(q.heap[id]) && id in q.issued {
      assert MetaOk(s.cfg, s.now, d.blob, id, d.meta[id]);
    }
  }

  lemma CrashInv(s: Store, op: Op, k: nat)
    requires Inv(s) && Enabled(s, op) && k <= |FsOps(s, op)|
    ensures Inv(Crashed(s, op, k))
  {
    var later := s.(issued := Memory(s, op).issued, now := Memory(s, op).now);
    CrashDisk(s, op, k);
    MemoryGrows(s, op);
    DiskOkGrows(Memory(s, op), later, ApplyAll(s.disk, FsOps(s, op)[..k]));
    RestartInv(later, ApplyAll(s.disk, FsOps(s, op)[..k]));
  }

  // ---- completed operations ------------------------------------------------------------------------

  lemma DiskAfter(s: Store, op: Op)
    requires Inv(s) && Enabled(s, op)
    ensures DiskOk(Next(s, op), Next(s, op).disk)
  {
    var ops := FsOps(s, op);
    CrashDisk(s, op, |ops|);
    TakeAll(ops);
  }

  /** Index and uploads after a step that concerns one artifact. */
  ghost predicate Shared(s: Store, q: Store, id: Id) {
    && s.issued <= q.issued && q.cfg == s.cfg
    && (forall v :: v != id ==>
          && (v in q.heap <==> v in s.heap) && (v in s.heap ==> q.heap[v] == s.heap[v])
          && (v in q.live <==> v in s.live)
          && (v in q.disk.meta <==> v in s.disk.meta) && (v in s.disk.meta ==> q.disk.meta[v] == s.disk.meta[v])
          && (v in q.disk.blob <==> v in s.disk.blob)
          && (v in q.disk.part <==> v in s.disk.part) && (v in s.disk.part ==> q.disk.part[v] == s.disk.part[v])
          && (v in q.uploads <==> v in s.uploads) && (v in s.uploads ==> q.uploads[v] == s.uploads[v]))
  }

  ghost predicate OneOk(q: Store, id: Id) {
    && (id in q.live ==> id in q.heap && id in q.disk.meta && q.disk.meta[id] == Json(q.heap[id]))
    && (id in q.heap ==> q.heap[id].id == id && id in q.issued)
    && (id in q.disk.meta && q.disk.meta[id].Json? ==> id in q.live)
    && (id in q.uploads ==> id in q.heap && UploadOk(q, id, q.uploads[id]))
  }

  lemma OneArtifact(s: Store, q: Store, id: Id)
    requires IndexOk(s) && UploadsOk(s) && Shared(s, q, id) && OneOk(q, id)
    ensures IndexOk(q) && UploadsOk(q)
  {
    forall v | v in q.uploads && v in q.heap ensures UploadOk(q, v, q.uploads[v]) {
      if v != id {
        assert UploadOk(s, v, s.uploads[v]);
      }
    }
  }

  lemma IndexAfterRemoval(s: Store, id: Id, q: Store)
    requires Inv(s) && id in s.live && id in s.heap
    requires q == Removed(s, id).(disk := ApplyAll(s.disk, RemoveFiles(id)))
    ensures IndexOk(q) && UploadsOk(q)
  {
    RemoveSafe(s, s.disk, id);
    if id in s.uploads {
      assert UploadOk(s, id, s.uploads[id]);
    }
    OneArtifact(s, q, id);
  }

  lemma IndexAfterPersist(s: Store, art: Artifact, q: Store)
    requires Inv(s) && art.id in s.issued && art.id in s.live && (art.id in s.uploads ==> art.phase == AwaitUpload)
    requires MetaOk(s.cfg, s.now, s.disk.blob, art.id, Json(art))
    requires q == s.(heap := s.heap[art.id := art], disk := ApplyAll(s.disk, Persist(art)))
    ensures IndexOk(q) && UploadsOk(q)
  {
    PersistSafe(s, s.disk, art);
    if art.id in s.uploads {
      assert UploadOk(s, art.id, s.uploads[art.id]);
    }
    OneArtifact(s, q, art.id);
  }

  lemma IndexAfterCreate(s: Store, op: Op)
    requires Inv(s) && Enabled(s, op) && op.Create?
    ensures IndexOk(Next(s, op)) && UploadsOk(Next(s, op))
  {
    if CheckAdmission(op.size, s.cfg.maxBytes, op.headroom).None? {
      PersistSafe(Memory(s, op), s.disk, NewArtifact(s, op));
      OneArtifact(s, Next(s, op), op.id);
    }
  }

  lemma IndexAfterPut(s: Store, id: Id, length: Option<int>, headroom: nat)
    requires Inv(s) && Enabled(s, Put(id, length, headroom))
    ensures IndexOk(Next(s, Put(id, length, headroom))) && UploadsOk(Next(s, Put(id, length, headroom)))
  {
    if Admitted(s, id, length, headroom) {
      LiveMeta(s, id);
      Safe1(Memory(s, Put(id, length, headroom)), s.disk, CreatePart(id));
      OneArtifact(s, Next(s, Put(id, length, headroom)), id);
    }
  }

  lemma UploadEnds(s: Store, id: Id, q: Store)
    requires Inv(s) && id in s.uploads && id in s.heap
    requires q == s.(uploads := s.uploads - {id}, disk := Apply(s.disk, UnlinkPart(id)))
    ensures IndexOk(q) && UploadsOk(q)
  {
    assert UploadOk(s, id, s.uploads[id]);
    OneArtifact(s, q, id);
  }

  lemma UploadGrows(s: Store, id: Id, chunk: Bytes, u: Upload, q: Store)
    requires Inv(s) && id in s.uploads && id in s.heap
    requires u.data == s.uploads[id].data + chunk && |u.data| <= s.cfg.maxBytes
    requires u.checkpoint <= |u.data| && |u.data| - u.checkpoint < RECHECK
    requires q == s.(uploads := s.uploads[id := u], disk := Apply(s.disk, AppendPart(id, chunk)))
    ensures IndexOk(q) && UploadsOk(q)
  {
    assert UploadOk(s, id, s.uploads[id]);
    OneArtifact(s, q, id);
  }

  lemma IndexAfterChunk(s: Store, id: Id, chunk: Bytes, headroom: nat)
    requires Inv(s) && Enabled(s, Chunk(id, chunk, headroom))
    ensures IndexOk(Next(s, Chunk(id, chunk, headroom))) && UploadsOk(Next(s, Chunk(id, chunk, headroom)))
  {
    if chunk != [] {
      var op := Chunk(id, chunk, headroom);
      match Consider(s.uploads[id], chunk, s.cfg.maxBytes, headroom)
      case Reject(_) =>
        Safe1(Memory(s, op), s.disk, UnlinkPart(id));
        UploadEnds(s, id, Next(s, op));
      case Take(u) =>
        Safe1(Memory(s, op), s.disk, AppendPart(id, chunk));
        assert UploadOk(s, id, s.uploads[id]);
        UploadGrows(s, id, chunk, u, Next(s, op));
    }
  }

  lemma IndexAfterFinish(s: Store, id: Id)
    requires Inv(s) && Enabled(s, EndOfStream(id))
    ensures IndexOk(Next(s, EndOfStream(id))) && UploadsOk(Next(s, EndOfStream(id)))
  {
    assert UploadOk(s, id, s.uploads[id]);
    FinishSafe(s, id);
    OneArtifact(s, Next(s, EndOfStream(id)), id);
  }

  lemma IndexAfterStoreBytes(s: Store, id: Id, data: Bytes, headroom: nat)
    requires Inv(s) && Enabled(s, StoreBytes(id, data, headroom))
    ensures IndexOk(Next(s, StoreBytes(id, data, headroom))) && UploadsOk(Next(s, StoreBytes(id, data, headroom)))
  {
    if StoresNow(s, id, data, headroom) {
      LiveMeta(s, id);
      StoreBytesSafe(s, id, data, headroom);
      OneArtifact(s, Next(s, StoreBytes(id, data, headroom)), id);
    }
  }

  lemma IndexAfter(s: Store, op: Op)
    requires Inv(s) && Enabled(s, op)
    ensures IndexOk(Next(s, op)) && UploadsOk(Next(s, op))
  {
    var q := Next(s, op);
    match op
    case Create(_, _, _, _, _, _, _, _) => IndexAfterCreate(s, op);
    case Expire(id) => IndexAfterRemoval(s, id, q);
    case Put(id, length, headroom) => IndexAfterPut(s, id, length, headroom);
    case Chunk(id, chunk, headroom) => IndexAfterChunk(s, id, chunk, headroom);
    case EndOfStream(id) => IndexAfterFinish(s, id);
    case Disconnect(id) =>
      Safe1(Memory(s, op), s.disk, UnlinkPart(id));
      UploadEnds(s, id, q);
    case StoreBytes(id, data, headroom) => IndexAfterStoreBytes(s, id, data, headroom);
    case Delete(id, requester) =>
      if Removes(s, id, requester) {
        IndexAfterRemoval(s, id, q);
      }
    case NameToken(id) =>
      if id in s.live {
        LiveMeta(s, id);
        if id in s.uploads {
          assert UploadOk(s, id, s.uploads[id]);
        }
        IndexAfterPersist(s, q.heap[id], q);
      }
    case _ => UntouchedIndex(s, op);
  }

  lemma UntouchedIndex(s: Store, op: Op)
    requires Inv(s) && Enabled(s, op) && (op.Tick? || op.TakePending?)
    ensures IndexOk(Next(s, op)) && UploadsOk(Next(s, op))
  {
    var q := Next(s, op);
    forall id | id in q.uploads && id in q.heap ensures UploadOk(q, id, q.uploads[id]) {
      assert UploadOk(s, id, s.uploads[id]);
    }
  }

  // ---- tokens --------------------------------------------------------------------------------------

  lemma TokenNameInjective(a: Id, b: Id)
    requires TokenName(a) == TokenName(b)
    ensures a == b
  {
    assert a == TokenName(a)[|TokenName("")|..] && b == TokenName(b)[|TokenName("")|..];
  }

  /** What a step of one artifact must not touch for the tokens of the others. */
  lemma OtherPlaces(s: Store, q: Store, id: Id, v: Id)
    requires v != id && v in s.heap && v in q.heap && q.heap[v] == s.heap[v] && s.heap[v].id == v
    requires v in q.live <==> v in s.live
    requires forall p: (string, string) :: p.1 != TokenName(id) ==> (p in q.pending <==> p in s.pending) && q.handed[p] == s.handed[p]
    ensures Places(q, v) == Places(s, v)
  {
    if TokenName(v) == TokenName(id) {
      TokenNameInjective(v, id);
    }
  }

  predicate SameToken(a: Artifact, b: Artifact) {
    a.id == b.id && a.owner == b.owner && a.tokenName == b.tokenName
  }

  lemma StillOwned(s: Store, q: Store, p: (string, string))
    requires OwnedBy(s, p)
    requires forall id :: id in s.heap && id !in s.live ==> id in q.heap && id !in q.live
    requires forall id :: id in s.heap && id !in s.live ==> SameToken(s.heap[id], q.heap[id])
    ensures OwnedBy(q, p)
  {
    var id :| id in s.heap && id !in s.live && s.heap[id].tokenName.Some? && p == Token(s.heap[id]);
    assert id in q.heap && p == Token(q.heap[id]);
  }

  lemma SamePlaces(s: Store, q: Store, v: Id)
    requires v in s.heap && v in q.heap && SameToken(s.heap[v], q.heap[v])
    requires (v in q.live <==> v in s.live) && q.pending == s.pending && q.handed == s.handed
    ensures Places(q, v) == Places(s, v)
  {}

  /** A step that changes only one artifact's record, and not its owner, its token or who holds it. */
  lemma TokensSame(s: Store, q: Store)
    requires TokensOk(s) && q.pending == s.pending && q.handed == s.handed && q.live == s.live && q.heap.Keys == s.heap.Keys
    requires forall id :: id in s.heap ==> SameToken(s.heap[id], q.heap[id])
    ensures TokensOk(q)
  {
    forall id | id in q.heap ensures Places(q, id) == if q.heap[id].tokenName.Some? then 1 else 0 {
      SamePlaces(s, q, id);
    }
    forall p | p in q.pending || p in q.handed ensures OwnedBy(q, p) {
      StillOwned(s, q, p);
    }
  }

  lemma TokensAfterRemoval(s: Store, id: Id)
    requires Inv(s) && id in s.live && id in s.heap
    ensures TokensOk(Removed(s, id))
  {
    var q := Removed(s, id);
    forall v | v in q.heap ensures Places(q, v) == if q.heap[v].tokenName.Some? then 1 else 0 {
      if v != id {
        OtherPlaces(s, q, id, v);
      } else {
        assert Places(s, id) == if s.heap[id].tokenName.Some? then 1 else 0;
      }
    }
    forall p | p in q.pending || p in q.handed ensures OwnedBy(q, p) {
      if p in s.pending || p in s.handed {
        var v :| v in s.heap && v !in s.live && s.heap[v].tokenName.Some? && p == Token(s.heap[v]);
        assert v in q.heap && v !in q.live;
      } else {
        assert p == Token(s.heap[id]);
      }
    }
  }

  lemma NoTraceOf(s: Store, id: Id, owner: string)
    requires Inv(s)
    requires id !in s.heap || id in s.live
    ensures (owner, TokenName(id)) !in s.pending && (owner, TokenName(id)) !in s.handed
  {
    var p := (owner, TokenName(id));
    if p in s.pending || p in s.handed {
      var v :| v in s.heap && v !in s.live && s.heap[v].tokenName.Some? && p == Token(s.heap[v]);
      TokenNameInjective(v, id);
      assert false;
    }
  }

  lemma TokensWithNew(s: Store, art: Artifact, q: Store)
    requires Inv(s) && art.id !in s.heap && art.tokenName == None
    requires q == s.(heap := s.heap[art.id := art], live := s.live + {art.id}, issued := s.issued + {art.id})
    ensures TokensOk(q)
  {
    NoTraceOf(s, art.id, art.owner);
    forall v | v in q.heap ensures Places(q, v) == if q.heap[v].tokenName.Some? then 1 else 0 {
      if v != art.id {
        SamePlaces(s, q, v);
      }
    }
    forall p | p in q.pending || p in q.handed ensures OwnedBy(q, p) {
      StillOwned(s, q, p);
    }
  }

  lemma TokensAfterCreate(s: Store, op: Op)
    requires Inv(s) && Enabled(s, op) && op.Create?
    ensures TokensOk(Memory(s, op))
  {
    if CheckAdmission(op.size, s.cfg.maxBytes, op.headroom).None? {
      TokensWithNew(s, NewArtifact(s, op), Memory(s, op));
    }
  }

  lemma TokensAfterStoring(s: Store, id: Id, size: nat, q: Store)
    requires TokensOk(s) && id in s.heap
    requires q.heap == s.heap[id := StoredAs(s.heap[id], size)]
    requires q.live == s.live && q.pending == s.pending && q.handed == s.handed
    ensures TokensOk(q)
  {
    TokensSame(s, q);
  }

  lemma TokensUntouched(s: Store, q: Store)
    requires TokensOk(s) && q.heap == s.heap && q.live == s.live && q.pending == s.pending && q.handed == s.handed
    ensures TokensOk(q)
  {
    TokensSame(s, q);
  }

  lemma MemoryUntouched(s: Store, op: Op)
    requires Accepts(s, op) && (op.Tick? || op.Put? || op.Chunk? || op.Disconnect?)
    ensures var q := Memory(s, op); q.heap == s.heap && q.live == s.live && q.pending == s.pending && q.handed == s.handed
  {}

  lemma TokensAfterFinish(s: Store, id: Id)
    requires TokensOk(s) && Accepts(s, EndOfStream(id))
    ensures TokensOk(Memory(s, EndOfStream(id)))
  {
    if id in s.disk.part {
      TokensAfterStoring(s, id, |s.uploads[id].data|, Memory(s, EndOfStream(id)));
    } else {
      TokensUntouched(s, Memory(s, EndOfStream(id)));
    }
  }

  lemma TokensAfterStoreBytes(s: Store, id: Id, data: Bytes, headroom: nat)
    requires TokensOk(s) && Accepts(s, StoreBytes(id, data, headroom))
    ensures TokensOk(Memory(s, StoreBytes(id, data, headroom)))
  {
    if StoresNow(s, id, data, headroom) {
      TokensAfterStoring(s, id, |data|, Memory(s, StoreBytes(id, data, headroom)));
    }
  }

  lemma NamedPlaces(s: Store, id: Id, q: Store)
    requires Inv(s) && id in s.live && q == Memory(s, NameToken(id))
    ensures Places(q, id) == 1 && q.heap[id].tokenName.Some?
  {
    NoTraceOf(s, id, s.heap[id].owner);
  }

  lemma TokensAfterNaming(s: Store, id: Id)
    requires Inv(s) && id in s.live
    ensures TokensOk(Memory(s, NameToken(id)))
  {
    var q := Memory(s, NameToken(id));
    NamedPlaces(s, id, q);
    forall v | v in q.heap ensures Places(q, v) == if q.heap[v].tokenName.Some? then 1 else 0 {
      if v != id {
        SamePlaces(s, q, v);
      }
    }
    forall p | p in q.pending || p in q.handed ensures OwnedBy(q, p) {
      StillOwned(s, q, p);
    }
  }

  lemma TokensAfterTake(s: Store, owner: string)
    requires Inv(s)
    ensures TokensOk(Memory(s, TakePending(owner)))
  {
    var q := Memory(s, TakePending(owner));
    forall v | v in q.heap ensures Places(q, v) == if q.heap[v].tokenName.Some? then 1 else 0 {
      assert Places(s, v) == Places(q, v);
    }
    forall p | p in q.pending || p in q.handed ensures OwnedBy(q, p) {
      assert p in s.pending || p in s.handed;
      StillOwned(s, q, p);
    }
  }

  lemma TokensAfter(s: Store, op: Op)
    requires Inv(s) && Enabled(s, op)
    ensures TokensOk(Memory(s, op))
  {
    match op
    case Create(_, _, _, _, _, _, _, _) => TokensAfterCreate(s, op);
    case Expire(id) => TokensAfterRemoval(s, id);
    case Delete(id, requester) =>
      if Removes(s, id, requester) {
        TokensAfterRemoval(s, id);
      }
    case NameToken(id) =>
      if id in s.live {
        TokensAfterNaming(s, id);
      }
    case TakePending(owner) => TokensAfterTake(s, owner);
    case EndOfStream(id) => TokensAfterFinish(s, id);
    case StoreBytes(id, data, headroom) => TokensAfterStoreBytes(s, id, data, headroom);
    case _ =>
      MemoryUntouched(s, op);
      TokensUntouched(s, Memory(s, op));
  }

  lemma TokensIgnoreDisk(s: Store, d: Disk)
    requires TokensOk(s)
    ensures TokensOk(s.(disk := d))
  {
    TokensSame(s, s.(disk := d));
  }

  // ---- every run -----------------------------------------------------------------------------------

  lemma StepInv(s: Store, e: Event)
    requires Inv(s) && Possible(s, e)
    ensures Inv(Step(s, e))
  {
    match e
    case Do(op) =>
      DiskAfter(s, op);
      IndexAfter(s, op);
      TokensAfter(s, op);
      TokensIgnoreDisk(Memory(s, op), Next(s, op).disk);
    case Crash(op, k) => CrashInv(s, op, k);
  }

  lemma {:induction false} RunInv(s: Store, events: seq<Event>, q: Store)
    requires Inv(s) && Run(s, events, q)
    ensures Inv(q)
    decreases |events|
  {
    if events != [] {
      StepInv(s, events[0]);
      RunInv(Step(s, events[0]), events[1..], q);
    }
  }

  lemma EmptyInv(cfg: Config, now: real)
    ensures Inv(Empty(cfg, now))
  {}
}
