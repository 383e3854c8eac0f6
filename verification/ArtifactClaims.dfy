/** What the artifact store promises, over whole runs, crashes and restarts included. */
module ArtifactClaims {
  import opened Text
  import opened ArtifactModel
  import opened ArtifactRuns

  ghost predicate Reached(cfg: Config, start: real, events: seq<Event>, s: Store) {
    Run(Empty(cfg, start), events, s)
  }

  lemma ReachedInv(cfg: Config, start: real, events: seq<Event>, s: Store)
    requires Reached(cfg, start, events, s)
    ensures Inv(s) && s.cfg == cfg
  {
    EmptyInv(cfg, start);
    RunInv(Empty(cfg, start), events, s);
    ConfigStays(Empty(cfg, start), events, s);
  }

  lemma StepConfig(s: Store, e: Event)
    requires Possible(s, e)
    ensures Step(s, e).cfg == s.cfg
  {}

  lemma {:induction false} ConfigStays(s: Store, events: seq<Event>, q: Store)
    requires Run(s, events, q)
    ensures q.cfg == s.cfg
    decreases |events|
  {
    if events != [] {
      StepConfig(s, events[0]);
      ConfigStays(Step(s, events[0]), events[1..], q);
    }
  }

  // ---- answers ------------------------------------------------------------------------------

  /** _artifacts */
  function Index(s: Store): map<Id, Artifact> {
    map id | id in s.live && id in s.heap :: s.heap[id]
  }

  /** The artifact `get` returns. */
  function Get(s: Store, id: Id): Option<Artifact> {
    if id in s.live && id in s.heap && !Expired(s, id) then Some(s.heap[id]) else None
  }

  /** What `list_for` returns, after its reap. */
  function ListFor(s: Store, owner: string): set<Artifact> {
    set id | id in s.live && id in s.heap && !Expired(s, id) && s.heap[id].owner == owner :: s.heap[id]
  }

  function VerifyToken(art: Artifact, presentedHash: Option<string>): (ok: bool)
    ensures ok <==> presentedHash == Some(art.tokenHash)
  {
    presentedHash.Some? && art.tokenHash == presentedHash.value
  }

  // ---- crashes and restarts --------------------------------------------------------------------

  /** Every artifact whose state is `stored` has a complete blob of exactly `size_actual` bytes. */
  ghost predicate StoredComplete(s: Store) {
    forall id :: id in Index(s) && Index(s)[id].phase == Stored ==>
      id in s.disk.blob && Index(s)[id].sizeActual == Some(|s.disk.blob[id]|) && |s.disk.blob[id]| <= s.cfg.maxBytes
  }

  /** In every reachable state, and after stopping any operation at any of its file-system steps and
      starting again, every stored artifact is complete. */
  lemma CrashConsistency(cfg: Config, start: real, events: seq<Event>, s: Store, op: Op, k: nat)
    requires Reached(cfg, start, events, s) && Enabled(s, op) && k <= |FsOps(s, op)|
    ensures StoredComplete(s) && StoredComplete(Crashed(s, op, k))
  {
    ReachedInv(cfg, start, events, s);
    Complete(s);
    CrashInv(s, op, k);
    Complete(Crashed(s, op, k));
  }

  lemma Complete(s: Store)
    requires Inv(s)
    ensures StoredComplete(s)
  {
    forall id | id in Index(s) && Index(s)[id].phase == Stored
      ensures id in s.disk.blob && Index(s)[id].sizeActual == Some(|s.disk.blob[id]|) && |s.disk.blob[id]| <= s.cfg.maxBytes
    {
      LiveMeta(s, id);
    }
  }

  /** After every completed operation the index is exactly what _load would rebuild. */
  lemma IndexIsLoad(cfg: Config, start: real, events: seq<Event>, s: Store)
    requires Reached(cfg, start, events, s)
    ensures Load(s.disk) == Index(s)
  {
    ReachedInv(cfg, start, events, s);
  }

  /** A clean restart changes no answer; only the queue of tokens to delete is lost. */
  lemma RestartTransparent(cfg: Config, start: real, events: seq<Event>, s: Store, id: Id, owner: string, requester: Option<string>)
    requires Reached(cfg, start, events, s)
    ensures var r := Restart(s, s.disk);
      && Get(r, id) == Get(s, id)
      && ListFor(r, owner) == ListFor(s, owner)
      && (Removes(r, id, requester) <==> Removes(s, id, requester))
      && (id in s.live && id in s.heap ==> id in r.heap && forall hash ::
            VerifyToken(r.heap[id], hash) == VerifyToken(s.heap[id], hash))
      && r.pending == {}
  {
    IndexIsLoad(cfg, start, events, s);
    var r := Restart(s, s.disk);
    assert Index(r) == Index(s);
    assert forall v :: v in s.live && v in s.heap <==> v in Index(s);
    assert forall v :: v in r.live && v in r.heap <==> v in Index(r);
    ReachedInv(cfg, start, events, s);
    forall a ensures a in ListFor(r, owner) <==> a in ListFor(s, owner) {
      if a in ListFor(r, owner) {
        var v :| v in r.live && v in r.heap && !Expired(r, v) && r.heap[v].owner == owner && a == r.heap[v];
        assert v in Index(s) && s.heap[v] == a;
      }
      if a in ListFor(s, owner) {
        var v :| v in s.live && v in s.heap && !Expired(s, v) && s.heap[v].owner == owner && a == s.heap[v];
        assert v in Index(r) && r.heap[v] == a;
      }
    }
  }

  // ---- lifetime ------------------------------------------------------------------------------------

  /** Every artifact lives between one second and the configured maximum, and `get` never returns
      one at or past its expiry. */
  lemma LifetimeBounds(cfg: Config, start: real, events: seq<Event>, s: Store, id: Id)
    requires Reached(cfg, start, events, s) && id in Index(s)
    ensures LifetimeOk(cfg, s.now, Index(s)[id])
    ensures Get(s, id).Some? ==> s.now < Get(s, id).value.expires
  {
    ReachedInv(cfg, start, events, s);
    LiveMeta(s, id);
  }

  /** The id has been issued and is removed or expired. */
  predicate Dead(s: Store, id: Id) {
    id in s.issued && (id in s.live && id in s.heap ==> Expired(s, id))
  }

  /** Metadata is only ever written for a new id, or for a live artifact without moving its expiry. */
  ghost predicate Honest(s: Store, op: FsOp) {
    op.WriteMeta? ==>
      op.art.id !in s.issued || (op.art.id in s.live && op.art.id in s.heap && op.art.expires == s.heap[op.art.id].expires)
  }

  ghost predicate AllHonest(s: Store, ops: seq<FsOp>) {
    forall i :: 0 <= i < |ops| ==> Honest(s, ops[i])
  }

  lemma HonestPersist(s: Store, before: seq<FsOp>, art: Artifact)
    requires AllHonest(s, before) && Honest(s, WriteMeta(art))
    ensures AllHonest(s, before + Persist(art))
  {
    assert (before + Persist(art))[|before|] == TruncateMeta(art.id);
  }

  lemma FinishHonest(s: Store, id: Id)
    requires Inv(s) && Enabled(s, EndOfStream(id))
    ensures AllHonest(s, FsOps(s, EndOfStream(id)))
  {
    assert UploadOk(s, id, s.uploads[id]);
    if id in s.disk.part {
      HonestPersist(s, [PartToBlob(id)], StoredAs(s.heap[id], |s.uploads[id].data|));
    }
  }

  lemma StoreBytesHonest(s: Store, id: Id, data: Bytes, headroom: nat)
    requires Inv(s) && Enabled(s, StoreBytes(id, data, headroom))
    ensures AllHonest(s, FsOps(s, StoreBytes(id, data, headroom)))
  {
    if StoresNow(s, id, data, headroom) {
      HonestPersist(s, [TruncateBlob(id), WriteBlob(id, data)], StoredAs(s.heap[id], |data|));
    }
  }

  lemma NamingHonest(s: Store, id: Id)
    requires Inv(s) && Enabled(s, NameToken(id))
    ensures AllHonest(s, FsOps(s, NameToken(id)))
  {
    if id in s.live {
      var art := s.heap[id].(tokenName := Some(TokenName(id)));
      HonestPersist(s, [], art);
      assert [] + Persist(art) == Persist(art);
    }
  }

  lemma CreateHonest(s: Store, op: Op)
    requires Enabled(s, op) && op.Create?
    ensures AllHonest(s, FsOps(s, op))
  {
    if CheckAdmission(op.size, s.cfg.maxBytes, op.headroom).None? {
      HonestPersist(s, [], NewArtifact(s, op));
      assert [] + Persist(NewArtifact(s, op)) == Persist(NewArtifact(s, op));
    }
  }

  lemma WritesHonest(s: Store, op: Op)
    requires Inv(s) && Enabled(s, op)
    ensures AllHonest(s, FsOps(s, op))
  {
    match op
    case Create(_, _, _, _, _, _, _, _) => CreateHonest(s, op);
    case EndOfStream(id) => FinishHonest(s, id);
    case StoreBytes(id, data, headroom) => StoreBytesHonest(s, id, data, headroom);
    case NameToken(id) => NamingHonest(s, id);
    case _ =>
  }

  ghost predicate ReadableDead(s: Store, d: Disk, id: Id) {
    id in d.meta && d.meta[id].Json? ==> id in s.live && id in s.heap && d.meta[id].art.expires == s.heap[id].expires
  }

  lemma {:induction false} HonestPrefix(s: Store, d: Disk, ops: seq<FsOp>, k: nat, id: Id)
    requires k <= |ops| && id in s.issued && ReadableDead(s, d, id)
    requires AllHonest(s, ops)
    ensures ReadableDead(s, ApplyAll(d, ops[..k]), id)
    decreases k
  {
    if k > 0 {
      assert Honest(s, ops[0]);
      assert forall i :: 0 <= i < |ops[1..]| ==> ops[1..][i] == ops[i+1];
      HonestPrefix(s, Apply(d, ops[0]), ops[1..], k - 1, id);
      assert ops[..k][1..] == ops[1..][..k-1];
    }
  }

  predicate SameArtifact(a: Artifact, b: Artifact) {
    a.id == b.id && a.owner == b.owner && a.created == b.created && a.expires == b.expires
  }

  /** An operation never revives an id, nor moves an artifact's expiry, owner or id. */
  lemma MemoryKeeps(s: Store, op: Op, id: Id)
    requires Enabled(s, op) && id in s.issued
    ensures id in Memory(s, op).issued && s.now <= Memory(s, op).now
    ensures id in Memory(s, op).live ==> id in s.live
    ensures id in s.heap ==> id in Memory(s, op).heap && SameArtifact(s.heap[id], Memory(s, op).heap[id])
    ensures id !in s.heap ==> id !in Memory(s, op).heap
  {}

  lemma StepDead(s: Store, e: Event, id: Id)
    requires Inv(s) && Possible(s, e) && Dead(s, id)
    ensures Dead(Step(s, e), id)
  {
    MemoryKeeps(s, e.op, id);
    if e.Crash? {
      CrashDead(s, e.op, e.steps, id);
    }
  }

  lemma CrashDead(s: Store, op: Op, k: nat, id: Id)
    requires Inv(s) && Enabled(s, op) && k <= |FsOps(s, op)| && Dead(s, id)
    requires id in Memory(s, op).issued && s.now <= Memory(s, op).now
    ensures Dead(Crashed(s, op, k), id)
  {
    WritesHonest(s, op);
    assert ReadableDead(s, s.disk, id);
    HonestPrefix(s, s.disk, FsOps(s, op), k, id);
  }

  lemma {:induction false} RunDead(s: Store, events: seq<Event>, q: Store, id: Id)
    requires Inv(s) && Run(s, events, q) && Dead(s, id)
    ensures Dead(q, id)
    decreases |events|
  {
    if events != [] {
      StepDead(s, events[0], id);
      StepInv(s, events[0]);
      RunDead(Step(s, events[0]), events[1..], q, id);
    }
  }

  /** Once an issued id has been removed or seen expired, no later `get` returns it, whatever
      happens in between: restarts, and crashes in the middle of any operation, included. */
  lemma GoneForever(cfg: Config, start: real, before: seq<Event>, s: Store, after: seq<Event>, q: Store, id: Id)
    requires Reached(cfg, start, before, s) && Run(s, after, q)
    requires id in s.issued && Get(s, id) == None
    ensures Get(q, id) == None && id in q.issued
  {
    ReachedInv(cfg, start, before, s);
    RunDead(s, after, q, id);
  }

  lemma {:induction false} RunSplit(s: Store, events: seq<Event>, q: Store, k: nat, p: Store)
    requires Run(s, events, q) && k <= |events| && Run(s, events[..k], p)
    ensures Run(p, events[k..], q)
    decreases |events|
  {
    if k == 0 {
      assert events[..0] == [] && events[0..] == events;
    } else {
      assert events[..k][0] == events[0] && events[..k][1..] == events[1..][..k-1];
      RunSplit(Step(s, events[0]), events[1..], q, k - 1, p);
      assert events[1..][k-1..] == events[k..];
    }
  }

  /** At every point of the run since the id was issued, `get` would have returned it. */
  ghost predicate AlwaysThere(cfg: Config, start: real, events: seq<Event>, id: Id) {
    forall k, p :: 0 <= k <= |events| && Reached(cfg, start, events[..k], p) && id in p.issued ==> Get(p, id).Some?
  }

  /** What `get` returns has never been removed or expired before. */
  lemma NeverGone(cfg: Config, start: real, events: seq<Event>, s: Store, id: Id)
    requires Reached(cfg, start, events, s) && Get(s, id).Some?
    ensures AlwaysThere(cfg, start, events, id)
  {
    forall k, p | 0 <= k <= |events| && Reached(cfg, start, events[..k], p) && id in p.issued ensures Get(p, id).Some? {
      RunSplit(Empty(cfg, start), events, s, k, p);
      if Get(p, id) == None {
        GoneForever(cfg, start, events[..k], p, events[k..], s, id);
      }
    }
  }

  // ---- store_bytes -----------------------------------------------------------------------------------

  /** store_bytes takes the artifact object and does not look at the index.  It keeps everything above
      exactly if it does not write an artifact that has been removed; if it does, the index no longer
      agrees with the disk, and a restart brings the removed id back until it expires. */
  lemma StoreBytesKeepsIff(s: Store, id: Id, data: Bytes, headroom: nat)
    requires Inv(s) && Accepts(s, StoreBytes(id, data, headroom))
    ensures var q := Next(s, StoreBytes(id, data, headroom));
      && (Inv(q) <==> id in s.live || !StoresNow(s, id, data, headroom))
      && (!Inv(q) ==> id !in Index(q) && id in Load(q.disk) && Load(q.disk) != Index(q))
      && (!Inv(q) ==> Get(s, id) == None && (s.now < s.heap[id].expires ==> Get(Restart(q, q.disk), id).Some?))
  {
    var op := StoreBytes(id, data, headroom);
    if Enabled(s, op) {
      StepInv(s, Do(op));
    } else {
      var art := StoredAs(s.heap[id], |data|);
      RewrittenMeta(s.disk, data, art);
    }
  }

  lemma RewrittenMeta(d: Disk, data: Bytes, art: Artifact)
    ensures ApplyAll(d, [TruncateBlob(art.id), WriteBlob(art.id, data)] + Persist(art)).meta == d.meta[art.id := Json(art)]
  {
    var a, b, c, e := TruncateBlob(art.id), WriteBlob(art.id, data), TruncateMeta(art.id), WriteMeta(art);
    var ops := [a, b] + Persist(art);
    assert ops[1..] == [b, c, e] && [b, c, e][1..] == [c, e] && [c, e][1..] == [e] && [e][1..] == [];
    var d3 := Apply(Apply(Apply(d, a), b), c);
    assert ApplyAll(d, ops) == ApplyAll(Apply(d, a), [b, c, e]);
    assert ApplyAll(Apply(Apply(d, a), b), [c, e]) == ApplyAll(d3, [e]);
    assert ApplyAll(d3, [e]) == ApplyAll(Apply(d3, e), []);
    assert d.meta[art.id := Torn][art.id := Json(art)] == d.meta[art.id := Json(art)];
  }

  // ---- uploads -----------------------------------------------------------------------------------------

  function ReceivedNow(e: Event, id: Id): Bytes {
    if e.Do? && e.op.Chunk? && e.op.id == id then e.op.chunk else []
  }

  /** All bytes received for `id` along a run, in order. */
  function Received(events: seq<Event>, id: Id): Bytes {
    if events == [] then [] else ReceivedNow(events[0], id) + Received(events[1..], id)
  }

  /** One process, and no second PUT of `id`. */
  ghost predicate OneUpload(events: seq<Event>, id: Id) {
    forall i :: 0 <= i < |events| ==> events[i].Do? && !(events[i].op.Put? && events[i].op.id == id)
  }

  lemma {:induction false} NeverResumes(s: Store, events: seq<Event>, q: Store, id: Id)
    requires Run(s, events, q) && OneUpload(events, id) && id !in s.uploads
    ensures id !in q.uploads
    decreases |events|
  {
    if events != [] {
      NeverResumes(Step(s, events[0]), events[1..], q, id);
    }
  }

  lemma {:induction false} UploadCollects(s: Store, events: seq<Event>, q: Store, id: Id)
    requires Run(s, events, q) && OneUpload(events, id) && id in s.uploads && id in q.uploads
    ensures q.uploads[id].data == s.uploads[id].data + Received(events, id)
    decreases |events|
  {
    if events != [] {
      var n := Step(s, events[0]);
      FirstOfOne(events, id);
      if id in n.uploads {
        StepCollects(s, events[0], id);
        UploadCollects(n, events[1..], q, id);
        Concat(s.uploads[id].data, ReceivedNow(events[0], id), Received(events[1..], id));
      } else {
        NeverResumes(n, events[1..], q, id);
      }
    }
  }

  lemma FirstOfOne(events: seq<Event>, id: Id)
    requires OneUpload(events, id) && events != []
    ensures events[0].Do? && !(events[0].op.Put? && events[0].op.id == id) && OneUpload(events[1..], id)
  {}

  lemma StepCollects(s: Store, e: Event, id: Id)
    requires Possible(s, e) && e.Do? && !(e.op.Put? && e.op.id == id)
    requires id in s.uploads && id in Step(s, e).uploads
    ensures Step(s, e).uploads[id].data == s.uploads[id].data + ReceivedNow(e, id)
  {}

  /** An upload that reaches the end of its stream, with deletions, expiries, other uploads and
      anything else interleaved at every chunk: it succeeds exactly when the artifact is still there.
      Then the artifact is stored, its blob is the concatenation of the chunks and `size_actual` its
      length, within the cap.  Otherwise nothing of it is left: no metadata, no blob, no part file. */
  lemma UploadOutcome(cfg: Config, start: real, before: seq<Event>, s0: Store, id: Id, length: Option<int>, headroom: nat,
                      events: seq<Event>, s: Store)
    requires Reached(cfg, start, before, s0) && Enabled(s0, Put(id, length, headroom)) && Admitted(s0, id, length, headroom)
    requires Run(Next(s0, Put(id, length, headroom)), events, s) && OneUpload(events, id) && id in s.uploads
    ensures id in s.heap && s.cfg == cfg
    ensures var q, bytes := Next(s, EndOfStream(id)), Received(events, id);
      && id !in q.uploads && id !in q.disk.part
      && (id in s.live <==> id in s.disk.part)
      && (id in s.live ==>
            && id in Index(q) && Index(q)[id].phase == Stored && Index(q)[id].sizeActual == Some(|bytes|)
            && id in q.disk.blob && q.disk.blob[id] == bytes && |bytes| <= s.cfg.maxBytes
            && id in q.disk.meta && q.disk.meta[id] == Json(Index(q)[id]))
      && (id !in s.live ==> id !in q.live && id !in q.disk.meta && id !in q.disk.blob && q.heap == s.heap)
  {
    ReachedInv(cfg, start, before, s0);
    var s1 := Next(s0, Put(id, length, headroom));
    StepInv(s0, Do(Put(id, length, headroom)));
    RunInv(s1, events, s);
    StepConfig(s0, Do(Put(id, length, headroom)));
    ConfigStays(s1, events, s);
    UploadCollects(s1, events, s, id);
    assert s.uploads[id].data == Received(events, id);
    assert UploadOk(s, id, s.uploads[id]);
    FinishSafe(s, id);
  }

  /** The bytes received for `id` since its last PUT began, `before` being those received earlier. */
  function Collected(before: Bytes, events: seq<Event>, id: Id): Bytes
    decreases |events|
  {
    if events == [] then before else Collected(CollectedNow(before, events[0], id), events[1..], id)
  }

  function CollectedNow(before: Bytes, e: Event, id: Id): Bytes {
    if e.Do? && e.op.Put? && e.op.id == id then [] else before + ReceivedNow(e, id)
  }

  lemma StepCollected(s: Store, e: Event, id: Id, before: Bytes)
    requires Possible(s, e) && (id in s.uploads ==> s.uploads[id].data == before)
    ensures id in Step(s, e).uploads ==> Step(s, e).uploads[id].data == CollectedNow(before, e, id)
  {
    if e.Do? && !(e.op.Put? && e.op.id == id) && id in s.uploads && id in Step(s, e).uploads {
      StepCollects(s, e, id);
    }
  }

  lemma {:induction false} UploadIsCollected(s: Store, events: seq<Event>, q: Store, id: Id, before: Bytes)
    requires Run(s, events, q) && (id in s.uploads ==> s.uploads[id].data == before)
    ensures id in q.uploads ==> q.uploads[id].data == Collected(before, events, id)
    decreases |events|
  {
    if events != [] {
      StepCollected(s, events[0], id, before);
      UploadIsCollected(Step(s, events[0]), events[1..], q, id, CollectedNow(before, events[0], id));
    }
  }

  /** The same at any point of any run: what the end of a stream makes of the artifact. */
  lemma UploadFinishes(cfg: Config, start: real, events: seq<Event>, s: Store, id: Id)
    requires Reached(cfg, start, events, s) && Enabled(s, EndOfStream(id))
    ensures var q, bytes := Next(s, EndOfStream(id)), Collected([], events, id);
      && (id in s.live <==> id in s.disk.part)
      && (id in s.live ==>
            && q.heap[id].phase == Stored && q.heap[id].sizeActual == Some(|bytes|) && |bytes| <= cfg.maxBytes
            && id in q.disk.blob && q.disk.blob[id] == bytes)
      && (id !in s.live ==> id !in q.disk.meta && id !in q.disk.blob && id !in q.disk.part)
  {
    ReachedInv(cfg, start, events, s);
    UploadIsCollected(Empty(cfg, start), events, s, id, []);
    assert UploadOk(s, id, s.uploads[id]);
    FinishSafe(s, id);
  }

  /** An upload that is given up, because a chunk breaks the cap or the disk floor or because the
      client goes away, leaves no part file and changes no artifact. */
  lemma UploadGivesUp(cfg: Config, start: real, events: seq<Event>, s: Store, op: Op, id: Id)
    requires Reached(cfg, start, events, s) && Enabled(s, op) && id in s.uploads && id !in Next(s, op).uploads
    requires op == Disconnect(id) || (op.Chunk? && op.id == id)
    ensures var q := Next(s, op);
      id !in q.disk.part && q.heap == s.heap && q.live == s.live && q.disk.meta == s.disk.meta && q.disk.blob == s.disk.blob
  {
    Safe1(Memory(s, op), s.disk, UnlinkPart(id));
  }

  // ---- tokens ------------------------------------------------------------------------------------------------

  ghost predicate SameProcess(events: seq<Event>) {
    forall i :: 0 <= i < |events| ==> events[i].Do?
  }

  lemma {:induction false} RecordStays(s: Store, events: seq<Event>, q: Store, id: Id)
    requires Inv(s) && Run(s, events, q) && SameProcess(events)
    requires id in s.heap && s.heap[id].tokenName.Some?
    ensures id in q.heap && SameToken(s.heap[id], q.heap[id])
    decreases |events|
  {
    if events != [] {
      StepInv(s, events[0]);
      RecordStep(s, events[0].op, id);
      RecordStays(Step(s, events[0]), events[1..], q, id);
    }
  }

  lemma RecordStep(s: Store, op: Op, id: Id)
    requires Inv(s) && Enabled(s, op) && id in s.heap && s.heap[id].tokenName.Some?
    ensures id in Next(s, op).heap && SameToken(s.heap[id], Next(s, op).heap[id])
  {
    MemoryKeeps(s, op, id);
    TokenStays(s, op, id);
  }

  lemma TokenStays(s: Store, op: Op, id: Id)
    requires Enabled(s, op) && id in s.issued && id in s.heap && id in Memory(s, op).heap
    requires s.heap[id].tokenName == Some(TokenName(id))
    ensures Memory(s, op).heap[id].tokenName == Some(TokenName(id))
  {}

  /** Token conservation within one process: a name recorded on a live artifact is from then on in
      exactly one place, on the live artifact, in the pending set under its owner, or handed out;
      it is handed out at most once, only to that owner, and only after the artifact is gone. */
  lemma TokenConservation(cfg: Config, start: real, before: seq<Event>, s: Store, after: seq<Event>, q: Store, id: Id)
    requires Reached(cfg, start, before, s) && Run(s, after, q) && SameProcess(after)
    requires id in s.live && id in s.heap && s.heap[id].tokenName.Some?
    ensures id in q.heap && q.heap[id].tokenName == Some(TokenName(id)) && q.heap[id].owner == s.heap[id].owner
    ensures Places(q, id) == 1
    ensures q.handed[Token(q.heap[id])] <= 1
    ensures q.handed[Token(q.heap[id])] == 1 ==> id !in q.live && Token(q.heap[id]) !in q.pending
    ensures forall other :: other != s.heap[id].owner ==> (other, TokenName(id)) !in q.handed && (other, TokenName(id)) !in q.pending
  {
    ReachedInv(cfg, start, before, s);
    RecordStays(s, after, q, id);
    RunInv(s, after, q);
    forall other | other != s.heap[id].owner
      ensures (other, TokenName(id)) !in q.handed && (other, TokenName(id)) !in q.pending
    {
      OnlyOwner(q, id, other);
    }
  }

  /** A pending name has not been handed out, and its artifact is gone. */
  lemma PendingIsNew(cfg: Config, start: real, events: seq<Event>, s: Store, p: (string, string))
    requires Reached(cfg, start, events, s) && p in s.pending
    ensures p !in s.handed && exists id :: id in s.heap && id !in s.live && p == Token(s.heap[id])
  {
    ReachedInv(cfg, start, events, s);
    var id :| id in s.heap && id !in s.live && s.heap[id].tokenName.Some? && p == Token(s.heap[id]);
    assert Places(s, id) == 1;
  }

  lemma OnlyOwner(q: Store, id: Id, other: string)
    requires Inv(q) && id in q.heap && other != q.heap[id].owner
    ensures (other, TokenName(id)) !in q.handed && (other, TokenName(id)) !in q.pending
  {
    var p := (other, TokenName(id));
    if p in q.pending || p in q.handed {
      var v :| v in q.heap && v !in q.live && q.heap[v].tokenName.Some? && p == Token(q.heap[v]);
      TokenNameInjective(v, id);
      assert false;
    }
  }
}
