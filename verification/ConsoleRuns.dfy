/** What every interleaving of the console proxy's tasks keeps. */
module ConsoleRuns {
  import opened Text
  import opened SentinelWindow
  import opened ConsoleProxy

  ghost predicate Reached(sentinel: Bytes, endpoint: Endpoint, events: seq<Event>, q: Proxy) {
    Run(Init(sentinel, endpoint), events, q)
  }

  lemma ReachedInv(sentinel: Bytes, endpoint: Endpoint, events: seq<Event>, q: Proxy)
    requires Reached(sentinel, endpoint, events, q)
    ensures Inv(q) && q.sentinel == sentinel
  {
    InitInv(sentinel, endpoint);
    RunInv(Init(sentinel, endpoint), events, q);
    RunGrows(Init(sentinel, endpoint), events, q);
  }

  /** From `p` to `q` the sentinel is fixed, the console stream only grows, the gate never closes
      again, and no connection changes its kind or the moment it joined, or registers again. */
  ghost predicate Grown(p: Proxy, q: Proxy) {
    && q.sentinel == p.sentinel
    && Flatten(p.chunks) <= Flatten(q.chunks)
    && (p.gate.writable ==> q.gate.writable)
    && forall w :: w in p.peers ==>
         && w in q.peers && q.peers[w].joined == p.peers[w].joined && q.peers[w].control == p.peers[w].control
         && (w in q.watchers ==> w in p.watchers)
  }

  lemma StepGrows(p: Proxy, e: Event)
    requires Enabled(p, e)
    ensures Grown(p, Next(p, e))
  {
    if e.ConsoleData? {
      AppendRead(p.sentinel, p.chunks, e.data);
    }
  }

  lemma GrownTransitive(p: Proxy, q: Proxy, r: Proxy)
    requires Grown(p, q) && Grown(q, r)
    ensures Grown(p, r)
  {}

  lemma {:induction false} RunGrows(p: Proxy, events: seq<Event>, q: Proxy)
    requires Run(p, events, q)
    ensures Grown(p, q)
    decreases |events|
  {
    if events != [] {
      StepGrows(p, events[0]);
      RunGrows(Next(p, events[0]), events[1..], q);
      GrownTransitive(p, Next(p, events[0]), q);
    }
  }

  /** Read-only until ready: with a sentinel to wait for, nothing has been put on the board
      in any reachable state whose console stream does not show the sentinel. */
  lemma ReadOnlyUntilReady(sentinel: Bytes, endpoint: Endpoint, events: seq<Event>, q: Proxy)
    requires Reached(sentinel, endpoint, events, q)
    requires !Contains(Flatten(q.chunks), sentinel)
    ensures q.board == [] && !q.gate.writable
  {
    ReachedInv(sentinel, endpoint, events, q);
    TailIsLast(sentinel, q.chunks);
  }

  /** With reads short enough for the window, writes are enabled exactly when the console
      stream shows the sentinel. */
  lemma ReadyWhenShown(sentinel: Bytes, endpoint: Endpoint, events: seq<Event>, q: Proxy)
    requires Reached(sentinel, endpoint, events, q)
    requires ChunksUpTo(q.chunks, WINDOW - |sentinel| + 1)
    ensures q.gate.writable <==> Contains(Flatten(q.chunks), sentinel)
  {
    ReachedInv(sentinel, endpoint, events, q);
    ShortReadsExact(sentinel, q.chunks);
  }

  /** The board's input is an interleaving of the watchers' forwarded bytes: every byte is some
      watcher's, and each watcher's bytes are its reads in order, each whole or dropped; only the
      read in progress, or the last read of a handler that ended, may be cut. */
  lemma BoardInterleaves(sentinel: Bytes, endpoint: Endpoint, events: seq<Event>, q: Proxy)
    requires Reached(sentinel, endpoint, events, q)
    ensures forall i :: 0 <= i < |q.board| ==> q.board[i].peer in q.peers && !q.peers[q.board[i].peer].control
    ensures forall w :: w in q.peers ==> var peer := q.peers[w];
      && peer.got == Presented(peer.units)
      && UnitsInRange(peer.units) && PutBy(q.board, w) == Forwarded(peer.units)
      && (forall i :: 0 <= i < |peer.units| - 1 ==> Whole(peer.units[i]))
      && (peer.phase == Watching && peer.units != [] ==> Whole(peer.units[|peer.units|-1]))
  {
    ReachedInv(sentinel, endpoint, events, q);
    forall i | 0 <= i < |q.board| ensures q.board[i].peer in q.peers && !q.peers[q.board[i].peer].control {
      PutByHas(q.board, i);
      assert PeerOk(Flatten(q.chunks), q.gate.writable, q.board[i].peer in q.watchers, PutBy(q.board, q.board[i].peer), q.peers[q.board[i].peer]);
    }
  }

  lemma {:induction false} PutByHas(board: seq<Put>, i: nat)
    requires i < |board|
    ensures PutBy(board, board[i].peer) != []
  {
    if i < |board| - 1 {
      PutByHas(board[..|board|-1], i);
    }
  }

  /** Exact fan-out, within one state: what a connection was sent is a contiguous run of the
      console stream that starts where it joined, and a control connection was sent nothing. */
  lemma SentRun(q: Proxy, w: PeerId)
    requires Inv(q) && w in q.peers
    ensures var peer := q.peers[w];
      && peer.joined + |peer.out| <= |Flatten(q.chunks)|
      && peer.out == Flatten(q.chunks)[peer.joined..peer.joined + |peer.out|]
      && (w in q.watchers ==> peer.out == Flatten(q.chunks)[peer.joined..])
      && (peer.control ==> peer.out == [] && w !in q.watchers)
  {
    assert PeerOk(Flatten(q.chunks), q.gate.writable, w in q.watchers, PutBy(q.board, w), q.peers[w]);
  }

  /** Step `k` of the run, taken from `m`, is the one that deregisters the watcher. */
  ghost predicate LeavesAt(p: Proxy, events: seq<Event>, k: nat, m: Proxy, w: PeerId) {
    && k < |events| && Run(p, events[..k], m) && Enabled(m, events[k])
    && w in m.watchers && w !in Next(m, events[k]).watchers
  }

  /** Nothing is written to a connection that is not registered, and it never registers again; the
      step that deregisters a watcher writes nothing to it. */
  lemma StepRetired(p: Proxy, e: Event, w: PeerId)
    requires Enabled(p, e) && w in p.peers
    ensures w in Next(p, e).peers
    ensures w !in p.watchers ==> w !in Next(p, e).watchers
    ensures w !in Next(p, e).watchers ==> Next(p, e).peers[w].out == p.peers[w].out
  {}

  lemma {:induction false} RunRetired(p: Proxy, events: seq<Event>, q: Proxy, w: PeerId)
    requires Run(p, events, q) && w in p.peers && w !in p.watchers
    ensures w in q.peers && w !in q.watchers && q.peers[w].out == p.peers[w].out
    decreases |events|
  {
    if events != [] {
      StepRetired(p, events[0], w);
      RunRetired(Next(p, events[0]), events[1..], q, w);
    }
  }

  lemma RunFirst(p: Proxy, events: seq<Event>, k: nat, m: Proxy)
    requires events != [] && Enabled(p, events[0]) && k < |events|
    requires Run(Next(p, events[0]), events[1..][..k], m)
    ensures Run(p, events[..k+1], m)
  {
    assert events[..k+1][0] == events[0] && events[..k+1][1..] == events[1..][..k];
  }

  lemma LaterLeave(p: Proxy, events: seq<Event>, k: nat, m: Proxy, w: PeerId)
    requires events != [] && Enabled(p, events[0]) && LeavesAt(Next(p, events[0]), events[1..], k, m, w)
    ensures LeavesAt(p, events, k + 1, m, w)
  {
    RunFirst(p, events, k, m);
  }

  /** Exact fan-out, along a run: a watcher that is still registered has been sent exactly the console
      bytes read since; one that has left was sent exactly those read until the step that deregistered
      it, without the read whose write raised, and nothing afterwards; a control connection never gets
      anything. */
  lemma {:induction false} ExactFanOut(p: Proxy, events: seq<Event>, q: Proxy, w: PeerId)
    requires Inv(p) && Run(p, events, q) && w in p.peers
    ensures w in q.peers && Flatten(p.chunks) <= Flatten(q.chunks)
    ensures w in q.watchers ==> q.peers[w].out == p.peers[w].out + Flatten(q.chunks)[|Flatten(p.chunks)|..]
    ensures w !in p.watchers ==> w !in q.watchers && q.peers[w].out == p.peers[w].out
    ensures w in p.watchers && w !in q.watchers ==> exists k, m ::
              && LeavesAt(p, events, k, m, w) && Flatten(p.chunks) <= Flatten(m.chunks)
              && q.peers[w].out == p.peers[w].out + Flatten(m.chunks)[|Flatten(p.chunks)|..]
    ensures p.peers[w].control ==> q.peers[w].out == []
    decreases |events|
  {
    RunInv(p, events, q);
    RunGrows(p, events, q);
    SentSince(p, q, w);
    if w !in p.watchers {
      RunRetired(p, events, q, w);
    } else if w !in q.watchers {
      var k, m := LeftAfter(p, events, q, w);
    }
  }

  lemma SentNow(p: Proxy, e: Event, w: PeerId)
    requires Inv(p) && Enabled(p, e) && w in p.peers && w in Next(p, e).watchers
    ensures Flatten(p.chunks) <= Flatten(Next(p, e).chunks) && w in Next(p, e).peers
    ensures Next(p, e).peers[w].out == p.peers[w].out + Flatten(Next(p, e).chunks)[|Flatten(p.chunks)|..]
  {
    StepInv(p, e);
    StepGrows(p, e);
    SentSince(p, Next(p, e), w);
  }

  lemma {:induction false} LeftAfter(p: Proxy, events: seq<Event>, q: Proxy, w: PeerId) returns (k: nat, m: Proxy)
    requires Inv(p) && Run(p, events, q) && w in p.watchers && w in p.peers && w in q.peers && w !in q.watchers
    ensures LeavesAt(p, events, k, m, w) && Flatten(p.chunks) <= Flatten(m.chunks)
    ensures q.peers[w].out == p.peers[w].out + Flatten(m.chunks)[|Flatten(p.chunks)|..]
    decreases |events|
  {
    var n := Next(p, events[0]);
    if w in n.watchers {
      SentNow(p, events[0], w);
      StepInv(p, events[0]);
      k, m := LeftAfter(n, events[1..], q, w);
      LaterLeave(p, events, k, m, w);
      k := k + 1;
      TwoSlices(p.peers[w].out, Flatten(p.chunks), Flatten(n.chunks), Flatten(m.chunks));
    } else {
      k, m := 0, p;
      assert events[..0] == [];
      StepRetired(p, events[0], w);
      RunRetired(n, events[1..], q, w);
    }
  }

  lemma TwoSlices(out: Bytes, a: Bytes, b: Bytes, c: Bytes)
    requires a <= b <= c
    ensures out + b[|a|..] + c[|b|..] == out + c[|a|..]
  {}

  /** Step `i` of the run, taken from `a`, is the one that admits the connection. */
  ghost predicate JoinsAt(p: Proxy, events: seq<Event>, i: nat, a: Proxy, w: PeerId) {
    i < |events| && Run(p, events[..i], a) && events[i].Accept? && events[i].peer == w
  }

  /** Exact fan-out over a whole run: whatever else connects or disconnects, a watcher was sent exactly
      the console bytes read between its registration and its deregistration. */
  lemma WhileRegistered(p: Proxy, events: seq<Event>, q: Proxy, w: PeerId)
    requires Inv(p) && Run(p, events, q) && w !in p.peers && w in q.peers
    ensures exists i, a :: JoinsAt(p, events, i, a, w) && q.peers[w].joined == |Flatten(a.chunks)|
    ensures q.peers[w].control ==> q.peers[w].out == []
    ensures w in q.watchers ==>
              q.peers[w].joined <= |Flatten(q.chunks)| && q.peers[w].out == Flatten(q.chunks)[q.peers[w].joined..]
    ensures w !in q.watchers && !q.peers[w].control ==> exists k, m ::
              && LeavesAt(p, events, k, m, w) && q.peers[w].joined <= |Flatten(m.chunks)|
              && q.peers[w].out == Flatten(m.chunks)[q.peers[w].joined..]
  {
    RunInv(p, events, q);
    SentRun(q, w);
    var i, a := JoinedWhen(p, events, q, w);
    if w !in q.watchers && !q.peers[w].control {
      var k, m := LeftWhen(p, events, q, w);
    }
  }

  lemma {:induction false} JoinedWhen(p: Proxy, events: seq<Event>, q: Proxy, w: PeerId) returns (i: nat, a: Proxy)
    requires Run(p, events, q) && w !in p.peers && w in q.peers
    ensures JoinsAt(p, events, i, a, w) && q.peers[w].joined == |Flatten(a.chunks)|
    decreases |events|
  {
    var n := Next(p, events[0]);
    if w in n.peers {
      assert events[..0] == [];
      i, a := 0, p;
      Admitted(p, events[0], w);
      RunGrows(n, events[1..], q);
    } else {
      i, a := JoinedWhen(n, events[1..], q, w);
      RunFirst(p, events, i, a);
      i := i + 1;
    }
  }

  lemma {:induction false} LeftWhen(p: Proxy, events: seq<Event>, q: Proxy, w: PeerId) returns (k: nat, m: Proxy)
    requires Inv(p) && Run(p, events, q) && w !in p.peers && w in q.peers && w !in q.watchers && !q.peers[w].control
    ensures LeavesAt(p, events, k, m, w) && q.peers[w].joined <= |Flatten(m.chunks)|
    ensures q.peers[w].out == Flatten(m.chunks)[q.peers[w].joined..]
    decreases |events|
  {
    var n := Next(p, events[0]);
    StepInv(p, events[0]);
    if w in n.peers {
      Admitted(p, events[0], w);
      RunGrows(n, events[1..], q);
      k, m := LeftAfter(n, events[1..], q, w);
    } else {
      k, m := LeftWhen(n, events[1..], q, w);
    }
    LaterLeave(p, events, k, m, w);
    k := k + 1;
  }

  lemma Admitted(p: Proxy, e: Event, w: PeerId)
    requires Enabled(p, e) && w !in p.peers && w in Next(p, e).peers
    ensures e.Accept? && e.peer == w
    ensures var peer := Next(p, e).peers[w];
      && peer.joined == |Flatten(p.chunks)| && peer.out == [] && Next(p, e).chunks == p.chunks
      && (!peer.control ==> w in Next(p, e).watchers)
  {}

  // ---- what a watcher types ------------------------------------------------------------------

  /** The watcher's bytes that an event hands to its handler. */
  function Handed(e: Event, w: PeerId): Bytes {
    match e
    case Accept(v, head) => if v == w && head != SETPORT_PREFIX then head else []
    case WatcherRead(v, data) => if v == w then data else []
    case _ => []
  }

  function Typed(events: seq<Event>, w: PeerId): Bytes {
    if events == [] then [] else Handed(events[0], w) + Typed(events[1..], w)
  }

  function GotBy(p: Proxy, w: PeerId): Bytes {
    if w in p.peers then p.peers[w].got else []
  }

  lemma StepTyped(p: Proxy, e: Event, w: PeerId)
    requires Enabled(p, e)
    ensures GotBy(Next(p, e), w) == GotBy(p, w) + Handed(e, w)
  {}

  /** Complete and in order: what _to_board has been presented with is everything the watcher's reads
      gave, starting with what was read while sniffing. */
  lemma {:induction false} GotIsTyped(p: Proxy, events: seq<Event>, q: Proxy, w: PeerId)
    requires Run(p, events, q)
    ensures GotBy(q, w) == GotBy(p, w) + Typed(events, w)
    decreases |events|
  {
    if events != [] {
      StepTyped(p, events[0], w);
      GotIsTyped(Next(p, events[0]), events[1..], q, w);
      Concat(GotBy(p, w), Handed(events[0], w), Typed(events[1..], w));
    }
  }

  lemma SentSince(p: Proxy, q: Proxy, w: PeerId)
    requires Inv(p) && Inv(q) && Grown(p, q) && w in p.peers
    ensures w in q.watchers ==> q.peers[w].out == p.peers[w].out + Flatten(q.chunks)[|Flatten(p.chunks)|..]
    ensures p.peers[w].control ==> q.peers[w].out == []
  {
    SentRun(p, w);
    SentRun(q, w);
    if w in q.watchers {
      SliceGrows(Flatten(p.chunks), Flatten(q.chunks), p.peers[w].joined);
    }
  }

  lemma SliceGrows(before: Bytes, after: Bytes, joined: nat)
    requires before <= after && joined <= |before|
    ensures after[joined..] == before[joined..] + after[|before|..]
  {}

  lemma {:induction false} RunThen(p: Proxy, events: seq<Event>, m: Proxy, e: Event)
    requires Run(p, events, m) && Enabled(m, e)
    ensures Run(p, events + [e], Next(m, e))
    decreases |events|
  {
    if events == [] {
      assert [e][1..] == [];
    } else {
      assert (events + [e])[1..] == events[1..] + [e];
      RunThen(Next(p, events[0]), events[1..], m, e);
    }
  }
}
