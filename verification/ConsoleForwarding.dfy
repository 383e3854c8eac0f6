/** What reaches the board, who is connected and where to, over every run of the console proxy: told
    from the events alone. */
module ConsoleForwarding {
  import opened Text
  import opened SentinelWindow
  import opened ConsoleProxy
  import opened ConsoleRuns

  // ---- which reads reach the board ---------------------------------------------------------

  /** One connection's part of the board's input. */
  function PutsOf(board: seq<Put>, w: PeerId): seq<Put> {
    if board == [] then []
    else PutsOf(board[..|board|-1], w) + if board[|board|-1].peer == w then [board[|board|-1]] else []
  }

  function AsPuts(w: PeerId, data: Bytes, to: nat): (puts: seq<Put>)
    ensures |puts| == |data| && forall i :: 0 <= i < |data| ==> puts[i] == Put(w, data[i], to)
  {
    seq(|data|, i requires 0 <= i < |data| => Put(w, data[i], to))
  }

  /** What is still to be written of a read in progress. */
  function Rest(p: Proxy, w: PeerId): seq<Put> {
    if w in p.peers then RestOf(w, p.peers[w].phase) else []
  }

  function RestOf(w: PeerId, phase: Phase): seq<Put> {
    if phase.Sending? && phase.at <= |phase.data| then AsPuts(w, phase.data[phase.at..], phase.to) else []
  }

  /** The bytes a read handed over in state `p` puts on the board: all of them, over the connection of
      that moment, if writes are enabled and the console is connected; otherwise none. */
  function Forwards(p: Proxy, e: Event, w: PeerId): seq<Put> {
    if p.gate.writable && p.writer.Some? then AsPuts(w, Handed(e, w), p.writer.value) else []
  }

  ghost function ForwardedAlong(p: Proxy, events: seq<Event>, w: PeerId): seq<Put>
    decreases |events|
  {
    if events == [] || !Enabled(p, events[0]) then []
    else Forwards(p, events[0], w) + ForwardedAlong(Next(p, events[0]), events[1..], w)
  }

  ghost predicate IsClosed(p: Proxy, w: PeerId) {
    w in p.peers && p.peers[w].phase == Closed
  }

  lemma PutsAppend(board: seq<Put>, put: Put, w: PeerId)
    ensures PutsOf(board + [put], w) == PutsOf(board, w) + if put.peer == w then [put] else []
  {
    assert (board + [put])[..|board|] == board;
  }

  lemma AsPutsSplit(w: PeerId, data: Bytes, at: nat, to: nat)
    requires at < |data|
    ensures AsPuts(w, data[at..], to) == [Put(w, data[at], to)] + AsPuts(w, data[at + 1..], to)
  {}

  /** A handler that goes on: what it has written and will write grows by what the step forwards. */
  lemma StepForwards(p: Proxy, e: Event, w: PeerId)
    requires Enabled(p, e) && !IsClosed(Next(p, e), w)
    ensures PutsOf(Next(p, e).board, w) + Rest(Next(p, e), w) == PutsOf(p.board, w) + Rest(p, w) + Forwards(p, e, w)
  {
    match e
    case SendByte(v) => ByteForwards(p, v, w);
    case WatcherRead(v, data) => ReadForwards(p, v, data, w);
    case Accept(v, head) => JoinForwards(p, v, head, w);
    case _ => assert Rest(Next(p, e), w) == Rest(p, w);
  }

  lemma AdvanceRest(w: PeerId, peer: Peer)
    requires MaySend(peer)
    ensures var Sending(data, at, to) := peer.phase;
            RestOf(w, peer.phase) == [Put(w, data[at], to)] + RestOf(w, Advance(peer).phase)
  {
    var Sending(data, at, to) := peer.phase;
    AsPutsSplit(w, data, at, to);
  }

  lemma ByteForwards(p: Proxy, v: PeerId, w: PeerId)
    requires v in p.peers && MaySend(p.peers[v])
    ensures PutsOf(Send(p, v).board, w) + Rest(Send(p, v), w) == PutsOf(p.board, w) + Rest(p, w)
  {
    var Sending(data, at, to) := p.peers[v].phase;
    PutsAppend(p.board, Put(v, data[at], to), w);
    if v == w {
      AdvanceRest(w, p.peers[w]);
      Concat(PutsOf(p.board, w), [Put(w, data[at], to)], RestOf(w, Advance(p.peers[w]).phase));
    }
  }

  lemma ReadForwards(p: Proxy, v: PeerId, data: Bytes, w: PeerId)
    requires Enabled(p, WatcherRead(v, data)) && !IsClosed(Type(p, v, data), w)
    ensures Type(p, v, data).board == p.board
    ensures Rest(Type(p, v, data), w) == Rest(p, w) + Forwards(p, WatcherRead(v, data), w)
  {
    if v == w && data != [] {
      assert data[0..] == data;
    }
  }

  lemma JoinForwards(p: Proxy, v: PeerId, head: Bytes, w: PeerId)
    requires v !in p.peers
    ensures Join(p, v, head).board == p.board
    ensures Rest(Join(p, v, head), w) == Rest(p, w) + Forwards(p, Accept(v, head), w)
  {
    if v == w {
      assert head[0..] == head;
    }
  }

  lemma StepClosed(p: Proxy, e: Event, w: PeerId)
    requires Enabled(p, e) && IsClosed(Next(p, e), w)
    ensures PutsOf(Next(p, e).board, w) == PutsOf(p.board, w)
    ensures IsClosed(p, w) ==> Forwards(p, e, w) == []
  {
    if e.SendByte? {
      var Sending(data, at, to) := p.peers[e.peer].phase;
      PutsAppend(p.board, Put(e.peer, data[at], to), w);
    }
  }

  lemma {:induction false} StaysClosed(p: Proxy, events: seq<Event>, q: Proxy, w: PeerId)
    requires Run(p, events, q) && IsClosed(p, w)
    ensures IsClosed(q, w) && PutsOf(q.board, w) == PutsOf(p.board, w)
    decreases |events|
  {
    if events != [] {
      StepClosed(p, events[0], w);
      StaysClosed(Next(p, events[0]), events[1..], q, w);
    }
  }

  /** Along every run, what a connection has put on the board, with what is left of a read in progress,
      is exactly, in order and byte by byte, the reads handed over while writes were enabled and the
      console was connected, each over the connection of that moment; the others are dropped.  Only a
      handler that has ended may have left the last of them unfinished. */
  lemma {:induction false} ExactlyForwarded(p: Proxy, events: seq<Event>, q: Proxy, w: PeerId)
    requires Run(p, events, q)
    ensures !IsClosed(q, w) ==>
              PutsOf(q.board, w) + Rest(q, w) == PutsOf(p.board, w) + Rest(p, w) + ForwardedAlong(p, events, w)
    ensures IsClosed(q, w) ==>
              PutsOf(q.board, w) <= PutsOf(p.board, w) + Rest(p, w) + ForwardedAlong(p, events, w)
    decreases |events|
  {
    if events == [] {
      assert PutsOf(p.board, w) + Rest(p, w) + [] == PutsOf(p.board, w) + Rest(p, w);
    } else {
      var n := Next(p, events[0]);
      if IsClosed(n, w) {
        StepClosed(p, events[0], w);
        StaysClosed(n, events[1..], q, w);
        Concat(PutsOf(p.board, w), Rest(p, w), ForwardedAlong(p, events, w));
      } else {
        StepForwards(p, events[0], w);
        ExactlyForwarded(n, events[1..], q, w);
        Concat(PutsOf(p.board, w) + Rest(p, w), Forwards(p, events[0], w), ForwardedAlong(n, events[1..], w));
      }
    }
  }

  /** From the start of the process: a handler waiting for its next read has put on the board exactly
      the reads that were handed over while writes were enabled and the console was connected. */
  lemma BoardIsForwarded(sentinel: Bytes, endpoint: Endpoint, events: seq<Event>, q: Proxy, w: PeerId)
    requires Reached(sentinel, endpoint, events, q) && w in q.peers && q.peers[w].phase == Watching
    ensures PutsOf(q.board, w) == ForwardedAlong(Init(sentinel, endpoint), events, w)
  {
    ExactlyForwarded(Init(sentinel, endpoint), events, q, w);
    assert PutsOf(q.board, w) + [] == PutsOf(q.board, w);
    assert [] + [] + ForwardedAlong(Init(sentinel, endpoint), events, w) == ForwardedAlong(Init(sentinel, endpoint), events, w);
  }

  // ---- read by read --------------------------------------------------------------------------

  /** The reads a step hands over, and how much of each is to be written: all or nothing. */
  function Decided(p: Proxy, e: Event, w: PeerId): seq<Unit> {
    if Handed(e, w) == [] then []
    else [Unit(Handed(e, w), if p.gate.writable && p.writer.Some? then |Handed(e, w)| else 0)]
  }

  ghost function DecidedAlong(p: Proxy, events: seq<Event>, w: PeerId): seq<Unit>
    decreases |events|
  {
    if events == [] || !Enabled(p, events[0]) then []
    else Decided(p, events[0], w) + DecidedAlong(Next(p, events[0]), events[1..], w)
  }

  /** A connection's reads, the one in progress counted as written. */
  function Settled(p: Proxy, w: PeerId): seq<Unit> {
    if w in p.peers then SettledOf(p.peers[w]) else []
  }

  function SettledOf(peer: Peer): seq<Unit> {
    var n := |peer.units|;
    if peer.phase.Sending? && n > 0
    then peer.units[..n-1] + [Unit(peer.units[n-1].data, |peer.units[n-1].data|)] else peer.units
  }

  /** The same reads, with as much written, except that the last may be cut. */
  ghost predicate CutOf(units: seq<Unit>, all: seq<Unit>) {
    units == all
    || (|units| == |all| > 0 && units[..|units|-1] == all[..|all|-1]
        && units[|units|-1].data == all[|all|-1].data && units[|units|-1].sent <= all[|all|-1].sent)
  }

  lemma HandlerUnits(p: Proxy, w: PeerId)
    requires Inv(p) && w in p.peers
    ensures UnitsOk(p.peers[w])
  {
    assert PeerOk(Flatten(p.chunks), p.gate.writable, w in p.watchers, PutBy(p.board, w), p.peers[w]);
  }

  lemma StepDecided(p: Proxy, e: Event, w: PeerId)
    requires Enabled(p, e) && !IsClosed(Next(p, e), w) && (e.SendByte? ==> UnitsOk(p.peers[e.peer]))
    ensures Settled(Next(p, e), w) == Settled(p, w) + Decided(p, e, w)
  {
    match e
    case SendByte(v) => SendDecided(p, v, w);
    case WatcherRead(v, data) => ReadDecided(p, v, data, w);
    case Accept(v, head) => JoinDecided(p, v, head, w);
    case _ => OtherDecided(p, e, w);
  }

  lemma OtherDecided(p: Proxy, e: Event, w: PeerId)
    requires Enabled(p, e) && !IsClosed(Next(p, e), w) && !e.SendByte? && !e.WatcherRead? && !e.Accept?
    ensures Settled(Next(p, e), w) == Settled(p, w) && Decided(p, e, w) == []
  {}

  lemma SendDecided(p: Proxy, v: PeerId, w: PeerId)
    requires v in p.peers && MaySend(p.peers[v]) && UnitsOk(p.peers[v])
    ensures Settled(Send(p, v), w) == Settled(p, w)
  {
    AdvanceSettled(p.peers[v]);
  }

  lemma AdvanceSettled(peer: Peer)
    requires UnitsOk(peer) && MaySend(peer)
    ensures SettledOf(Advance(peer)) == SettledOf(peer)
  {
    var n := |peer.units| - 1;
    var Sending(data, at, to) := peer.phase;
    assert peer.units[n] == Unit(data, at);
    assert peer.units[n := Unit(data, at + 1)][..n] == peer.units[..n];
    assert peer.units[n := Unit(data, |data|)] == peer.units[..n] + [Unit(data, |data|)];
  }

  lemma PresentSettled(writable: bool, writer: Option<nat>, peer: Peer, data: Bytes)
    requires data != [] && peer.phase == Watching
    ensures SettledOf(Present(writable, writer, peer, data)) ==
            SettledOf(peer) + [Unit(data, if writable && writer.Some? then |data| else 0)]
  {
    var more := peer.units + [Unit(data, 0)];
    assert more[..|more|-1] == peer.units && more[|more|-1] == Unit(data, 0);
  }

  lemma ReadDecided(p: Proxy, v: PeerId, data: Bytes, w: PeerId)
    requires Enabled(p, WatcherRead(v, data)) && !IsClosed(Type(p, v, data), w)
    ensures Settled(Type(p, v, data), w) == Settled(p, w) + Decided(p, WatcherRead(v, data), w)
  {
    if v == w && data != [] {
      PresentSettled(p.gate.writable, p.writer, p.peers[w], data);
    }
  }

  lemma JoinDecided(p: Proxy, v: PeerId, head: Bytes, w: PeerId)
    requires v !in p.peers
    ensures Settled(Join(p, v, head), w) == Settled(p, w) + Decided(p, Accept(v, head), w)
  {
    if v == w && head != SETPORT_PREFIX && head != [] {
      PresentSettled(p.gate.writable, p.writer, Joining(p, false), head);
    }
  }

  lemma ClosingCuts(peer: Peer)
    requires UnitsOk(peer)
    ensures CutOf(peer.units, SettledOf(peer))
  {
    var n := |peer.units|;
    if peer.phase.Sending? {
      assert SettledOf(peer)[..n-1] == peer.units[..n-1];
    }
  }

  lemma StepCut(p: Proxy, e: Event, w: PeerId)
    requires Enabled(p, e) && IsClosed(Next(p, e), w) && !IsClosed(p, w)
    ensures w in p.peers && Next(p, e).peers[w].units == p.peers[w].units
    ensures Decided(p, e, w) == []
  {}

  lemma {:induction false} UnitsStay(p: Proxy, events: seq<Event>, q: Proxy, w: PeerId)
    requires Run(p, events, q) && IsClosed(p, w)
    ensures IsClosed(q, w) && q.peers[w].units == p.peers[w].units && DecidedAlong(p, events, w) == []
    decreases |events|
  {
    if events != [] {
      UnitsStay(Next(p, events[0]), events[1..], q, w);
    }
  }

  lemma GoesOn(p: Proxy, e: Event, w: PeerId)
    requires Inv(p) && Enabled(p, e) && !IsClosed(Next(p, e), w)
    ensures Settled(Next(p, e), w) == Settled(p, w) + Decided(p, e, w)
  {
    if e.SendByte? {
      HandlerUnits(p, e.peer);
    }
    StepDecided(p, e, w);
  }

  lemma Closes(p: Proxy, e: Event, events: seq<Event>, q: Proxy, w: PeerId)
    requires Inv(p) && Enabled(p, e) && IsClosed(Next(p, e), w) && !IsClosed(p, w) && Run(Next(p, e), events, q)
    ensures IsClosed(q, w) && CutOf(q.peers[w].units, Settled(p, w))
    ensures Decided(p, e, w) == [] && DecidedAlong(Next(p, e), events, w) == []
  {
    StepCut(p, e, w);
    HandlerUnits(p, w);
    ClosingCuts(p.peers[w]);
    UnitsStay(Next(p, e), events, q, w);
  }

  /** Read by read: every read is written whole exactly if writes were enabled and the console connected
      when it was handed over, and otherwise not at all; only the last read of a handler that has ended
      may be cut. */
  lemma {:induction false} EveryReadDecided(p: Proxy, events: seq<Event>, q: Proxy, w: PeerId)
    requires Inv(p) && Run(p, events, q) && !IsClosed(p, w)
    ensures !IsClosed(q, w) ==> Settled(q, w) == Settled(p, w) + DecidedAlong(p, events, w)
    ensures IsClosed(q, w) ==> CutOf(q.peers[w].units, Settled(p, w) + DecidedAlong(p, events, w))
    decreases |events|
  {
    if events == [] {
      assert Settled(p, w) + [] == Settled(p, w);
    } else if IsClosed(Next(p, events[0]), w) {
      Closes(p, events[0], events[1..], q, w);
      assert Settled(p, w) + ([] + []) == Settled(p, w);
    } else {
      GoesOn(p, events[0], w);
      StepInv(p, events[0]);
      EveryReadDecided(Next(p, events[0]), events[1..], q, w);
      Concat(Settled(p, w), Decided(p, events[0], w), DecidedAlong(Next(p, events[0]), events[1..], w));
    }
  }

  // ---- connections ----------------------------------------------------------------------------

  /** The console connection after these events: the last one made, unless it has been lost since. */
  function WriterAfter(writer: Option<nat>, made: nat, events: seq<Event>): Option<nat>
    decreases |events|
  {
    if events == [] then writer
    else match events[0]
         case ConsoleUp => WriterAfter(Some(made), made + 1, events[1..])
         case ConsoleDown => WriterAfter(None, made, events[1..])
         case _ => WriterAfter(writer, made, events[1..])
  }

  lemma {:induction false} WriterIsLast(p: Proxy, events: seq<Event>, q: Proxy)
    requires Run(p, events, q)
    ensures q.writer == WriterAfter(p.writer, p.connections, events)
    decreases |events|
  {
    if events != [] {
      WriterIsLast(Next(p, events[0]), events[1..], q);
    }
  }

  /** A connection that has ended, and one that only delivers an endpoint, is not served. */
  ghost predicate OnlyWatchersServed(p: Proxy) {
    && p.watchers <= p.peers.Keys
    && forall w :: w in p.peers && (p.peers[w].phase == Closed || p.peers[w].phase == Controlling) ==> w !in p.watchers
  }

  lemma StepServed(p: Proxy, e: Event)
    requires Enabled(p, e) && OnlyWatchersServed(p)
    ensures OnlyWatchersServed(Next(p, e))
  {
    var q := Next(p, e);
    forall w | w in q.peers && (q.peers[w].phase == Closed || q.peers[w].phase == Controlling) ensures w !in q.watchers {
      match e
      case ConsoleData(data, failed) => assert q.peers[w].phase == p.peers[w].phase;
      case _ =>
    }
  }

  lemma {:induction false} ServedAreOpen(p: Proxy, events: seq<Event>, q: Proxy)
    requires Run(p, events, q) && OnlyWatchersServed(p)
    ensures OnlyWatchersServed(q)
    decreases |events|
  {
    if events != [] {
      StepServed(p, events[0]);
      ServedAreOpen(Next(p, events[0]), events[1..], q);
    }
  }

  // ---- the endpoint ---------------------------------------------------------------------------

  /** The stream starts with a control line for this endpoint. */
  predicate Says(stream: Bytes, host: string, port: nat) {
    host != "" && NoSpace(host) && host + " " + Decimal(port) + "\n" <= stream
  }

  lemma {:induction false} ReadLineStops(text: Bytes, rest: Bytes)
    requires '\n' !in text
    ensures ReadLine(text + "\n" + rest) == text + "\n"
  {
    if text == [] {
      assert text + "\n" + rest == "\n" + rest;
    } else {
      assert (text + "\n" + rest)[1..] == text[1..] + "\n" + rest;
      ReadLineStops(text[1..], rest);
    }
  }

  lemma SpokenLine(stream: Bytes, host: string, port: nat)
    requires Says(stream, host, port)
    ensures ReadLine(stream) == host + " " + Decimal(port) + "\n"
  {
    var text := host + " " + Decimal(port);
    DigitIsNoSpace(Decimal(port));
    NoSpaceNoNewline(host);
    NoSpaceNoNewline(Decimal(port));
    assert forall c :: c in text ==> c in host || c == ' ' || c in Decimal(port);
    assert stream == text + "\n" + stream[|text + "\n"|..];
    ReadLineStops(text, stream[|text + "\n"|..]);
  }

  /** A control line is obeyed: its first two words are host and port; anything less changes nothing. */
  lemma ControlSets(e: Endpoint, line: Bytes, host: string, port: nat)
    requires host != "" && NoSpace(host) && line == host + " " + Decimal(port) + "\n"
    ensures ControlEndpoint(e, line) == Endpoint(host, port)
  {
    DigitIsNoSpace(Decimal(port));
    SplitPair(host, Decimal(port));
    ParseDecimal(port);
  }

  lemma ControlIgnores(e: Endpoint, line: Bytes)
    requires |Split(line)| < 2 || ParseInt(Split(line)[1]) == None
    ensures ControlEndpoint(e, line) == e
  {}

  /** The endpoint after these events: the last valid one delivered. */
  function EndpointAfter(e: Endpoint, events: seq<Event>): Endpoint
    decreases |events|
  {
    if events == [] then e
    else
      var n := match events[0]
               case ControlLine(_, line) =>
                 if |Split(line)| >= 2 && ParseInt(Split(line)[1]).Some?
                 then Endpoint(Split(line)[0], ParseInt(Split(line)[1]).value) else e
               case _ => e;
      EndpointAfter(n, events[1..])
  }

  lemma {:induction false} EndpointRuns(p: Proxy, events: seq<Event>, q: Proxy)
    requires Run(p, events, q)
    ensures q.endpoint == EndpointAfter(p.endpoint, events)
    decreases |events|
  {
    if events != [] {
      EndpointRuns(Next(p, events[0]), events[1..], q);
    }
  }

  /** Over every run the proxy's endpoint is the last valid one delivered on a control connection, or the
      pinned one if there was none, and `endpoint_ready` is set exactly when there is one. */
  lemma EndpointIsLast(sentinel: Bytes, pinned: Endpoint, events: seq<Event>, q: Proxy)
    requires Reached(sentinel, pinned, events, q)
    ensures q.endpoint == EndpointAfter(pinned, events) && (q.ready <==> q.endpoint != Unset)
  {
    EndpointRuns(Init(sentinel, pinned), events, q);
    ReachedInv(sentinel, pinned, events, q);
  }
}
