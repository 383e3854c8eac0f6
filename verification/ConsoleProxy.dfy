/** interactive/ser2net-proxy/console-proxy.py: the console relay as a state machine.  Each
    event is the code one task runs between two awaits; a run is any interleaving of them. */
module ConsoleProxy {
  import opened Text
  import opened SentinelWindow

  // ---- the endpoint ----------------------------------------------------------------

  datatype Endpoint = Unset | Endpoint(host: string, port: int)

  /** set_endpoint: an invalid port is ignored, anything else is recorded. */
  function SetEndpoint(e: Endpoint, host: string, port: string): Endpoint {
    match ParseInt(port)
    case None => e
    case Some(n) => Endpoint(host, n)
  }

  /** The control line after the prefix: "<host> <port>\n". */
  function ControlEndpoint(e: Endpoint, line: Bytes): Endpoint {
    var words := Split(line);
    if |words| >= 2 then SetEndpoint(e, words[0], words[1]) else e
  }

  // ---- sniffing for the control prefix -------------------------------------------------

  const SETPORT_PREFIX: Bytes := "\U{0}LAVA-MCP-SETPORT "

  /** What a peer's connection delivers to successive reads. */
  datatype Arrival = Data(bytes: Bytes) | Timeout | Eof

  /** The bytes of a list of arrivals. */
  function Delivered(arrivals: seq<Arrival>): Bytes {
    if arrivals == [] then []
    else (if arrivals[0].Data? then arrivals[0].bytes else []) + Delivered(arrivals[1..])
  }

  /** The bytes that arrive before the first timeout or end of stream. */
  function Uncut(arrivals: seq<Arrival>): Bytes {
    if arrivals == [] || !arrivals[0].Data? then [] else arrivals[0].bytes + Uncut(arrivals[1..])
  }

  /** What is left of the arrivals after a read of at most `n` bytes. */
  function AfterRead(arrivals: seq<Arrival>, n: nat): seq<Arrival>
    requires arrivals != [] && arrivals[0].Data?
  {
    if |arrivals[0].bytes| <= n then arrivals[1..]
    else [Data(arrivals[0].bytes[n..])] + arrivals[1..]
  }

  lemma ReadKeeps(arrivals: seq<Arrival>, n: nat)
    requires arrivals != [] && arrivals[0].Data?
    ensures var bytes := arrivals[0].bytes;
            var chunk := Chunk(bytes, n);
            && chunk + Delivered(AfterRead(arrivals, n)) == Delivered(arrivals)
            && chunk + Uncut(AfterRead(arrivals, n)) == Uncut(arrivals)
  {
    var bytes, rest := arrivals[0].bytes, arrivals[1..];
    if |bytes| > n {
      DeliveredCons(bytes[n..], rest);
      Concat(bytes[..n], bytes[n..], Delivered(rest));
      Concat(bytes[..n], bytes[n..], Uncut(rest));
      assert bytes == bytes[..n] + bytes[n..];
    }
  }

  lemma DeliveredCons(bytes: Bytes, rest: seq<Arrival>)
    ensures Delivered([Data(bytes)] + rest) == bytes + Delivered(rest)
    ensures Uncut([Data(bytes)] + rest) == bytes + Uncut(rest)
  {
    assert ([Data(bytes)] + rest)[1..] == rest;
  }

  /** `head` has been read, `rest` is still to come, and nothing is lost. */
  ghost predicate Sniffed(arrivals: seq<Arrival>, head: Bytes, rest: seq<Arrival>) {
    && head + Delivered(rest) == Delivered(arrivals)
    && head + Uncut(rest) == Uncut(arrivals)
  }

  function Chunk(bytes: Bytes, n: nat): Bytes {
    if |bytes| <= n then bytes else bytes[..n]
  }

  lemma SniffStep(arrivals: seq<Arrival>, head: Bytes, rest: seq<Arrival>, n: nat)
    requires Sniffed(arrivals, head, rest) && rest != [] && rest[0].Data?
    ensures Sniffed(arrivals, head + Chunk(rest[0].bytes, n), AfterRead(rest, n))
  {
    var chunk := Chunk(rest[0].bytes, n);
    ReadKeeps(rest, n);
    Concat(head, chunk, Delivered(AfterRead(rest, n)));
    Concat(head, chunk, Uncut(AfterRead(rest, n)));
  }

  lemma SniffStops(arrivals: seq<Arrival>, head: Bytes, rest: seq<Arrival>, limit: nat)
    requires Sniffed(arrivals, head, rest) && |head| <= limit
    requires |head| == limit || rest == [] || !rest[0].Data?
    ensures head == if |Uncut(arrivals)| < limit then Uncut(arrivals) else Uncut(arrivals)[..limit]
    ensures rest != [] && !rest[0].Data? ==> head + Delivered(rest[1..]) == Delivered(arrivals)
  {
    assert (head + Uncut(rest))[..|head|] == head;
  }

  /** Nothing read while sniffing is lost; the head is exactly the first bytes of the peer, up to
      `limit` or to the first timeout or end of stream, however the peer's bytes were split. */
  method ReadHead(arrivals: seq<Arrival>, limit: nat) returns (head: Bytes, rest: seq<Arrival>)
    ensures head + Delivered(rest) == Delivered(arrivals)
    ensures |head| <= limit
    ensures head == if |Uncut(arrivals)| < limit then Uncut(arrivals) else Uncut(arrivals)[..limit]
  {
    head, rest := [], arrivals;
    while |head| < limit && rest != [] && rest[0].Data?
      invariant |head| <= limit && Sniffed(arrivals, head, rest)
      decreases |rest|, limit - |head|
    {
      var wanted := limit - |head|;
      SniffStep(arrivals, head, rest, wanted);
      head, rest := head + Chunk(rest[0].bytes, wanted), AfterRead(rest, wanted);
    }
    SniffStops(arrivals, head, rest, limit);
    if |head| < limit && rest != [] {
      rest := rest[1..];
    }
  }

  /** _read_control_prefix */
  method ReadControlPrefix(arrivals: seq<Arrival>) returns (head: Bytes, rest: seq<Arrival>)
    ensures head + Delivered(rest) == Delivered(arrivals)
    ensures |head| <= |SETPORT_PREFIX|
    ensures |SETPORT_PREFIX| <= |Uncut(arrivals)| ==> (head == SETPORT_PREFIX <==> SETPORT_PREFIX <= Uncut(arrivals))
  {
    head, rest := ReadHead(arrivals, |SETPORT_PREFIX|);
  }

  /** reader.read(n): the next non-empty piece of at most `n` bytes, or nothing at the end of the
      stream; it waits for as long as it takes. */
  function NextRead(arrivals: seq<Arrival>, n: nat): (Bytes, seq<Arrival>) {
    if arrivals == [] then ([], [])
    else if arrivals[0].Eof? then ([], arrivals[1..])
    else if arrivals[0].Timeout? || arrivals[0].bytes == [] then NextRead(arrivals[1..], n)
    else (Chunk(arrivals[0].bytes, n), AfterRead(arrivals, n))
  }

  lemma {:induction false} NextReadKeeps(arrivals: seq<Arrival>, n: nat)
    ensures NextRead(arrivals, n).0 + Delivered(NextRead(arrivals, n).1) == Delivered(arrivals)
  {
    if arrivals != [] {
      if arrivals[0].Timeout? || (arrivals[0].Data? && arrivals[0].bytes == []) {
        NextReadKeeps(arrivals[1..], n);
      } else if arrivals[0].Data? {
        ReadKeeps(arrivals, n);
      }
    }
  }

  /** What the peer sends before it ends its stream. */
  function BeforeEof(arrivals: seq<Arrival>): Bytes {
    if arrivals == [] || arrivals[0].Eof? then []
    else (if arrivals[0].Data? then arrivals[0].bytes else []) + BeforeEof(arrivals[1..])
  }

  /** A piece that is there is read whole, or its first `n` bytes. */
  predicate TakesFirst(arrivals: seq<Arrival>, data: Bytes, n: nat) {
    arrivals != [] && arrivals[0].Data? && arrivals[0].bytes != [] ==>
      data == if |arrivals[0].bytes| <= n then arrivals[0].bytes else arrivals[0].bytes[..n]
  }

  /** A read gives the beginning of what is still to come, the first piece or its first `n` bytes, and
      nothing only at the end of the stream. */
  lemma {:induction false} NextReadTakes(arrivals: seq<Arrival>, n: nat)
    requires n > 0
    ensures |NextRead(arrivals, n).0| <= n && NextRead(arrivals, n).0 <= BeforeEof(arrivals)
    ensures NextRead(arrivals, n).0 == [] <==> BeforeEof(arrivals) == []
    ensures TakesFirst(arrivals, NextRead(arrivals, n).0, n)
  {
    if arrivals != [] && (arrivals[0].Timeout? || (arrivals[0].Data? && arrivals[0].bytes == [])) {
      NextReadTakes(arrivals[1..], n);
    }
  }

  /** StreamReader.readline(): through the first newline, or everything. */
  function ReadLine(bytes: Bytes): Bytes {
    if bytes == [] then []
    else if bytes[0] == '\n' then ['\n']
    else [bytes[0]] + ReadLine(bytes[1..])
  }

  // ---- the shared state ------------------------------------------------------------------

  type PeerId = nat

  /** Where a connection's handler stands between two steps. */
  datatype Phase =
    | Controlling                            // waiting for the rest of the control line
    | Watching                               // waiting for the watcher's next read
    | Sending(data: Bytes, at: nat, to: nat) // in _to_board, before byte `at`; `to` is the writer it captured
    | Closed

  /** One read handed to _to_board, and how many of its bytes were written to the board. */
  datatype Unit = Unit(data: Bytes, sent: nat)

  datatype Peer = Peer(
    control: bool,
    phase: Phase,
    got: Bytes,          // every byte read from this watcher
    units: seq<Unit>,
    joined: nat,         // length of the console stream when the watcher registered
    out: Bytes           // console bytes written to it
  )

  /** One byte handed to the board: by whom, and over which console connection. */
  datatype Put = Put(peer: PeerId, byte: char, to: nat)

  datatype Proxy = Proxy(
    sentinel: Bytes,
    gate: Gate,
    chunks: seq<Bytes>,       // every non-empty console read
    writer: Option<nat>,
    connections: nat,
    endpoint: Endpoint,
    ready: bool,             // endpoint_ready
    watchers: set<PeerId>,
    peers: map<PeerId, Peer>,
    board: seq<Put>
  )

  datatype Event =
    | ConsoleUp
    | ConsoleData(data: Bytes, failed: set<PeerId>)  // `failed`: the watchers whose write raised
    | ConsoleDown
    | Accept(peer: PeerId, head: Bytes)              // sniffing is over
    | ControlLine(peer: PeerId, line: Bytes)
    | WatcherRead(peer: PeerId, data: Bytes)         // empty at end of stream
    | SendByte(peer: PeerId)
    | HandlerFails(peer: PeerId)                     // any exception in the watcher's handler

  function Init(sentinel: Bytes, endpoint: Endpoint): Proxy {
    Proxy(sentinel, Start(sentinel), [], None, 0, endpoint, endpoint != Unset, {}, map[], [])
  }

  predicate Enabled(p: Proxy, e: Event) {
    match e
    case ConsoleUp => p.ready && p.writer == None
    case ConsoleData(data, failed) => p.writer != None && data != []
    case ConsoleDown => p.writer != None
    case Accept(w, head) => w !in p.peers && |head| <= |SETPORT_PREFIX|
    case ControlLine(w, line) => w in p.peers && p.peers[w].phase == Controlling
    case WatcherRead(w, data) => w in p.peers && p.peers[w].phase == Watching
    case SendByte(w) => w in p.peers && MaySend(p.peers[w])
    case HandlerFails(w) => w in p.peers && (p.peers[w].phase == Watching || p.peers[w].phase.Sending?)
  }

  /** The entry of _to_board: the read is forwarded whole or dropped whole. */
  function Present(writable: bool, writer: Option<nat>, peer: Peer, data: Bytes): Peer
    requires data != []
  {
    var phase := if writable && writer.Some? then Sending(data, 0, writer.value) else Watching;
    peer.(got := peer.got + data, units := peer.units + [Unit(data, 0)], phase := phase)
  }

  function FanOut(peers: map<PeerId, Peer>, data: Bytes, served: set<PeerId>): map<PeerId, Peer> {
    map w | w in peers :: if w in served then peers[w].(out := peers[w].out + data) else peers[w]
  }

  /** In the middle of a read; the second half is an invariant of the loop in _to_board. */
  predicate MaySend(peer: Peer) {
    peer.phase.Sending? && peer.phase.at < |peer.phase.data| && peer.units != []
  }

  /** One byte of the current read: written, and the read is left behind after its last byte. */
  function Advance(peer: Peer): Peer
    requires MaySend(peer)
  {
    var Sending(data, at, to) := peer.phase;
    var n := |peer.units| - 1;
    peer.(units := peer.units[n := Unit(data, at + 1)],
          phase := if at + 1 < |data| then Sending(data, at + 1, to) else Watching)
  }

  function Up(p: Proxy): Proxy {
    p.(writer := Some(p.connections), connections := p.connections + 1)
  }

  function Down(p: Proxy): Proxy {
    p.(writer := None)
  }

  function Heard(p: Proxy, data: Bytes, failed: set<PeerId>): Proxy {
    p.(chunks := p.chunks + [data],
       peers := FanOut(p.peers, data, p.watchers - failed),
       watchers := p.watchers - failed,
       gate := Feed(p.sentinel, p.gate, data))
  }

  function Joining(p: Proxy, control: bool): Peer {
    Peer(control, if control then Controlling else Watching, [], [], |Flatten(p.chunks)|, [])
  }

  function Join(p: Proxy, w: PeerId, head: Bytes): Proxy {
    if head == SETPORT_PREFIX then
      p.(peers := p.peers[w := Joining(p, true)])
    else
      var peer := if head == [] then Joining(p, false) else Present(p.gate.writable, p.writer, Joining(p, false), head);
      p.(watchers := p.watchers + {w}, peers := p.peers[w := peer])
  }

  function Leave(p: Proxy, w: PeerId): Proxy
    requires w in p.peers
  {
    p.(watchers := p.watchers - {w}, peers := p.peers[w := p.peers[w].(phase := Closed)])
  }

  function Deliver(p: Proxy, w: PeerId, line: Bytes): Proxy
    requires w in p.peers
  {
    var endpoint := ControlEndpoint(p.endpoint, line);
    p.(endpoint := endpoint,
       ready := p.ready || endpoint != p.endpoint,
       peers := p.peers[w := p.peers[w].(phase := Closed)])
  }

  function Type(p: Proxy, w: PeerId, data: Bytes): Proxy
    requires w in p.peers
  {
    if data == [] then Leave(p, w)
    else p.(peers := p.peers[w := Present(p.gate.writable, p.writer, p.peers[w], data)])
  }

  function Send(p: Proxy, w: PeerId): Proxy
    requires w in p.peers && MaySend(p.peers[w])
  {
    var Sending(data, at, to) := p.peers[w].phase;
    p.(board := p.board + [Put(w, data[at], to)], peers := p.peers[w := Advance(p.peers[w])])
  }

  function Next(p: Proxy, e: Event): Proxy
    requires Enabled(p, e)
  {
    match e
    case ConsoleUp => Up(p)
    case ConsoleData(data, failed) => Heard(p, data, failed)
    case ConsoleDown => Down(p)
    case Accept(w, head) => Join(p, w, head)
    case ControlLine(w, line) => Deliver(p, w, line)
    case WatcherRead(w, data) => Type(p, w, data)
    case SendByte(w) => Send(p, w)
    case HandlerFails(w) => Leave(p, w)
  }

  /** `q` is reached from `p` by some interleaving. */
  ghost predicate Run(p: Proxy, events: seq<Event>, q: Proxy)
    decreases |events|
  {
    if events == [] then p == q
    else Enabled(p, events[0]) && Run(Next(p, events[0]), events[1..], q)
  }

  // ---- what every step keeps -----------------------------------------------------------------

  /** The concatenation of a watcher's reads. */
  function Presented(units: seq<Unit>): Bytes {
    if units == [] then [] else Presented(units[..|units|-1]) + units[|units|-1].data
  }

  predicate UnitsInRange(units: seq<Unit>) {
    forall i :: 0 <= i < |units| ==> units[i].sent <= |units[i].data|
  }

  /** What of a watcher's reads went to the board. */
  function Forwarded(units: seq<Unit>): Bytes
    requires UnitsInRange(units)
  {
    if units == [] then []
    else Forwarded(units[..|units|-1]) + units[|units|-1].data[..units[|units|-1].sent]
  }

  /** The bytes one watcher put on the board. */
  function PutBy(board: seq<Put>, w: PeerId): Bytes {
    if board == [] then []
    else
      var n := |board| - 1;
      PutBy(board[..n], w) + if board[n].peer == w then [board[n].byte] else []
  }

  predicate Whole(u: Unit) {
    u.sent == 0 || u.sent == |u.data|
  }

  /** Only the read in progress, or the last read of a closed handler, may be cut. */
  predicate UnitsOk(peer: Peer) {
    && UnitsInRange(peer.units)
    && (forall i :: 0 <= i < |peer.units| - 1 ==> Whole(peer.units[i]))
    && match peer.phase
       case Controlling => peer.units == []
       case Watching => peer.units == [] || Whole(peer.units[|peer.units|-1])
       case Sending(data, at, to) =>
         && at < |data| && peer.units != [] && peer.units[|peer.units|-1] == Unit(data, at)
       case Closed => true
  }

  predicate FanOutOk(stream: Bytes, peer: Peer, registered: bool) {
    && peer.joined + |peer.out| <= |stream|
    && peer.out == stream[peer.joined..peer.joined + |peer.out|]
    && (registered ==> peer.joined + |peer.out| == |stream|)
  }

  /** What a handler keeps about its own connection. */
  predicate HandlerOk(peer: Peer) {
    && (peer.control ==> peer.units == [] && (peer.phase == Controlling || peer.phase == Closed))
    && (!peer.control ==> peer.phase != Controlling)
    && peer.got == Presented(peer.units)
    && UnitsOk(peer)
  }

  /** What holds of one connection, given the console stream, the gate, whether the connection
      is a registered watcher, and what it has put on the board. */
  predicate PeerOk(stream: Bytes, writable: bool, registered: bool, put: Bytes, peer: Peer) {
    && HandlerOk(peer)
    && FanOutOk(stream, peer, registered)
    && (peer.control ==> !registered && peer.out == [])
    && (peer.phase.Sending? ==> writable)
    && put == Forwarded(peer.units)
  }

  predicate PeersOk(p: Proxy) {
    forall w :: w in p.peers ==>
      PeerOk(Flatten(p.chunks), p.gate.writable, w in p.watchers, PutBy(p.board, w), p.peers[w])
  }

  predicate SharedOk(p: Proxy) {
    && p.gate == After(p.sentinel, p.chunks)
    && (p.board != [] ==> p.gate.writable)
    && (p.ready <==> p.endpoint != Unset)
    && p.watchers <= p.peers.Keys
    && (forall i :: 0 <= i < |p.board| ==> p.board[i].peer in p.peers)
  }

  predicate Inv(p: Proxy) {
    SharedOk(p) && PeersOk(p)
  }

  lemma InitInv(sentinel: Bytes, endpoint: Endpoint)
    ensures Inv(Init(sentinel, endpoint))
  {}

  lemma PutByAbsent(board: seq<Put>, w: PeerId)
    requires forall i :: 0 <= i < |board| ==> board[i].peer != w
    ensures PutBy(board, w) == []
  {}

  lemma PutByOther(board: seq<Put>, put: Put, w: PeerId)
    ensures PutBy(board + [put], w) == PutBy(board, w) + if put.peer == w then [put.byte] else []
  {
    assert (board + [put])[..|board|] == board;
  }

  // One connection at a time.

  lemma Served(stream: Bytes, data: Bytes, before: bool, after: bool, registered: bool, served: bool, put: Bytes, peer: Peer)
    requires PeerOk(stream, before, registered, put, peer)
    requires (served ==> registered) && (before ==> after)
    ensures PeerOk(stream + data, after, served, put, if served then peer.(out := peer.out + data) else peer)
  {
    var end := peer.joined + |peer.out|;
    assert (stream + data)[peer.joined..end] == stream[peer.joined..end];
    if served {
      assert (stream + data)[peer.joined..end + |data|] == stream[peer.joined..] + data;
    }
  }

  /** A read none of whose bytes has been written yet. */
  lemma NewUnit(units: seq<Unit>, data: Bytes)
    requires UnitsInRange(units)
    ensures UnitsInRange(units + [Unit(data, 0)])
    ensures Presented(units + [Unit(data, 0)]) == Presented(units) + data
    ensures Forwarded(units + [Unit(data, 0)]) == Forwarded(units)
  {
    var more := units + [Unit(data, 0)];
    assert more[..|more|-1] == units;
  }

  lemma PresentsUnits(writable: bool, writer: Option<nat>, peer: Peer, data: Bytes)
    requires data != [] && peer.phase == Watching && UnitsOk(peer)
    ensures UnitsOk(Present(writable, writer, peer, data))
  {
    var n := |peer.units|;
    var more := peer.units + [Unit(data, 0)];
    NewUnit(peer.units, data);
    assert more[n] == Unit(data, 0);
    forall i | 0 <= i < |more| - 1 ensures Whole(more[i]) {
      assert more[i] == peer.units[i];
    }
  }

  lemma Presents(stream: Bytes, writable: bool, writer: Option<nat>, put: Bytes, peer: Peer, data: Bytes, registered: bool)
    requires data != [] && peer.phase == Watching
    requires PeerOk(stream, writable, registered, put, peer)
    ensures PeerOk(stream, writable, registered, put, Present(writable, writer, peer, data))
  {
    NewUnit(peer.units, data);
    PresentsUnits(writable, writer, peer, data);
    assert FanOutOk(stream, Present(writable, writer, peer, data), registered);
  }

  lemma Advances(stream: Bytes, registered: bool, put: Bytes, peer: Peer)
    requires PeerOk(stream, true, registered, put, peer) && MaySend(peer)
    ensures PeerOk(stream, true, registered, put + [peer.phase.data[peer.phase.at]], Advance(peer))
  {
    var q, n := Advance(peer), |peer.units| - 1;
    assert q.units[..n] == peer.units[..n];
    var data, at := peer.phase.data, peer.phase.at;
    assert data[..at+1] == data[..at] + [data[at]];
  }

  lemma Closes(stream: Bytes, writable: bool, registered: bool, put: Bytes, peer: Peer)
    requires PeerOk(stream, writable, registered, put, peer)
    ensures PeerOk(stream, writable, false, put, peer.(phase := Closed))
  {}

  /** A step that changes one connection and not the board keeps what holds of the others. */
  lemma OneHandler(p: Proxy, q: Proxy, w: PeerId, peer: Peer)
    requires PeersOk(p) && q.chunks == p.chunks && q.gate == p.gate && q.board == p.board
    requires q.peers == p.peers[w := peer]
    requires q.watchers - {w} == p.watchers - {w}
    requires PeerOk(Flatten(p.chunks), p.gate.writable, w in q.watchers, PutBy(p.board, w), peer)
    ensures PeersOk(q)
  {
    forall v | v in q.peers
      ensures PeerOk(Flatten(q.chunks), q.gate.writable, v in q.watchers, PutBy(q.board, v), q.peers[v])
    {
      assert v != w ==> (v in q.watchers <==> v in q.watchers - {w}) && (v in p.watchers <==> v in p.watchers - {w});
    }
  }

  lemma FanOutStep(peers: map<PeerId, Peer>, data: Bytes, served: set<PeerId>, w: PeerId)
    requires w in peers && w !in served
    ensures FanOut(peers, data, served)[w := peers[w].(out := peers[w].out + data)] == FanOut(peers, data, served + {w})
  {}

  lemma StepConsoleData(p: Proxy, data: Bytes, failed: set<PeerId>)
    requires Inv(p)
    ensures Inv(Heard(p, data, failed))
  {
    var q := Heard(p, data, failed);
    AppendRead(p.sentinel, p.chunks, data);
    forall w | w in q.peers
      ensures PeerOk(Flatten(q.chunks), q.gate.writable, w in q.watchers, PutBy(q.board, w), q.peers[w])
    {
      Served(Flatten(p.chunks), data, p.gate.writable, q.gate.writable, w in p.watchers, w in q.watchers, PutBy(p.board, w), p.peers[w]);
    }
  }

  lemma Joins(p: Proxy, w: PeerId, peer: Peer, registered: bool)
    requires Inv(p) && w !in p.peers
    requires PeerOk(Flatten(p.chunks), p.gate.writable, registered, [], peer)
    ensures Inv(p.(watchers := if registered then p.watchers + {w} else p.watchers, peers := p.peers[w := peer]))
  {
    PutByAbsent(p.board, w);
    var q := p.(watchers := if registered then p.watchers + {w} else p.watchers, peers := p.peers[w := peer]);
    OneHandler(p, q, w, peer);
  }

  lemma StepAccept(p: Proxy, w: PeerId, head: Bytes)
    requires Inv(p) && w !in p.peers
    ensures Inv(Join(p, w, head))
  {
    var stream := Flatten(p.chunks);
    if head == SETPORT_PREFIX {
      Joins(p, w, Joining(p, true), false);
    } else {
      var joining := Joining(p, false);
      if head == [] {
        Joins(p, w, joining, true);
      } else {
        Presents(stream, p.gate.writable, p.writer, [], joining, head, true);
        Joins(p, w, Present(p.gate.writable, p.writer, joining, head), true);
      }
    }
  }

  lemma StepLeave(p: Proxy, w: PeerId)
    requires Inv(p) && w in p.peers
    ensures Inv(Leave(p, w))
  {
    Closes(Flatten(p.chunks), p.gate.writable, w in p.watchers, PutBy(p.board, w), p.peers[w]);
    OneHandler(p, Leave(p, w), w, p.peers[w].(phase := Closed));
  }

  lemma StepControlLine(p: Proxy, w: PeerId, line: Bytes)
    requires Inv(p) && w in p.peers && p.peers[w].phase == Controlling
    ensures Inv(Deliver(p, w, line))
  {
    Closes(Flatten(p.chunks), p.gate.writable, w in p.watchers, PutBy(p.board, w), p.peers[w]);
    OneHandler(p, Deliver(p, w, line), w, p.peers[w].(phase := Closed));
  }

  lemma StepWatcherRead(p: Proxy, w: PeerId, data: Bytes)
    requires Inv(p) && w in p.peers && p.peers[w].phase == Watching
    ensures Inv(Type(p, w, data))
  {
    if data == [] {
      StepLeave(p, w);
    } else {
      Presents(Flatten(p.chunks), p.gate.writable, p.writer, PutBy(p.board, w), p.peers[w], data, w in p.watchers);
      OneHandler(p, Type(p, w, data), w, Present(p.gate.writable, p.writer, p.peers[w], data));
    }
  }

  lemma StepSendShared(p: Proxy, w: PeerId)
    requires SharedOk(p) && w in p.peers && MaySend(p.peers[w]) && p.gate.writable
    ensures SharedOk(Send(p, w))
  {
    var q := Send(p, w);
    assert q.peers.Keys == p.peers.Keys;
    forall i | 0 <= i < |q.board| ensures q.board[i].peer in q.peers {
      assert i < |p.board| ==> q.board[i] == p.board[i];
    }
  }

  lemma StepSendByte(p: Proxy, w: PeerId)
    requires Inv(p) && w in p.peers && MaySend(p.peers[w])
    ensures Inv(Send(p, w))
  {
    assert PeerOk(Flatten(p.chunks), p.gate.writable, w in p.watchers, PutBy(p.board, w), p.peers[w]);
    StepSendShared(p, w);
    StepSendPeers(p, w);
  }

  lemma StepSendPeers(p: Proxy, w: PeerId)
    requires PeersOk(p) && w in p.peers && MaySend(p.peers[w]) && p.gate.writable
    ensures PeersOk(Send(p, w))
  {
    var q, peer := Send(p, w), p.peers[w];
    var put := Put(w, peer.phase.data[peer.phase.at], peer.phase.to);
    forall v | v in q.peers
      ensures PeerOk(Flatten(q.chunks), q.gate.writable, v in q.watchers, PutBy(q.board, v), q.peers[v])
    {
      PutByOther(p.board, put, v);
      if v == w {
        Advances(Flatten(p.chunks), w in p.watchers, PutBy(p.board, w), peer);
      }
    }
  }

  lemma StepInv(p: Proxy, e: Event)
    requires Inv(p) && Enabled(p, e)
    ensures Inv(Next(p, e))
  {
    match e
    case ConsoleUp =>
    case ConsoleDown =>
    case ConsoleData(data, failed) => StepConsoleData(p, data, failed);
    case Accept(w, head) => StepAccept(p, w, head);
    case ControlLine(w, line) => StepControlLine(p, w, line);
    case WatcherRead(w, data) => StepWatcherRead(p, w, data);
    case SendByte(w) => StepSendByte(p, w);
    case HandlerFails(w) => StepLeave(p, w);
  }

  lemma {:induction false} RunInv(p: Proxy, events: seq<Event>, q: Proxy)
    requires Inv(p) && Run(p, events, q)
    ensures Inv(q)
    decreases |events|
  {
    if events != [] {
      StepInv(p, events[0]);
      RunInv(Next(p, events[0]), events[1..], q);
    }
  }
}
