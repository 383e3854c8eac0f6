/** interactive/ser2net-proxy/console-proxy.py as an object: every method is a step of the state machine. */
module ConsoleRelay {
  import opened Text
  import opened SentinelWindow
  import opened ConsoleProxy
  import opened ConsoleRuns
  import opened ConsoleForwarding

  lemma UpdateTwice<K, V>(m: map<K, V>, k: K, a: V, b: V)
    ensures m[k := a][k := b] == m[k := b]
  {}

  const READ_SIZE: nat := 4096

  function Pinned(pin: Option<(string, string)>): Endpoint {
    match pin case Some(t) => SetEndpoint(Unset, t.0, t.1) case None => Unset
  }

  /** The pinned endpoint is the host and the integer its port denotes. */
  lemma PinnedIs(pin: Option<(string, string)>)
    ensures pin.None? ==> Pinned(pin) == Unset
    ensures forall host, n: nat :: pin == Some((host, Decimal(n))) ==> Pinned(pin) == Endpoint(host, n)
  {
    forall host, n: nat | pin == Some((host, Decimal(n))) ensures Pinned(pin) == Endpoint(host, n) {
      ParseDecimal(n);
    }
  }

  lemma ReadyMeans(events: seq<Event>, initial: Endpoint, p: Proxy)
    requires Reached(p.sentinel, initial, events, p)
    ensures p.ready <==> p.endpoint != Unset
  {
    ReachedInv(p.sentinel, initial, events, p);
  }

  /** A control line without two words, or whose second is no integer. */
  predicate Idle(line: Bytes) {
    |Split(line)| < 2 || ParseInt(Split(line)[1]) == None
  }

  lemma LineObeyed(e: Endpoint, stream: Bytes)
    ensures forall host, n: nat :: Says(stream, host, n) ==> ControlEndpoint(e, ReadLine(stream)) == Endpoint(host, n)
    ensures Idle(ReadLine(stream)) ==> ControlEndpoint(e, ReadLine(stream)) == e
  {
    forall host, n: nat | Says(stream, host, n) ensures ControlEndpoint(e, ReadLine(stream)) == Endpoint(host, n) {
      SpokenLine(stream, host, n);
      ControlSets(e, ReadLine(stream), host, n);
    }
  }

  lemma Fresh(sentinel: Bytes, endpoint: Endpoint)
    ensures Reached(sentinel, endpoint, [], Init(sentinel, endpoint)) && AllComplete(map[], map[], map[])
    ensures Init(sentinel, endpoint) ==
            Proxy(sentinel, Gate([], sentinel == []), [], None, 0, endpoint, endpoint != Unset, {}, map[], [])
  {}

  lemma Known(events: seq<Event>, initial: Endpoint, p: Proxy)
    requires Reached(p.sentinel, initial, events, p)
    ensures p.watchers <= p.peers.Keys
  {
    ReachedInv(p.sentinel, initial, events, p);
  }

  /** Writes are enabled only after the sentinel has been shown, and then at once if all reads were
      short enough for the window. */
  lemma GateMeans(events: seq<Event>, initial: Endpoint, p: Proxy)
    requires Reached(p.sentinel, initial, events, p)
    ensures p.gate.writable ==> Contains(Flatten(p.chunks), p.sentinel)
    ensures ChunksUpTo(p.chunks, WINDOW - |p.sentinel| + 1) ==>
              (p.gate.writable <==> Contains(Flatten(p.chunks), p.sentinel))
  {
    ReachedInv(p.sentinel, initial, events, p);
    TailIsLast(p.sentinel, p.chunks);
    if ChunksUpTo(p.chunks, WINDOW - |p.sentinel| + 1) {
      ShortReadsExact(p.sentinel, p.chunks);
    }
  }

  lemma SenderMay(events: seq<Event>, initial: Endpoint, p: Proxy, w: PeerId)
    requires Reached(p.sentinel, initial, events, p) && w in p.peers && MaySend(p.peers[w])
    ensures Contains(Flatten(p.chunks), p.sentinel)
  {
    ReachedInv(p.sentinel, initial, events, p);
    assert PeerOk(Flatten(p.chunks), p.gate.writable, w in p.watchers, PutBy(p.board, w), p.peers[w]);
    GateMeans(events, initial, p);
  }

  lemma AllCaughtUp(events: seq<Event>, initial: Endpoint, p: Proxy)
    requires Reached(p.sentinel, initial, events, p)
    ensures forall w :: w in p.watchers && w in p.peers ==>
              p.peers[w].joined <= |Flatten(p.chunks)| && p.peers[w].out == Flatten(p.chunks)[p.peers[w].joined..]
  {
    ReachedInv(p.sentinel, initial, events, p);
    forall w | w in p.watchers && w in p.peers
      ensures p.peers[w].joined <= |Flatten(p.chunks)| && p.peers[w].out == Flatten(p.chunks)[p.peers[w].joined..]
    {
      SentRun(p, w);
    }
  }

  /** What one connection's handler has got, and what is still to be read, is all the peer sends. */
  predicate Complete(peer: Peer, incoming: seq<Arrival>, stream: Bytes) {
    !peer.control ==> peer.got + Delivered(incoming) == stream
  }

  lemma ReadComplete(before: Peer, after: Peer, arrivals: seq<Arrival>, n: nat, stream: Bytes)
    requires Complete(before, arrivals, stream)
    requires after.control == before.control && after.got == before.got + NextRead(arrivals, n).0
    ensures Complete(after, NextRead(arrivals, n).1, stream)
  {
    NextReadKeeps(arrivals, n);
    Concat(before.got, NextRead(arrivals, n).0, Delivered(NextRead(arrivals, n).1));
  }

  ghost predicate AllComplete(peers: map<PeerId, Peer>, incoming: map<PeerId, seq<Arrival>>, streams: map<PeerId, Bytes>) {
    && incoming.Keys == streams.Keys == peers.Keys
    && forall w :: w in peers ==> Complete(peers[w], incoming[w], streams[w])
  }

  /** One connection moves, the others keep what they got. */
  lemma OneReads(peers: map<PeerId, Peer>, incoming: map<PeerId, seq<Arrival>>, streams: map<PeerId, Bytes>,
                 w: PeerId, peer: Peer, rest: seq<Arrival>, stream: Bytes)
    requires AllComplete(peers, incoming, streams) && Complete(peer, rest, stream)
    ensures AllComplete(peers[w := peer], incoming[w := rest], streams[w := stream])
  {}

  lemma FanOutComplete(peers: map<PeerId, Peer>, incoming: map<PeerId, seq<Arrival>>, streams: map<PeerId, Bytes>,
                       data: Bytes, served: set<PeerId>)
    requires AllComplete(peers, incoming, streams)
    ensures AllComplete(FanOut(peers, data, served), incoming, streams)
  {}

  /** The module's globals, the local state of its tasks, what each peer will send, and the histories
      the claims speak of.  Every method is the code between two awaits. */
  class Relay {
    const sentinel: Bytes
    ghost const initial: Endpoint
    var tail: Bytes
    var writable: bool
    var writer: Option<nat>
    var connections: nat
    var endpoint: Endpoint
    var ready: bool
    var watchers: set<PeerId>
    var peers: map<PeerId, Peer>
    var chunks: seq<Bytes>
    var board: seq<Put>
    var incoming: map<PeerId, seq<Arrival>>   // what each connection is still to deliver
    ghost var streams: map<PeerId, Bytes>     // all that each connection delivers
    ghost var trace: seq<Event>

    ghost function View(): Proxy
      reads this
    {
      Proxy(sentinel, Gate(tail, writable), chunks, writer, connections, endpoint, ready, watchers, peers, board)
    }

    /** The object is in a state the machine reaches, so the claims about runs hold of it; and no
        byte of any peer is lost. */
    ghost predicate Valid()
      reads this
    {
      Reached(sentinel, initial, trace, View()) && AllComplete(peers, incoming, streams)
    }

    constructor (sentinel: Bytes, pin: Option<(string, string)>)
      ensures Valid() && trace == []
      ensures View() == Init(sentinel, Pinned(pin))
    {
      this.sentinel, this.initial := sentinel, Pinned(pin);
      tail, writable := [], sentinel == [];
      writer, connections := None, 0;
      endpoint, ready := Unset, false;
      watchers, peers, chunks, board, incoming := {}, map[], [], [], map[];
      streams, trace := map[], [];
      new;
      Fresh(sentinel, Pinned(pin));
      Pin(pin);
    }

    method Pin(pin: Option<(string, string)>)
      requires endpoint == Unset && !ready
      modifies this`endpoint, this`ready
      ensures endpoint == Pinned(pin) && (ready <==> endpoint != Unset)
    {
      if pin.Some? {
        RecordEndpoint(pin.value.0, pin.value.1);
      }
    }

    /** A connection that has ended or only delivers an endpoint is not served. */
    lemma ControlNotServed(w: PeerId)
      requires Valid() && w in peers && (peers[w].phase == Closed || peers[w].phase == Controlling)
      ensures w !in watchers
    {
      ServedAreOpen(Init(sentinel, initial), trace, View());
    }

    /** The machine takes the same step. */
    ghost method Log(e: Event)
      requires Reached(sentinel, initial, trace, View()) && Enabled(View(), e)
      modifies this`trace
      ensures trace == old(trace) + [e] && Reached(sentinel, initial, trace, Next(View(), e))
    {
      RunThen(Init(sentinel, initial), trace, View(), e);
      trace := trace + [e];
    }

    /** set_endpoint */
    method RecordEndpoint(host: string, port: string)
      modifies this`endpoint, this`ready
      ensures endpoint == SetEndpoint(old(endpoint), host, port)
      ensures ready == (old(ready) || endpoint != old(endpoint))
      ensures forall n: nat :: port == Decimal(n) ==> endpoint == Endpoint(host, n)
      ensures ParseInt(port) == None ==> endpoint == old(endpoint)
    {
      PinnedIs(Some((host, port)));
      var n := ParseInt(port);
      if n == None {
        return;
      }
      if endpoint == Endpoint(host, n.value) {
        return;
      }
      endpoint := Endpoint(host, n.value);
      ready := true;
    }

    method ConsoleConnected()
      requires Valid() && ready && writer == None
      modifies this`writer, this`connections, this`trace
      ensures writer == Some(old(connections)) && connections == old(connections) + 1
      ensures View() == Up(old(View())) && trace == old(trace) + [ConsoleUp]
      ensures Valid()
    {
      Log(ConsoleUp);
      writer := Some(connections);
      connections := connections + 1;
    }

    method ConsoleLost()
      requires Valid() && writer != None
      modifies this`writer, this`trace
      ensures writer == None
      ensures View() == Down(old(View())) && trace == old(trace) + [ConsoleDown]
      ensures Valid()
    {
      Log(ConsoleDown);
      writer := None;
    }

    static lemma Visit(all: set<PeerId>, failed: set<PeerId>, todo: set<PeerId>, w: PeerId)
      requires w in todo && todo <= all
      ensures w !in all - failed - todo
      ensures w in failed ==> all - (failed - todo) - {w} == all - (failed - (todo - {w}))
      ensures w in failed ==> all - failed - todo == all - failed - (todo - {w})
      ensures w !in failed ==> failed - todo == failed - (todo - {w})
      ensures w !in failed ==> (all - failed - todo) + {w} == all - failed - (todo - {w})
    {}

    /** The watchers whose write raises are discarded, the others are sent the read. */
    method SendToWatchers(data: Bytes, failed: set<PeerId>)
      requires watchers <= peers.Keys
      modifies this`watchers, this`peers
      ensures watchers == old(watchers) - failed
      ensures peers == FanOut(old(peers), data, old(watchers) - failed)
    {
      ghost var all, before := watchers, peers;
      ghost var served: set<PeerId> := {};
      var todo := watchers;
      while todo != {}
        invariant todo <= all && served == all - failed - todo
        invariant watchers == all - (failed - todo)
        invariant peers == FanOut(before, data, served)
        decreases todo
      {
        var w :| w in todo;
        Visit(all, failed, todo, w);
        todo := todo - {w};
        if w in failed {
          watchers := watchers - {w};
        } else {
          FanOutStep(before, data, served, w);
          peers := peers[w := peers[w].(out := peers[w].out + data)];
          served := served + {w};
        }
      }
    }

    /** The search for the sentinel in the last bytes of the console. */
    method WatchForSentinel(data: Bytes)
      modifies this`tail, this`writable
      ensures Gate(tail, writable) == Feed(sentinel, Gate(old(tail), old(writable)), data)
    {
      if !writable {
        tail := Last(tail + data);
        if Contains(tail, sentinel) {
          writable := true;
        }
      }
    }

    /** The body of console_reader's inner loop after one read.  Afterwards writes are enabled only if
        the console has shown the sentinel (exactly then, if all reads were short enough), and every
        registered watcher has been sent all of the console since it joined. */
    method ConsoleRead(data: Bytes, failed: set<PeerId>)
      requires Valid() && writer != None && data != []
      modifies this`chunks, this`watchers, this`peers, this`tail, this`writable, this`trace
      ensures View() == Heard(old(View()), data, failed) && trace == old(trace) + [ConsoleData(data, failed)]
      ensures Valid()
      ensures writable ==> Contains(Flatten(chunks), sentinel)
      ensures ChunksUpTo(chunks, WINDOW - |sentinel| + 1) ==> (writable <==> Contains(Flatten(chunks), sentinel))
      ensures forall w :: w in watchers && w in peers ==>
                peers[w].joined <= |Flatten(chunks)| && peers[w].out == Flatten(chunks)[peers[w].joined..]
    {
      Known(trace, initial, View());
      FanOutComplete(peers, incoming, streams, data, watchers - failed);
      Log(ConsoleData(data, failed));
      Hear(data, failed);
      GateMeans(trace, initial, View());
      AllCaughtUp(trace, initial, View());
    }

    method Hear(data: Bytes, failed: set<PeerId>)
      requires watchers <= peers.Keys
      modifies this`chunks, this`watchers, this`peers, this`tail, this`writable
      ensures View() == Heard(old(View()), data, failed)
      ensures peers == FanOut(old(peers), data, old(watchers) - failed)
    {
      chunks := chunks + [data];
      SendToWatchers(data, failed);
      WatchForSentinel(data);
    }

    /** The synchronous entry of _to_board. */
    method ToBoard(w: PeerId, data: Bytes)
      requires w in peers && data != []
      modifies this`peers
      ensures peers == old(peers)[w := Present(writable, writer, old(peers)[w], data)]
    {
      var peer := peers[w];
      var unit := Unit(data, 0);
      peer := peer.(got := peer.got + data, units := peer.units + [unit], phase := Watching);
      if writable && writer.Some? {
        peer := peer.(phase := Sending(data, 0, writer.value));
      }
      peers := peers[w := peer];
    }

    /** handle_watcher, from the connection to its second await.  With enough bytes before any timeout
        a connection is a control connection exactly if it starts with the prefix. */
    method HandleWatcher(w: PeerId, arrivals: seq<Arrival>) returns (head: Bytes)
      requires Valid() && w !in peers
      modifies this`watchers, this`peers, this`incoming, this`streams, this`trace
      ensures View() == Join(old(View()), w, head) && trace == old(trace) + [Accept(w, head)]
      ensures Valid()
      ensures streams == old(streams)[w := Delivered(arrivals)]
      ensures w in incoming && head + Delivered(incoming[w]) == Delivered(arrivals)
      ensures peers[w].control <==> head == SETPORT_PREFIX
      ensures |SETPORT_PREFIX| <= |Uncut(arrivals)| ==>
                (peers[w].control <==> SETPORT_PREFIX <= Uncut(arrivals))
    {
      var rest;
      head, rest := ReadControlPrefix(arrivals);
      Log(Accept(w, head));
      Admit(w, head);
      OneReads(old(peers), incoming, streams, w, peers[w], rest, Delivered(arrivals));
      incoming := incoming[w := rest];
      streams := streams[w := Delivered(arrivals)];
    }

    method Admit(w: PeerId, head: Bytes)
      requires w !in peers
      modifies this`peers, this`watchers
      ensures View() == Join(old(View()), w, head)
      ensures w in peers && peers == old(peers)[w := peers[w]]
      ensures peers[w].control <==> head == SETPORT_PREFIX
      ensures !peers[w].control ==> peers[w].got == head
    {
      if head == SETPORT_PREFIX {
        peers := peers[w := Peer(true, Controlling, [], [], |Flatten(chunks)|, [])];
        return;
      }
      watchers := watchers + {w};
      var joining := Peer(false, Watching, [], [], |Flatten(chunks)|, []);
      peers := peers[w := joining];
      if head != [] {
        ToBoard(w, head);
        UpdateTwice(old(peers), w, joining, Present(writable, writer, joining, head));
      }
    }

    /** The rest of a control connection: the host and port of its line become the endpoint, and the
        reader is woken; a line with less than that changes nothing. */
    method HandleControl(w: PeerId)
      requires Valid() && w in peers && peers[w].phase == Controlling
      modifies this`endpoint, this`ready, this`peers, this`trace
      ensures View() == Deliver(old(View()), w, ReadLine(Delivered(incoming[w])))
      ensures trace == old(trace) + [ControlLine(w, ReadLine(Delivered(incoming[w])))]
      ensures Valid()
      ensures forall host, n: nat :: Says(Delivered(incoming[w]), host, n) ==> endpoint == Endpoint(host, n) && ready
      ensures Idle(ReadLine(Delivered(incoming[w]))) ==> endpoint == old(endpoint) && ready == old(ready)
      ensures peers[w].phase == Closed
    {
      var line := ReadLine(Delivered(incoming[w]));
      LineObeyed(endpoint, Delivered(incoming[w]));
      Log(ControlLine(w, line));
      OneReads(peers, incoming, streams, w, peers[w].(phase := Closed), incoming[w], streams[w]);
      ControlWords(w, line);
      ReadyMeans(trace, initial, View());
    }

    method ControlWords(w: PeerId, line: Bytes)
      requires w in peers
      modifies this`endpoint, this`ready, this`peers
      ensures endpoint == ControlEndpoint(old(endpoint), line) && ready == (old(ready) || endpoint != old(endpoint))
      ensures peers == old(peers)[w := old(peers)[w].(phase := Closed)]
    {
      var words := Split(line);
      if |words| >= 2 {
        RecordEndpoint(words[0], words[1]);
      }
      peers := peers[w := peers[w].(phase := Closed)];
    }

    /** The watcher's next read: complete and in order, up to the end of its stream.  It is on its way to
        the board exactly if writes are enabled and the console is connected; at the end of the stream
        the watcher is not served any more. */
    method HandleRead(w: PeerId) returns (data: Bytes)
      requires Valid() && w in peers && peers[w].phase == Watching
      modifies this`watchers, this`peers, this`incoming, this`trace
      ensures View() == Type(old(View()), w, data) && trace == old(trace) + [WatcherRead(w, data)]
      ensures Valid()
      ensures (data, incoming[w]) == NextRead(old(incoming)[w], READ_SIZE) && incoming == old(incoming)[w := incoming[w]]
      ensures |data| <= 4096 && data <= BeforeEof(old(incoming)[w]) && (data == [] <==> BeforeEof(old(incoming)[w]) == [])
      ensures TakesFirst(old(incoming)[w], data, 4096)
      ensures data != [] ==>
                peers[w].phase == if writable && writer.Some? then Sending(data, 0, writer.value) else Watching
      ensures data == [] ==> w !in watchers && peers[w].phase == Closed
    {
      data := Receive(w);
      Log(WatcherRead(w, data));
      Take(w, data);
      ReadComplete(old(peers)[w], peers[w], old(incoming)[w], READ_SIZE, streams[w]);
      OneReads(old(peers), old(incoming), streams, w, peers[w], incoming[w], streams[w]);
      assert streams[w := streams[w]] == streams;
    }

    /** reader.read(4096) */
    method Receive(w: PeerId) returns (data: Bytes)
      requires w in incoming
      modifies this`incoming
      ensures w in incoming && (data, incoming[w]) == NextRead(old(incoming)[w], READ_SIZE)
      ensures incoming == old(incoming)[w := incoming[w]]
      ensures |data| <= 4096 && data <= BeforeEof(old(incoming)[w]) && (data == [] <==> BeforeEof(old(incoming)[w]) == [])
      ensures TakesFirst(old(incoming)[w], data, 4096)
    {
      NextReadTakes(incoming[w], READ_SIZE);
      var rest;
      var next := NextRead(incoming[w], READ_SIZE);
      data, rest := next.0, next.1;
      incoming := incoming[w := rest];
    }

    method Take(w: PeerId, data: Bytes)
      requires w in peers
      modifies this`watchers, this`peers
      ensures View() == Type(old(View()), w, data)
      ensures w in peers && peers == old(peers)[w := peers[w]]
      ensures peers[w].control == old(peers)[w].control && peers[w].got == old(peers)[w].got + data
      ensures data != [] ==>
                peers[w].phase == if writable && writer.Some? then Sending(data, 0, writer.value) else Watching
      ensures data == [] ==> w !in watchers && peers[w].phase == Closed
    {
      if data == [] {
        Deregister(w);
      } else {
        ToBoard(w, data);
      }
    }

    /** One turn of _to_board's loop.  A byte is written only after the console has shown the
        sentinel. */
    method SendOne(w: PeerId)
      requires Valid() && w in peers && MaySend(peers[w])
      modifies this`board, this`peers, this`trace
      ensures View() == Send(old(View()), w) && trace == old(trace) + [SendByte(w)]
      ensures Valid()
      ensures Contains(Flatten(chunks), sentinel)
    {
      SenderMay(trace, initial, View(), w);
      Log(SendByte(w));
      OneReads(peers, incoming, streams, w, Advance(peers[w]), incoming[w], streams[w]);
      WriteOne(w);
    }

    method WriteOne(w: PeerId)
      requires w in peers && MaySend(peers[w])
      modifies this`board, this`peers
      ensures View() == Send(old(View()), w) && peers == old(peers)[w := Advance(old(peers)[w])]
    {
      var peer := peers[w];
      var Sending(data, at, to) := peer.phase;
      board := board + [Put(w, data[at], to)];
      peers := peers[w := Advance(peer)];
    }

    /** An exception in the handler: the `finally` clause of handle_watcher. */
    method Close(w: PeerId)
      requires Valid() && w in peers && (peers[w].phase == Watching || peers[w].phase.Sending?)
      modifies this`watchers, this`peers, this`trace
      ensures View() == Leave(old(View()), w) && trace == old(trace) + [HandlerFails(w)]
      ensures w !in watchers && peers[w].phase == Closed
      ensures Valid()
    {
      Log(HandlerFails(w));
      OneReads(peers, incoming, streams, w, peers[w].(phase := Closed), incoming[w], streams[w]);
      Deregister(w);
    }

    method Deregister(w: PeerId)
      requires w in peers
      modifies this`watchers, this`peers
      ensures watchers == old(watchers) - {w} && peers == old(peers)[w := old(peers)[w].(phase := Closed)]
    {
      watchers := watchers - {w};
      peers := peers[w := peers[w].(phase := Closed)];
    }
  }
}
