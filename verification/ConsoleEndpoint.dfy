/** How a board's ser2net endpoint reaches the console proxy: lava_mcp/client.py parses the
    connection command, lava_mcp/server.py resolves and remembers the endpoint, lava_mcp/gateway.py
    writes the control line, and the proxy decodes it. */
module ConsoleEndpoint {
  import opened Text
  import opened SentinelWindow
  import opened ConsoleProxy

  /** (host, port), both as text. */
  type Pair = (string, string)

  // ---- client.py and server.py: discovery ------------------------------------------------

  function Ser2netEndpoint(cmd: string): (r: Option<Pair>)
    ensures r.Some? ==> Sendable(r.value)
  {
    var parts := Split(cmd);
    if |parts| >= 3 && parts[0] in {"telnet", "nc", "ncat"} && Contains(cmd, "ser2net") then
      assert parts[1] in parts && parts[2] in parts;
      Some((parts[1], parts[2]))
    else None
  }

  /** What split() guarantees of both fields. */
  predicate Sendable(t: Pair) {
    t.0 != "" && NoSpace(t.0) && t.1 != "" && NoSpace(t.1)
  }

  datatype Lookup<T> = Raised | Answer(value: T)
  datatype Discovery = Pending | Unsupported | Found(target: Pair)

  /** _discover_console_target; the LAVA client's two answers are parameters. */
  function Discover(job: Option<nat>, device: Lookup<string>, command: Lookup<string>): (d: Discovery)
    ensures d.Found? ==> Sendable(d.target)
  {
    if job == None then Pending
    else if device.Raised? || device.value == "" || command.Raised? then Pending
    else match Ser2netEndpoint(command.value)
         case None => Unsupported
         case Some(t) => Found(t)
  }

  // ---- gateway.py: the control line ----------------------------------------------------------

  const CONSOLE_SETPORT_PREFIX: Bytes := "\U{0}LAVA-MCP-SETPORT "

  function SetportLine(t: Pair): Bytes {
    CONSOLE_SETPORT_PREFIX + (t.0 + " " + t.1 + "\n")
  }

  lemma {:induction false} ReadLineWhole(text: Bytes)
    requires '\n' !in text
    ensures ReadLine(text + "\n") == text + "\n"
  {
    if text != [] {
      assert (text + "\n")[1..] == text[1..] + "\n";
      ReadLineWhole(text[1..]);
    }
  }

  /** Where the proxy's endpoint goes when a control line arrives. */
  function Decode(e: Endpoint, line: Bytes): Endpoint
    requires SETPORT_PREFIX <= line
  {
    ControlEndpoint(e, ReadLine(line[|SETPORT_PREFIX|..]))
  }

  lemma NoNewline(t: Pair)
    requires Sendable(t)
    ensures '\n' !in t.0 + " " + t.1
  {
    assert IsSpace('\n');
  }

  lemma DecodeLine(e: Endpoint, t: Pair)
    requires Sendable(t)
    ensures SETPORT_PREFIX <= SetportLine(t)
    ensures Decode(e, SetportLine(t)) == SetEndpoint(e, t.0, t.1)
  {
    var text := t.0 + " " + t.1;
    NoNewline(t);
    ReadLineWhole(text);
    assert SetportLine(t)[|SETPORT_PREFIX|..] == text + "\n";
    SplitPair(t.0, t.1);
  }

  lemma LineIs(t: Pair)
    ensures SetportLine(t) == "\U{0}LAVA-MCP-SETPORT " + t.0 + " " + t.1 + "\n"
  {
    var prefix := CONSOLE_SETPORT_PREFIX;
    assert prefix + (t.0 + " " + t.1 + "\n") == prefix + t.0 + " " + t.1 + "\n";
  }

  /** Every line built from a command the parser accepts is recognised by the proxy's sniffing and
      sets the endpoint to the same host and the integer the port denotes; a decimal port is the
      value of its digits, and a port that is no integer changes nothing. */
  lemma SetportRoundTrip(cmd: string, e: Endpoint)
    requires Ser2netEndpoint(cmd).Some?
    ensures var t := Ser2netEndpoint(cmd).value;
            var line := SetportLine(t);
            && line == "\U{0}LAVA-MCP-SETPORT " + t.0 + " " + t.1 + "\n" && SETPORT_PREFIX <= line
            && (ParseInt(t.1).Some? ==> Decode(e, line) == Endpoint(t.0, ParseInt(t.1).value))
            && (ParseInt(t.1).None? ==> Decode(e, line) == e)
            && (AllDigits(t.1) ==> Decode(e, line) == Endpoint(t.0, NatOf(t.1)))
  {
    var t := Ser2netEndpoint(cmd).value;
    LineIs(t);
    DecodeLine(e, t);
    if AllDigits(t.1) {
      ParseDigits(t.1);
    }
  }

  predicate Tool(word: string) {
    word == "telnet" || word == "nc" || word == "ncat"
  }

  lemma SplitThree(a: string, b: string, c: string, rest: string)
    requires Sendable((a, b)) && c != "" && NoSpace(c) && (rest == "" || IsSpace(rest[0]))
    ensures Split(a + (" " + (b + (" " + (c + rest))))) == [a, b, c] + Split(rest)
  {
    SplitFirst(c, rest);
    SplitSpaced(b, c + rest);
    SplitSpaced(a, b + (" " + (c + rest)));
  }

  /** Exactly which commands are accepted: telnet, nc or ncat, with "ser2net" somewhere in the command;
      host and port are the next two words, whatever follows them. */
  lemma CommandParsed(tool: string, host: string, port: string, rest: string)
    requires tool != "" && NoSpace(tool) && Sendable((host, port)) && (rest == "" || IsSpace(rest[0]))
    ensures var cmd := tool + (" " + (host + (" " + (port + rest))));
            Ser2netEndpoint(cmd) == if Tool(tool) && Contains(cmd, "ser2net") then Some((host, port)) else None
  {
    SplitThree(tool, host, port, rest);
  }

  /** Fewer than three words are not accepted. */
  lemma ShortCommand(a: string, b: string)
    requires Sendable((a, b))
    ensures Ser2netEndpoint("") == None && Ser2netEndpoint(a) == None && Ser2netEndpoint(a + (" " + b)) == None
  {
    SplitFirst(b, "");
    assert b + "" == b;
    SplitSpaced(a, b);
    SplitFirst(a, "");
    assert a + "" == a;
  }

  /** A well-formed ser2net command and its decimal port come out at the proxy as they went in. */
  lemma CommandRoundTrip(tool: string, host: string, port: nat, rest: string, e: Endpoint)
    requires Tool(tool) && host != "" && NoSpace(host) && (rest == "" || IsSpace(rest[0]))
    requires Contains(tool + (" " + (host + (" " + (Decimal(port) + rest)))), "ser2net")
    ensures Ser2netEndpoint(tool + (" " + (host + (" " + (Decimal(port) + rest))))) == Some((host, Decimal(port)))
    ensures SETPORT_PREFIX <= SetportLine((host, Decimal(port)))
    ensures Decode(e, SetportLine((host, Decimal(port)))) == Endpoint(host, port)
  {
    DigitIsNoSpace(Decimal(port));
    CommandParsed(tool, host, Decimal(port), rest);
    DecodeLine(e, (host, Decimal(port)));
    ParseDecimal(port);
  }

  /** Which status each answer of the LAVA client gives. */
  lemma DiscoverMeans(job: Option<nat>, device: Lookup<string>, command: Lookup<string>)
    ensures Discover(job, device, command) == Pending <==>
            job == None || device == Raised || device == Answer("") || command == Raised
    ensures job.Some? && device.Answer? && device.value != "" && command.Answer? ==>
              match Ser2netEndpoint(command.value)
              case None => Discover(job, device, command) == Unsupported
              case Some(t) => Discover(job, device, command) == Found(t)
  {}

  // ---- one session and its proxy -----------------------------------------------------------------

  /** A call of _ensure_console_target between its awaits. */
  datatype Call = Discovering | Pushing(target: Pair)

  datatype World = World(
    target: Option<Pair>,     // session.console_target
    calls: map<nat, Call>,
    pushed: seq<Pair>,        // every control line the gateway wrote
    endpoint: Endpoint,       // the proxy
    ready: bool
  )

  datatype Event =
    | Begin(call: nat)
    | Resolve(call: nat, found: Discovery)
    | Push(call: nat, written: bool)    // set_console_target; whether its line reached the proxy
    | Arrive(line: nat)                 // the proxy handles one of the lines

  const FRESH_WORLD := World(None, map[], [], Unset, false)

  predicate Enabled(w: World, e: Event) {
    match e
    case Begin(c) => c !in w.calls
    case Resolve(c, d) => c in w.calls && w.calls[c] == Discovering && (d.Found? ==> Sendable(d.target))
    case Push(c, _) => c in w.calls && w.calls[c].Pushing?
    case Arrive(i) => i < |w.pushed| && SETPORT_PREFIX <= SetportLine(w.pushed[i])
  }

  function Next(w: World, e: Event): World
    requires Enabled(w, e)
  {
    match e
    case Begin(c) =>
      w.(calls := w.calls[c := match w.target case None => Discovering case Some(t) => Pushing(t)])
    case Resolve(c, d) =>
      if d.Found? then w.(target := Some(d.target), calls := w.calls[c := Pushing(d.target)])
      else w.(calls := w.calls - {c})
    case Push(c, written) =>
      var t := w.calls[c].target;
      w.(target := Some(t), calls := w.calls - {c}, pushed := if written then w.pushed + [t] else w.pushed)
    case Arrive(i) =>
      var endpoint := Decode(w.endpoint, SetportLine(w.pushed[i]));
      w.(endpoint := endpoint, ready := w.ready || endpoint != w.endpoint)
  }

  /** `serial`: a call begins only when no other is under way. */
  ghost predicate Run(w: World, events: seq<Event>, v: World, serial: bool)
    decreases |events|
  {
    if events == [] then w == v
    else
      && Enabled(w, events[0])
      && (serial && events[0].Begin? ==> w.calls == map[])
      && Run(Next(w, events[0]), events[1..], v, serial)
  }

  /** Whatever the session and the proxy know, they know `t`. */
  ghost predicate Agrees(w: World, t: Pair) {
    && Sendable(t)
    && (w.target == None || w.target == Some(t))
    && (forall c :: c in w.calls && w.calls[c].Pushing? ==> w.calls[c].target == t)
    && (forall i :: 0 <= i < |w.pushed| ==> w.pushed[i] == t)
    && (w.endpoint == Unset || w.endpoint == SetEndpoint(Unset, t.0, t.1))
    && (w.ready <==> w.endpoint != Unset)
  }

  lemma StepAgrees(w: World, e: Event, t: Pair)
    requires Agrees(w, t) && Enabled(w, e)
    requires e.Resolve? && e.found.Found? ==> e.found.target == t
    ensures Agrees(Next(w, e), t)
    ensures w.target == Some(t) ==> Next(w, e).target == Some(t)
  {
    match e
    case Begin(c) => BeginAgrees(w, c, t);
    case Resolve(c, d) => ResolveAgrees(w, c, d, t);
    case Push(c, written) => PushAgrees(w, c, written, t);
    case Arrive(i) => ArriveAgrees(w, i, t);
  }

  lemma BeginAgrees(w: World, c: nat, t: Pair)
    requires Agrees(w, t) && c !in w.calls
    ensures Agrees(Next(w, Begin(c)), t) && Next(w, Begin(c)).target == w.target
  {}

  lemma ResolveAgrees(w: World, c: nat, d: Discovery, t: Pair)
    requires Agrees(w, t) && Enabled(w, Resolve(c, d)) && (d.Found? ==> d.target == t)
    ensures Agrees(Next(w, Resolve(c, d)), t)
    ensures w.target == Some(t) ==> Next(w, Resolve(c, d)).target == Some(t)
  {}

  lemma PushAgrees(w: World, c: nat, written: bool, t: Pair)
    requires Agrees(w, t) && Enabled(w, Push(c, written))
    ensures Agrees(Next(w, Push(c, written)), t) && Next(w, Push(c, written)).target == Some(t)
  {}

  lemma ArriveAgrees(w: World, i: nat, t: Pair)
    requires Agrees(w, t) && i < |w.pushed|
    ensures Enabled(w, Arrive(i)) && Agrees(Next(w, Arrive(i)), t) && Next(w, Arrive(i)).target == w.target
  {
    ArriveStep(w, i);
    assert SetEndpoint(w.endpoint, t.0, t.1) == w.endpoint || SetEndpoint(w.endpoint, t.0, t.1) == SetEndpoint(Unset, t.0, t.1);
  }

  /** Nothing is known yet. */
  ghost predicate Untold(w: World) {
    && w.target == None && w.pushed == [] && w.endpoint == Unset && !w.ready
    && forall c :: c in w.calls ==> w.calls[c] == Discovering
  }

  /** Calls that overlap may discover the endpoint at the same time; as long as they all find the
      same one (a job stays on its board), session, lines and proxy agree. */
  lemma {:induction false} OverlappingAgree(w: World, events: seq<Event>, v: World, t: Pair)
    requires Run(w, events, v, false) && Agrees(w, t)
    requires forall i :: 0 <= i < |events| && events[i].Resolve? && events[i].found.Found? ==> events[i].found.target == t
    ensures Agrees(v, t) && (w.target == Some(t) ==> v.target == Some(t))
    decreases |events|
  {
    if events != [] {
      StepAgrees(w, events[0], t);
      OverlappingAgree(Next(w, events[0]), events[1..], v, t);
    }
  }

  /** With calls one after the other, nothing is known or everything agrees on one endpoint. */
  ghost predicate SerialInv(w: World) {
    && |w.calls| <= 1
    && match w.target
       case None => Untold(w)
       case Some(t) => Agrees(w, t) && forall c :: c in w.calls ==> w.calls[c] == Pushing(t)
  }

  lemma StepSerial(w: World, e: Event)
    requires SerialInv(w) && Enabled(w, e) && (e.Begin? ==> w.calls == map[])
    ensures SerialInv(Next(w, e))
    ensures w.target.Some? ==> Next(w, e).target == w.target
  {
    if w.target.Some? {
      StepAgrees(w, e, w.target.value);
    } else if e.Resolve? {
      assert w.calls.Keys == {e.call} by { OnlyKey(w.calls, e.call); }
    }
    if e.Push? {
      OnlyKey(w.calls, e.call);
    }
  }

  lemma OnlyKey<V>(m: map<nat, V>, k: nat)
    requires k in m && |m| <= 1
    ensures m.Keys == {k}
  {
    assert |m.Keys - {k}| == |m.Keys| - 1;
  }

  lemma {:induction false} SerialKeeps(w: World, events: seq<Event>, v: World)
    requires Run(w, events, v, true) && SerialInv(w)
    ensures SerialInv(v) && (w.target.Some? ==> v.target == w.target)
    decreases |events|
  {
    if events != [] {
      StepSerial(w, events[0]);
      SerialKeeps(Next(w, events[0]), events[1..], v);
    }
  }

  /** Over any sequence of non-overlapping calls a session's target is set at most once, every line
      carries that pair, and a proxy told only by the gateway is unset or has exactly that endpoint;
      endpoint_ready is set exactly when an endpoint is recorded. */
  lemma SerialAgreement(events: seq<Event>, w: World, more: seq<Event>, v: World)
    requires Run(FRESH_WORLD, events, w, true) && Run(w, more, v, true)
    ensures w.target.Some? ==> v.target == w.target
    ensures v.target.Some? ==> Agrees(v, v.target.value)
    ensures v.target.None? ==> Untold(v)
    ensures v.ready <==> v.endpoint != Unset
  {
    SerialKeeps(FRESH_WORLD, events, w);
    SerialKeeps(w, more, v);
  }

  // ---- overlapping calls: exactly when ------------------------------------------------------------

  /** The endpoint a pair stands for at the proxy; Unset when its port is no integer. */
  function Denoted(t: Pair): Endpoint {
    SetEndpoint(Unset, t.0, t.1)
  }

  ghost predicate FindsIn(events: seq<Event>, found: iset<Pair>) {
    forall i :: 0 <= i < |events| && events[i].Resolve? && events[i].found.Found? ==> events[i].found.target in found
  }

  /** A state that calls can reach, overlapping or not, when discovery only finds pairs in `found`. */
  ghost predicate Reaches(found: iset<Pair>, events: seq<Event>, v: World) {
    Run(FRESH_WORLD, events, v, false) && FindsIn(events, found)
  }

  ghost predicate AllAgree(v: World) {
    v.target.Some? ==> Agrees(v, v.target.value)
  }

  /** The proxy has no endpoint yet, or the one the session's target stands for. */
  ghost predicate ProxyAgrees(v: World) {
    v.endpoint == Unset || (v.target.Some? && v.endpoint == Denoted(v.target.value))
  }

  /** Everything known comes from `found`. */
  ghost predicate Told(w: World, found: iset<Pair>) {
    && (w.target.Some? ==> w.target.value in found)
    && (forall c :: c in w.calls && w.calls[c].Pushing? ==> w.calls[c].target in found)
    && (forall i :: 0 <= i < |w.pushed| ==> w.pushed[i] in found && Sendable(w.pushed[i]))
    && (forall c :: c in w.calls && w.calls[c].Pushing? ==> Sendable(w.calls[c].target))
    && (w.target.Some? ==> Sendable(w.target.value))
    && (w.pushed != [] ==> w.target.Some?)
    && (w.endpoint == Unset || exists t :: t in found && w.target.Some? && w.endpoint == Denoted(t))
  }

  lemma StepTold(w: World, e: Event, found: iset<Pair>)
    requires Told(w, found) && Enabled(w, e)
    requires e.Resolve? && e.found.Found? ==> e.found.target in found
    ensures Told(Next(w, e), found)
  {
    if e.Arrive? {
      ArriveStep(w, e.line);
      ArriveTold(w, e.line, found);
    }
  }

  lemma ArriveTold(w: World, i: nat, found: iset<Pair>)
    requires Told(w, found) && i < |w.pushed|
    ensures var endpoint := SetEndpoint(w.endpoint, w.pushed[i].0, w.pushed[i].1);
      endpoint == Unset || exists t :: t in found && w.target.Some? && endpoint == Denoted(t)
  {
    var t := w.pushed[i];
    assert SetEndpoint(w.endpoint, t.0, t.1) == w.endpoint || SetEndpoint(w.endpoint, t.0, t.1) == Denoted(t);
  }

  lemma {:induction false} RunTold(w: World, events: seq<Event>, v: World, found: iset<Pair>)
    requires Run(w, events, v, false) && FindsIn(events, found) && Told(w, found)
    ensures Told(v, found)
    decreases |events|
  {
    if events != [] {
      StepTold(w, events[0], found);
      RunTold(Next(w, events[0]), events[1..], v, found);
    }
  }

  /** Session, control lines and proxy agree in every state that overlapping calls can reach if and only
      if discovery can find no two different pairs. */
  lemma OverlapAgreeIff(found: iset<Pair>)
    requires forall t :: t in found ==> Sendable(t)
    ensures (forall events, v :: Reaches(found, events, v) ==> AllAgree(v))
            <==> (forall a, b :: a in found && b in found ==> a == b)
  {
    if a, b :| a in found && b in found && a != b {
      var events, v := TwoTargets(a, b);
      assert Reaches(found, events, v) && v.pushed[0] == a && !AllAgree(v);
    } else {
      forall events, v | Reaches(found, events, v) ensures AllAgree(v) {
        RunTold(FRESH_WORLD, events, v, found);
        if v.target.Some? {
          OverlappingAgree(FRESH_WORLD, events, v, v.target.value);
        }
      }
    }
  }

  /** The proxy's endpoint never differs from what the session's target stands for if and only if all
      pairs that discovery can find stand for the same endpoint (or none has an integer as port). */
  lemma OverlapProxyIff(found: iset<Pair>)
    requires forall t :: t in found ==> Sendable(t)
    ensures (forall events, v :: Reaches(found, events, v) ==> ProxyAgrees(v))
            <==> (forall a, b :: a in found && b in found ==> Denoted(a) == Denoted(b))
  {
    if a, b :| a in found && b in found && Denoted(a) != Denoted(b) {
      if Denoted(a) != Unset {
        ProxyDisagrees(found, a, b);
      } else {
        ProxyDisagrees(found, b, a);
      }
    } else {
      forall events, v | Reaches(found, events, v) ensures ProxyAgrees(v) {
        RunTold(FRESH_WORLD, events, v, found);
      }
    }
  }

  lemma ProxyDisagrees(found: iset<Pair>, a: Pair, b: Pair)
    requires a in found && b in found && Sendable(a) && Sendable(b)
    requires Denoted(a) != Unset && Denoted(a) != Denoted(b)
    ensures exists events, v :: Reaches(found, events, v) && !ProxyAgrees(v)
  {
    var events, v := OverlapRun(a, b, Denoted(a));
    FindsBoth(found, events, a, b);
    assert v.endpoint == Denoted(a) && v.target == Some(b);
    assert Reaches(found, events, v);
  }

  lemma FindsBoth(found: iset<Pair>, events: seq<Event>, a: Pair, b: Pair)
    requires a in found && b in found && FindsTwo(events, a, b)
    ensures FindsIn(events, found)
  {}

  ghost predicate FindsTwo(events: seq<Event>, a: Pair, b: Pair) {
    FindsIn(events, iset{a, b})
  }

  lemma FindsMore(e: Event, events: seq<Event>, a: Pair, b: Pair)
    requires FindsTwo(events, a, b)
    requires e.Resolve? && e.found.Found? ==> e.found.target == a || e.found.target == b
    ensures FindsTwo([e] + events, a, b)
  {
    forall i | 0 <= i < |[e] + events| && ([e] + events)[i].Resolve? && ([e] + events)[i].found.Found?
      ensures ([e] + events)[i].found.target in iset{a, b}
    {
      assert i > 0 ==> ([e] + events)[i] == events[i - 1];
    }
  }

  /** Two overlapping calls that find `a` and then `b`: a line with `a` is on its way, and `b` is the
      target. */
  lemma TwoTargets(a: Pair, b: Pair) returns (events: seq<Event>, v: World)
    requires Sendable(a) && Sendable(b)
    ensures Run(FRESH_WORLD, events, v, false) && FindsTwo(events, a, b)
    ensures v == World(Some(b), map[1 := Pushing(b)], [a], Unset, false)
  {
    var w3 := World(Some(a), map[0 := Pushing(a), 1 := Discovering], [], Unset, false);
    var w4 := World(Some(a), map[1 := Discovering], [a], Unset, false);
    v := World(Some(b), map[1 := Pushing(b)], [a], Unset, false);
    Prepend(w4, Resolve(1, Found(b)), v, [], v);
    FindsMore(Resolve(1, Found(b)), [], a, b);
    PushStep(a, w3, w4);
    Prepend(w3, Push(0, true), w4, [Resolve(1, Found(b))] + [], v);
    FindsMore(Push(0, true), [Resolve(1, Found(b))] + [], a, b);
    events := OverlapBegins(a, b, w3, [Push(0, true)] + ([Resolve(1, Found(b))] + []), v);
  }

  /** The same, with the line handled by the proxy in between. */
  lemma OverlapRun(a: Pair, b: Pair, told: Endpoint) returns (events: seq<Event>, v: World)
    requires Sendable(a) && Sendable(b) && told == Denoted(a) && told != Unset
    ensures Run(FRESH_WORLD, events, v, false) && FindsTwo(events, a, b)
    ensures v == World(Some(b), map[1 := Pushing(b)], [a], told, true)
  {
    var w3 := World(Some(a), map[0 := Pushing(a), 1 := Discovering], [], Unset, false);
    var w4 := World(Some(a), map[1 := Discovering], [a], Unset, false);
    v := World(Some(b), map[1 := Pushing(b)], [a], told, true);
    var last := [Arrive(0)] + ([Resolve(1, Found(b))] + []);
    ToldStep(a, w4, told);
    OverlapEnds(w4, Arrive(0), a, b, told, v);
    PushStep(a, w3, w4);
    Prepend(w3, Push(0, true), w4, last, v);
    FindsMore(Push(0, true), last, a, b);
    events := OverlapBegins(a, b, w3, [Push(0, true)] + last, v);
  }

  lemma ToldStep(a: Pair, w4: World, told: Endpoint)
    requires Sendable(a) && told == SetEndpoint(Unset, a.0, a.1) && told != Unset
    requires w4 == World(Some(a), map[1 := Discovering], [a], Unset, false)
    ensures Enabled(w4, Arrive(0)) && Next(w4, Arrive(0)) == w4.(endpoint := told, ready := true)
  {
    ArriveStep(w4, 0);
  }

  lemma PushStep(a: Pair, w3: World, w4: World)
    requires w3 == World(Some(a), map[0 := Pushing(a), 1 := Discovering], [], Unset, false)
    requires w4 == World(Some(a), map[1 := Discovering], [a], Unset, false)
    ensures Enabled(w3, Push(0, true)) && Next(w3, Push(0, true)) == w4
  {
    DropFirst(Pushing(a), Discovering);
  }

  lemma OverlapEnds(w4: World, e: Event, a: Pair, b: Pair, told: Endpoint, v: World)
    requires Sendable(b) && w4 == World(Some(a), map[1 := Discovering], [a], Unset, false)
    requires Enabled(w4, e) && Next(w4, e) == w4.(endpoint := told, ready := true)
    requires v == World(Some(b), map[1 := Pushing(b)], [a], told, true) && e.Arrive?
    ensures Run(w4, [e] + ([Resolve(1, Found(b))] + []), v, false)
    ensures FindsTwo([e] + ([Resolve(1, Found(b))] + []), a, b)
  {
    FindsMore(Resolve(1, Found(b)), [], a, b);
    FindsMore(e, [Resolve(1, Found(b))] + [], a, b);
    var w5 := w4.(endpoint := told, ready := true);
    Prepend(w5, Resolve(1, Found(b)), v, [], v);
    Prepend(w4, e, w5, [Resolve(1, Found(b))] + [], v);
  }

  lemma ArriveStep(w: World, i: nat)
    requires i < |w.pushed| && Sendable(w.pushed[i])
    ensures Enabled(w, Arrive(i))
    ensures var endpoint := SetEndpoint(w.endpoint, w.pushed[i].0, w.pushed[i].1);
            Next(w, Arrive(i)) == w.(endpoint := endpoint, ready := w.ready || endpoint != w.endpoint)
  {
    DecodeLine(w.endpoint, w.pushed[i]);
  }

  /** What the proxy makes of the line is its own step on a control connection. */
  lemma ArriveIsDeliver(w: World, i: nat, p: Proxy, c: PeerId)
    requires i < |w.pushed| && Sendable(w.pushed[i]) && c in p.peers && p.endpoint == w.endpoint && p.ready == w.ready
    ensures Enabled(w, Arrive(i))
    ensures var q := Deliver(p, c, ReadLine(SetportLine(w.pushed[i])[|SETPORT_PREFIX|..]));
            q.endpoint == Next(w, Arrive(i)).endpoint && q.ready == Next(w, Arrive(i)).ready
  {
    DecodeLine(w.endpoint, w.pushed[i]);
  }

  lemma DropFirst<V>(x: V, y: V)
    ensures map[0 := x, 1 := y] - {0} == map[1 := y]
  {}

  lemma OverlapBegins(a: Pair, b: Pair, w3: World, events: seq<Event>, v: World) returns (all: seq<Event>)
    requires Sendable(a) && w3 == World(Some(a), map[0 := Pushing(a), 1 := Discovering], [], Unset, false)
    requires Run(w3, events, v, false) && FindsTwo(events, a, b)
    ensures Run(FRESH_WORLD, all, v, false) && FindsTwo(all, a, b)
  {
    var w1 := World(None, map[0 := Discovering], [], Unset, false);
    var w2 := World(None, map[0 := Discovering, 1 := Discovering], [], Unset, false);
    ResolveStep(a, w2, w3);
    Prepend(w2, Resolve(0, Found(a)), w3, events, v);
    FindsMore(Resolve(0, Found(a)), events, a, b);
    all := [Resolve(0, Found(a))] + events;
    Prepend(w1, Begin(1), w2, all, v);
    FindsMore(Begin(1), all, a, b);
    all := [Begin(1)] + all;
    Prepend(FRESH_WORLD, Begin(0), w1, all, v);
    FindsMore(Begin(0), all, a, b);
    all := [Begin(0)] + all;
  }

  lemma ResolveStep(a: Pair, w2: World, w3: World)
    requires Sendable(a)
    requires w2 == World(None, map[0 := Discovering, 1 := Discovering], [], Unset, false)
    requires w3 == World(Some(a), map[0 := Pushing(a), 1 := Discovering], [], Unset, false)
    ensures Enabled(w2, Resolve(0, Found(a))) && Next(w2, Resolve(0, Found(a))) == w3
  {}

  lemma Prepend(w: World, e: Event, next: World, events: seq<Event>, v: World)
    requires Enabled(w, e) && Next(w, e) == next && Run(next, events, v, false)
    ensures Run(w, [e] + events, v, false)
  {
    assert ([e] + events)[1..] == events;
  }
}
