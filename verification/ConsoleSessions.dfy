/** The session object of lava_mcp/gateway.py that remembers a console endpoint, and
    lava_mcp/server.py's _ensure_console_target on it. */
module ConsoleSessions {
  import opened Text
  import opened SentinelWindow
  import opened ConsoleEndpoint
  import P = ConsoleProxy
  import R = ConsoleRelay
  import opened ConsoleForwarding

  lemma {:induction false} RunThen(w: World, events: seq<Event>, m: World, e: Event)
    requires Run(w, events, m, true) && Enabled(m, e) && (e.Begin? ==> m.calls == map[])
    ensures Run(w, events + [e], Next(m, e), true)
    decreases |events|
  {
    if events == [] {
      assert [e][1..] == [];
    } else {
      assert (events + [e])[1..] == events[1..] + [e];
      RunThen(Next(w, events[0]), events[1..], m, e);
    }
  }

  function Lines(pushed: seq<Pair>): (lines: seq<Bytes>)
    ensures |lines| == |pushed| && forall i :: 0 <= i < |pushed| ==> lines[i] == SetportLine(pushed[i])
  {
    seq(|pushed|, i requires 0 <= i < |pushed| => SetportLine(pushed[i]))
  }

  /** How an attempt to write a line ends: no connection; written, but draining or closing raised;
      delivered. */
  datatype Attempt = Refused | Cut | Delivered

  /** The part of gateway.BoardSession that the console uses, with the control lines written to it. */
  class ConsoleSession {
    var consoleTarget: Option<Pair>
    var connected: bool
    var lines: seq<Bytes>
    ghost var world: World
    ghost var trace: seq<Event>

    /** The session is the server's half of a world that calls, one after the other, have reached. */
    ghost predicate Valid()
      reads this
    {
      && world.target == consoleTarget && Lines(world.pushed) == lines && world.calls == map[]
      && Run(FRESH_WORLD, trace, world, true)
    }

    /** Every line ever written carries the target. */
    ghost predicate OneTarget()
      reads this
    {
      forall i :: 0 <= i < |lines| ==> consoleTarget.Some? && lines[i] == SetportLine(consoleTarget.value)
    }

    constructor ()
      ensures Valid() && consoleTarget == None && !connected && lines == []
    {
      consoleTarget, connected, lines := None, false, [];
      world, trace := FRESH_WORLD, [];
    }

    ghost method Took(e: Event)
      requires Run(FRESH_WORLD, trace, world, true) && Enabled(world, e) && (e.Begin? ==> world.calls == map[])
      modifies this`world, this`trace
      ensures world == Next(old(world), e) && trace == old(trace) + [e]
      ensures Run(FRESH_WORLD, trace, world, true)
    {
      RunThen(FRESH_WORLD, trace, world, e);
      trace := trace + [e];
      world := Next(world, e);
    }

    /** Gateway.set_console_target */
    method SetConsoleTarget(target: Pair, attempt: Attempt) returns (delivered: bool)
      modifies this`consoleTarget, this`lines
      ensures consoleTarget == Some(target)
      ensures delivered == (connected && attempt == Delivered)
      ensures lines == if connected && attempt != Refused then old(lines) + [SetportLine(target)] else old(lines)
    {
      consoleTarget := Some(target);
      if !connected {
        return false;
      }
      if attempt == Refused {
        return false;
      }
      lines := lines + [SetportLine(target)];
      delivered := attempt == Delivered;
    }

    /** The end of a call of _ensure_console_target: its target is pushed. */
    method PushTarget(target: Pair, attempt: Attempt)
      requires Run(FRESH_WORLD, trace, world, true) && world.calls == map[0 := Pushing(target)]
      requires world.target == consoleTarget && Lines(world.pushed) == lines
      modifies this`consoleTarget, this`lines, this`world, this`trace
      ensures Valid() && OneTarget() && consoleTarget == Some(target)
      ensures lines == if connected && attempt != Refused then old(lines) + [SetportLine(target)] else old(lines)
    {
      var _ := SetConsoleTarget(target, attempt);
      Took(Push(0, connected && attempt != Refused));
      assert Lines(world.pushed) == lines;
      LinesAgree(trace, world);
    }

    method Settle(status: Discovery, attempt: Attempt)
      requires Run(FRESH_WORLD, trace, world, true) && world.calls == map[0 := Discovering]
      requires world.target == consoleTarget == None && Lines(world.pushed) == lines
      requires status.Found? ==> Sendable(status.target)
      modifies this`consoleTarget, this`lines, this`world, this`trace
      ensures Valid() && OneTarget()
      ensures consoleTarget == if status.Found? then Some(status.target) else None
      ensures lines == if status.Found? && connected && attempt != Refused
                       then old(lines) + [SetportLine(status.target)] else old(lines)
    {
      Took(Resolve(0, status));
      if status.Found? {
        consoleTarget := Some(status.target);
        assert world.calls == map[0 := Pushing(status.target)];
        PushTarget(status.target, attempt);
      } else {
        assert world.calls == map[];
        LinesAgree(trace, world);
      }
    }

    /** _ensure_console_target with nothing running beside it.  A known target never changes, and every
        line ever written carries it. */
    method EnsureConsoleTarget(job: Option<nat>, device: Lookup<string>, command: Lookup<string>, attempt: Attempt)
      returns (status: Discovery)
      requires Valid()
      modifies this`consoleTarget, this`lines, this`world, this`trace
      ensures Valid() && OneTarget()
      ensures old(consoleTarget).Some? ==> consoleTarget == old(consoleTarget) && status == Found(consoleTarget.value)
      ensures old(consoleTarget).None? ==> (
                && status == Discover(job, device, command)
                && consoleTarget == if status.Found? then Some(status.target) else None)
      ensures old(consoleTarget).None? && (job == None || device == Raised || device == Answer("") || command == Raised) ==>
                status == Pending && consoleTarget == None && lines == old(lines)
      ensures lines == if consoleTarget.Some? && connected && attempt != Refused
                       then old(lines) + [SetportLine(consoleTarget.value)] else old(lines)
    {
      DiscoverMeans(job, device, command);
      Took(Begin(0));
      if consoleTarget != None {
        status := Found(consoleTarget.value);
        assert world.calls == map[0 := Pushing(consoleTarget.value)];
        PushTarget(consoleTarget.value, attempt);
      } else {
        status := Discover(job, device, command);
        Settle(status, attempt);
      }
    }

    /** The proxy handles one of the lines.  It then has the endpoint the session's target stands for,
        or none if that has no integer as port; `ready` is set exactly when it has one. */
    ghost method LineArrives(i: nat)
      requires Valid() && i < |world.pushed|
      modifies this`world, this`trace
      ensures Valid() && consoleTarget.Some?
      ensures world.endpoint == Denoted(consoleTarget.value) && (world.ready <==> world.endpoint != P.Unset)
    {
      LinesAgree(trace, world);
      ArriveStep(world, i);
      Took(Arrive(i));
      LinesAgree(trace, world);
    }
  }

  lemma LinesAgree(events: seq<Event>, w: World)
    requires Run(FRESH_WORLD, events, w, true)
    ensures w.target.None? ==> w.pushed == []
    ensures forall i :: 0 <= i < |w.pushed| ==> w.target.Some? && w.pushed[i] == w.target.value && Sendable(w.pushed[i])
    ensures forall i :: 0 <= i < |w.pushed| ==> w.target.Some? && Lines(w.pushed)[i] == SetportLine(w.target.value)
    ensures w.target.Some? ==> w.endpoint == P.Unset || w.endpoint == Denoted(w.target.value)
    ensures w.ready <==> w.endpoint != P.Unset
  {
    SerialAgreement(events, w, [], w);
  }

  lemma LineSays(t: Pair, rest: Bytes, n: nat)
    requires Sendable(t) && t.1 == Decimal(n) && rest == t.0 + " " + t.1 + "\n"
    ensures Says(rest, t.0, n)
  {}

  /** A session's line arrives at the proxy on a connection of its own, in any pieces but without a
      timeout in it: it is taken for a control connection, and its host and port become the endpoint. */
  method LineThroughRelay(relay: R.Relay, w: P.PeerId, arrivals: seq<P.Arrival>, t: Pair)
    requires relay.Valid() && w !in relay.peers && Sendable(t)
    requires P.Uncut(arrivals) == P.Delivered(arrivals) == SetportLine(t)
    modifies relay
    ensures relay.Valid()
    ensures forall n: nat :: t.1 == Decimal(n) ==> relay.endpoint == P.Endpoint(t.0, n) && relay.ready
    ensures w in relay.peers && relay.peers[w].control && w !in relay.watchers
  {
    var head := relay.HandleWatcher(w, arrivals);
    DecodeLine(P.Unset, t);
    assert relay.peers[w].control && relay.peers[w].phase == P.Controlling;
    assert P.Delivered(relay.incoming[w]) == t.0 + " " + t.1 + "\n" by {
      assert SetportLine(t)[|P.SETPORT_PREFIX|..] == t.0 + " " + t.1 + "\n";
      assert (head + P.Delivered(relay.incoming[w]))[|head|..] == P.Delivered(relay.incoming[w]);
    }
    forall n: nat | t.1 == Decimal(n) ensures Says(P.Delivered(relay.incoming[w]), t.0, n) {
      LineSays(t, P.Delivered(relay.incoming[w]), n);
    }
    relay.HandleControl(w);
    relay.ControlNotServed(w);
  }
}
