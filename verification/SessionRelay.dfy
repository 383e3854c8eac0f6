/** interactive/lava-session-supervisor: the supervisor's own globals, updated section by section.
    A method is one critical section, one lock operation or one write; threads run them in any
    order their locks allow. */
module SessionRelay {
  import opened Text
  import opened RelayText
  import opened RelayProtocol
  import opened RelayRuns
  import opened RelayClaims

  function RcOf(r: Option<Reply>): Option<nat> {
    match r case Some(reply) => Some(reply.rc) case None => None
  }

  function AckOf(r: Option<Reply>): Option<Ack> {
    match r case Some(reply) => Some(Ack(reply.name, reply.rc)) case None => None
  }

  function Texts(inputs: seq<Input>): (texts: seq<string>)
    ensures |texts| == |inputs|
  {
    seq(|inputs|, i requires 0 <= i < |inputs| => inputs[i].text)
  }

  /** The number device_command returns: 1 when its time is up. */
  function Code(r: Result): nat {
    if r.Acked? then r.rc else 1
  }

  class Supervisor {
    var pendingName: Option<string>
    var pendingRc: Option<nat>
    var devOwner: Option<Tid>
    var outOwner: Option<Tid>
    var pty: string
    var stdin: seq<string>
    var matched: Option<Ack>   // the reader's name and rc, before its critical section
    ghost var model: State
    ghost var trace: seq<Event>

    /** The fields show what the model says they do, and the model has been reached by a run. */
    ghost predicate Valid()
      reads this
    {
      Shows() && Reached(trace, model)
    }

    ghost predicate Shows()
      reads this
    {
      && model.name == pendingName && RcOf(model.rc) == pendingRc
      && model.dev == devOwner && model.out == outOwner && model.pty == pty
      && Texts(model.stdin) == stdin && AckOf(model.hand) == matched
    }

    constructor ()
      ensures Valid() && model == INIT && trace == []
    {
      pendingName, pendingRc, devOwner, outOwner := None, None, None, None;
      pty, stdin, matched := "", [], None;
      model, trace := INIT, [];
    }

    /** Record the step the section has just taken. */
    ghost method Took(e: Event)
      requires Reached(trace, model) && Enabled(model, e)
      modifies this`model, this`trace
      ensures model == Next(old(model), e) && trace == old(trace) + [e]
      ensures Reached(trace, model)
    {
      RunThen(INIT, trace, model, e);
      trace := trace + [e];
      model := Next(model, e);
    }

    /** _handle_client up to the point where the request is carried out: a bad one is answered at
        once, a good one becomes a thread; an empty read means the client has gone. */
    method HandleClient(t: Tid, line: string) returns (reply: Option<string>)
      requires Valid() && t !in model.threads
      modifies this
      ensures Valid()
      ensures line == "" ==> reply == None && model == old(model)
      ensures line != "" ==> model == Arrive(old(model), t, line) && trace == old(trace) + [Client(t, line)]
      ensures line != "" && ParseRequest(line).Accepted? ==>
                t in model.threads && model.threads[t].req == ParseRequest(line).request
      ensures line == "" || ParseRequest(line).Refused? ==> model.threads == old(model).threads
      ensures line != "" ==> reply == (match ParseRequest(line) case Refused(text) => Some(text) case Accepted(_) => None)
    {
      if line == "" {
        return None;
      }
      match ParseRequest(line) {
        case Refused(text) => reply := Some(text);
        case Accepted(_) => reply := None;
      }
      Took(Client(t, line));
    }

    /** One of the supervisor's own lines is about to be emitted. */
    ghost method Announce(t: Tid, text: string)
      requires Valid() && Enabled(model, RelayProtocol.Announce(t, text))
      modifies this
      ensures Valid() && model == Next(old(model), RelayProtocol.Announce(t, text))
    {
      Took(RelayProtocol.Announce(t, text));
    }

    // ---- device_command ------------------------------------------------------------------

    /** `with _dev_lock:` is entered. */
    method TakeDev(t: Tid)
      requires Valid() && At(model, t, Blocked) && devOwner == None
      modifies this
      ensures Valid() && model == Next(old(model), RelayProtocol.TakeDev(t))
    {
      devOwner := Some(t);
      Took(RelayProtocol.TakeDev(t));
    }

    /** The slot is set before the marker is emitted. */
    method Register(t: Tid, name: string)
      requires Valid() && At(model, t, Granted) && model.threads[t].req == Cmd(name)
      modifies this
      ensures Valid() && model == Claim(old(model), t)
      ensures pendingName == Some(name) && pendingRc == None && pty == old(pty)
    {
      pendingName := Some(name);
      pendingRc := None;
      Took(RelayProtocol.Register(t));
    }

    /** wait_for returns because there is a return code, or because time is up; the last look at
        the slot and its clearing are one critical section. */
    method WaitOver(t: Tid, late: bool) returns (rc: nat)
      requires Valid() && At(model, t, Waiting) && (pendingRc.Some? || late)
      modifies this
      ensures Valid() && model == Settle(old(model), t)
      ensures rc == Code(Outcome(old(model.rc))) && pendingName == None
      ensures rc == (match old(pendingRc) case Some(code) => code case None => 1)
    {
      var got := pendingRc.Some?;
      rc := if got then pendingRc.value else 1;
      pendingName := None;
      Took(Look(t, late));
    }

    /** _dev_lock is released and the client is answered.  If no request of the name has timed out
        so far and no client has signalled a DEVICECMD, the answer is the return code the
        dispatcher sent for this very request. */
    method Answer(t: Tid, rc: nat) returns (reply: string)
      requires Valid() && t in model.threads && model.threads[t].pc.Leaving? && model.threads[t].req.Cmd?
      requires rc == Code(model.threads[t].pc.early)
      modifies this
      ensures Valid() && model == Next(old(model), DropDev(t))
      ensures reply == "rc " + Decimal(rc) + "\n"
      ensures !Tainted(model, model.threads[t].req.name) ==> t in model.acks && rc == model.acks[t]
    {
      devOwner := None;
      reply := "rc " + Decimal(rc) + "\n";
      Took(DropDev(t));
      Own(trace, model, t);
    }

    // ---- emit ----------------------------------------------------------------------------

    method TakeOut(t: Tid)
      requires Valid() && At(model, t, Ready) && outOwner == None
      modifies this
      ensures Valid() && model == Next(old(model), RelayProtocol.TakeOut(t))
    {
      outOwner := Some(t);
      Took(RelayProtocol.TakeOut(t));
    }

    /** Any part of the line may reach the pty before another thread runs. */
    method Write(t: Tid, text: string, done: nat, n: nat)
      requires Valid() && At(model, t, Writing(done)) && text == Line(model.threads[t].req)
      requires n > 0 && done + n <= |text|
      modifies this
      ensures Valid() && model == WriteSome(old(model), t, n)
      ensures pty == old(pty) + text[done..done + n]
    {
      pty := pty + text[done..done + n];
      Took(RelayProtocol.Write(t, n));
    }

    /** _stdout_lock is released, and a signal is answered.  The complete lines of the pty are then the
        markers of the emitted requests with their names and bodies, in emission order, and the
        dispatcher reads off exactly the device commands asked for. */
    method DropOut(t: Tid, req: Request) returns (reply: Option<string>)
      requires Valid() && IsWriting(model, t) && model.threads[t].pc.done == |Line(model.threads[t].req)|
      requires req == model.threads[t].req
      modifies this
      ensures Valid() && model == Next(old(model), RelayProtocol.DropOut(t))
      ensures WholeLines(model) && t in model.log
      ensures reply == (match req case Signal(_) => Some("ok\n") case _ => None)
    {
      outOwner := None;
      reply := if req.Signal? then Some("ok\n") else None;
      Logged(trace, model, t);
      Took(RelayProtocol.DropOut(t));
      Framed(trace, model);
    }

    // ---- _stdin_reader ---------------------------------------------------------------------

    /** A line arrives on stdin: the dispatcher's ack of a marker, or anything else. */
    method Deliver(text: string, ghost e: Event)
      requires Valid() && Enabled(model, e)
      requires e.Noise? || e.Dispatch?
      requires e.Noise? ==> text == e.text
      requires e.Dispatch? ==> text == AckText(DeviceAt(pty, e.at).value, e.rc)
      modifies this
      ensures Valid() && model == Next(old(model), e)
    {
      stdin := stdin + [text];
      Took(e);
      assert Texts(model.stdin) == stdin;
    }

    /** The reader takes a line and matches the pattern on it. */
    method ReadLine()
      requires Valid() && stdin != [] && matched == None
      modifies this
      ensures Valid() && model == Read(old(model))
    {
      matched := DecodeAck(stdin[0]);
      stdin := stdin[1..];
      DecodedIsHand(trace, model);
      ghost var was := model;
      Took(RelayProtocol.ReadLine);
      assert Texts(was.stdin)[1..] == Texts(was.stdin[1..]);
    }

    /** The reader's critical section: only an ack of the pending name is kept. */
    method Record()
      requires Valid() && matched.Some?
      modifies this
      ensures Valid() && model == Note(old(model))
      ensures pendingName == old(pendingName)
    {
      if pendingName.Some? && matched.value.name == pendingName.value {
        pendingRc := Some(matched.value.rc);
      }
      matched := None;
      Took(RelayProtocol.Record);
    }
  }

  lemma Own(events: seq<Event>, s: State, t: Tid)
    requires Reached(events, s) && t in s.threads && s.threads[t].req.Cmd? && s.threads[t].pc.Done?
    ensures Tainted(s, s.threads[t].req.name) || (t in s.acks && Code(s.threads[t].pc.result) == s.acks[t])
  {
    ReachedInv(events, s);
    var th := s.threads[t];
    assert ThreadOk(t, th, s.dev, s.out, t in s.log);
    if th.pc.result == TimedOut {
      assert TimedOutNamed(s, t, th.req.name);
    } else if !Tainted(s, th.req.name) {
      AckIsOwn(events, s, t, th.req.name, th.pc.result.rc, th.pc.result.marker);
    }
  }

  /** The pty is whole lines: the markers of the emitted requests with their names and bodies, in
      emission order, of which the dispatcher runs exactly the device commands asked for. */
  ghost predicate WholeLines(s: State) {
    && LogOk(s) && s.pty == Flat(Requests(s.threads, s.log))
    && PtyShows(s.pty, s.threads, s.log)
    && DevicesIn(Lines(s.pty)) == DevicesOf(Requests(s.threads, s.log))
    && Markers(s.pty) == Bodies(Requests(s.threads, s.log))
  }

  lemma Framed(events: seq<Event>, s: State)
    requires Reached(events, s) && s.out == None
    ensures WholeLines(s)
  {
    PtyFraming(events, s);
  }

  lemma Logged(events: seq<Event>, s: State, t: Tid)
    requires Reached(events, s) && IsWriting(s, t) && s.threads[t].pc.done == |Line(s.threads[t].req)|
    ensures t in s.log
  {
    ReachedInv(events, s);
    assert ThreadOk(t, s.threads[t], s.dev, s.out, t in s.log);
  }

  /** The reader sees an ack exactly when the model says the line acks a marker. */
  lemma DecodedIsHand(events: seq<Event>, s: State)
    requires Reached(events, s) && s.stdin != []
    ensures AckOf(Read(s).hand) == DecodeAck(s.stdin[0].text)
  {
    ReachedInv(events, s);
    assert InputOk(s, s.stdin[0]);
  }
}
