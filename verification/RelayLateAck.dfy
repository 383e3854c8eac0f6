/** A complete run in which a caller is told somebody else's return code: the ack of a request that
    has timed out arrives while a second request of the same name is waiting. */
module RelayLateAck {
  import opened Text
  import opened RelayText
  import opened RelayProtocol
  import opened RelayRuns
  import opened RelayClaims

  /** Nobody else is inside emit() or device_command(). */
  ghost predicate Idle(s: State) {
    s.dev == None && s.out == None
  }

  /** `s` with request `t` for `name` waiting for its ack, and nothing else changed but the pty. */
  ghost predicate Issued(s: State, q: State, t: Tid, name: string) {
    && q.threads == s.threads[t := Thread(Cmd(name), Waiting)]
    && q.dev == Some(t) && q.out == None && q.name == Some(name) && q.rc == None
    && q.log == s.log + [t] && q.acks == s.acks && q.stdin == s.stdin && q.hand == s.hand
  }

  function CommandLine(name: string): string {
    "cmd " + name + "\n"
  }

  function Schedule(t: Tid, name: string): seq<Event> {
    [Client(t, CommandLine(name))] + [TakeDev(t)] + [Register(t)] + [TakeOut(t)]
    + [Write(t, |Line(Cmd(name))|)] + [DropOut(t)]
  }

  /** `s` with request `t` for `name` at `pc`. */
  function With(s: State, t: Tid, name: string, pc: Pc): State {
    s.(threads := s.threads[t := Thread(Cmd(name), pc)])
  }

  lemma Arrives(s: State, t: Tid, name: string)
    requires t !in s.threads && ValidToken(name)
    ensures Enabled(s, Client(t, CommandLine(name)))
    ensures Next(s, Client(t, CommandLine(name))) == With(s, t, name, Blocked)
  {
    ClientCommandAccepted(name);
  }

  lemma Moves(s: State, t: Tid, name: string, pc: Pc, pc': Pc)
    ensures Goto(With(s, t, name, pc), t, pc') == With(s, t, name, pc').threads
  {}

  lemma Enters(s: State, t: Tid, name: string)
    requires s.dev == None
    ensures var b := With(s, t, name, Blocked);
            Enabled(b, TakeDev(t)) && Next(b, TakeDev(t)) == With(s.(dev := Some(t)), t, name, Granted)
  {
    Moves(s, t, name, Blocked, Granted);
  }

  lemma Registers(s: State, t: Tid, name: string)
    ensures var g := With(s, t, name, Granted);
            Enabled(g, Register(t)) && Next(g, Register(t)) == With(s.(name := Some(name), rc := None), t, name, Ready)
  {
    Moves(s, t, name, Granted, Ready);
  }

  lemma Locks(s: State, t: Tid, name: string)
    requires s.out == None
    ensures var r := With(s, t, name, Ready);
            Enabled(r, TakeOut(t)) && Next(r, TakeOut(t)) == With(s.(out := Some(t)), t, name, Writing(0))
  {
    Moves(s, t, name, Ready, Writing(0));
  }

  lemma Writes(s: State, t: Tid, name: string)
    ensures var n, w := |Line(Cmd(name))|, With(s, t, name, Writing(0));
            && Enabled(w, Write(t, n))
            && Next(w, Write(t, n)) == With(s.(pty := s.pty + Line(Cmd(name)), log := s.log + [t]), t, name, Writing(n))
  {
    Moves(s, t, name, Writing(0), Writing(|Line(Cmd(name))|));
  }

  lemma Unlocks(s: State, t: Tid, name: string)
    ensures var n := |Line(Cmd(name))|;
            var w := With(s, t, name, Writing(n));
            Enabled(w, DropOut(t)) && Next(w, DropOut(t)) == With(s.(out := None), t, name, Waiting)
  {
    Moves(s, t, name, Writing(|Line(Cmd(name))|), Waiting);
  }

  lemma Registered(s: State, t: Tid, name: string) returns (a: State)
    requires Idle(s) && t !in s.threads && ValidToken(name)
    ensures Run(s, [Client(t, CommandLine(name))] + [TakeDev(t)] + [Register(t)], With(a, t, name, Ready))
    ensures a == s.(dev := Some(t), name := Some(name), rc := None)
  {
    Arrives(s, t, name);
    RunOne(s, Client(t, CommandLine(name)));
    Enters(s, t, name);
    RunThen(s, [Client(t, CommandLine(name))], With(s, t, name, Blocked), TakeDev(t));
    var b := s.(dev := Some(t));
    Registers(b, t, name);
    RunThen(s, [Client(t, CommandLine(name))] + [TakeDev(t)], With(b, t, name, Granted), Register(t));
    a := s.(dev := Some(t), name := Some(name), rc := None);
  }

  lemma Issue(s: State, t: Tid, name: string) returns (q: State)
    requires Idle(s) && t !in s.threads && ValidToken(name)
    ensures Run(s, Schedule(t, name), q) && Issued(s, q, t, name)
  {
    var entered := [Client(t, CommandLine(name))] + [TakeDev(t)] + [Register(t)];
    var n := |Line(Cmd(name))|;
    var a := Registered(s, t, name);
    Locks(a, t, name);
    RunThen(s, entered, With(a, t, name, Ready), TakeOut(t));
    var b := a.(out := Some(t));
    Writes(b, t, name);
    RunThen(s, entered + [TakeOut(t)], With(b, t, name, Writing(0)), Write(t, n));
    var c := b.(pty := b.pty + Line(Cmd(name)), log := b.log + [t]);
    Unlocks(c, t, name);
    RunThen(s, entered + [TakeOut(t)] + [Write(t, n)], With(c, t, name, Writing(n)), DropOut(t));
    q := With(c.(out := None), t, name, Waiting);
  }

  /** The waiting request gives up and releases the lock. */
  lemma GiveUp(s: State, t: Tid) returns (q: State)
    requires At(s, t, Waiting) && s.rc == None
    ensures Run(s, GaveUp(t), q)
    ensures q == s.(threads := s.threads[t := Thread(s.threads[t].req, Done(TimedOut))], dev := None, name := None)
  {
    var a := Next(s, Look(t, true));
    q := Next(a, DropDev(t));
    RunOne(a, DropDev(t));
    Prepend(s, Look(t, true), [DropDev(t)], q);
    assert [Look(t, true)] + [DropDev(t)] == [Look(t, true), DropDev(t)];
  }

  lemma QuietRequest(t: Tid, line: string, req: Request)
    requires line != "" && ParseRequest(line) == Accepted(req) && req.Cmd?
    ensures Quiet([Client(t, line)])
  {}

  lemma ScheduleQuiet(t: Tid, name: string)
    requires ValidToken(name)
    ensures Quiet(Schedule(t, name))
  {
    ClientCommandAccepted(name);
    QuietRequest(t, CommandLine(name), Cmd(name));
    QuietThen([Client(t, CommandLine(name))], TakeDev(t));
    QuietThen([Client(t, CommandLine(name))] + [TakeDev(t)], Register(t));
    var entered := [Client(t, CommandLine(name))] + [TakeDev(t)] + [Register(t)];
    var write := Write(t, |Line(Cmd(name))|);
    QuietThen(entered, TakeOut(t));
    QuietThen(entered + [TakeOut(t)], write);
    QuietThen(entered + [TakeOut(t)] + [write], DropOut(t));
  }

  lemma QuietThen(events: seq<Event>, e: Event)
    requires Quiet(events) && !e.Client?
    ensures Quiet(events + [e])
  {
    QuietAppend(events, [e]);
  }

  lemma {:induction false} RequestsStay(s: State, events: seq<Event>, q: State, t: Tid)
    requires Run(s, events, q) && t in s.threads
    ensures t in q.threads && q.threads[t].req == s.threads[t].req
    decreases |events|
  {
    if events != [] {
      StepKept(s, events[0]);
      RequestsStay(Next(s, events[0]), events[1..], q, t);
    }
  }

  lemma QuietAppend(a: seq<Event>, b: seq<Event>)
    requires Quiet(a) && Quiet(b)
    ensures Quiet(a + b)
  {
    forall i | 0 <= i < |a + b| && (a + b)[i].Client? && (a + b)[i].line != ""
      ensures var parsed := ParseRequest((a + b)[i].line);
              parsed.Accepted? && parsed.request.Signal? ==> DeviceName(parsed.request).None?
    {
      if i < |a| {
        assert (a + b)[i] == a[i];
      } else {
        assert (a + b)[i] == b[i - |a|];
      }
    }
  }

  /** A finished request stays finished with the result it has. */
  lemma {:induction false} DoneStays(s: State, events: seq<Event>, q: State, t: Tid, r: Result)
    requires Run(s, events, q) && At(s, t, Done(r))
    ensures At(q, t, Done(r))
    decreases |events|
  {
    if events != [] {
      DoneStays(Next(s, events[0]), events[1..], q, t, r);
    }
  }

  function GaveUp(t: Tid): seq<Event> {
    [Look(t, true), DropDev(t)]
  }

  /** The first request has timed out and the second is waiting. */
  lemma SecondWaits(name: string) returns (events: seq<Event>, q: State)
    requires ValidToken(name)
    ensures Reached(events, q) && Quiet(events)
    ensures At(q, 0, Done(TimedOut)) && At(q, 1, Waiting) && q.threads[0].req == q.threads[1].req == Cmd(name)
    ensures 0 in q.log && q.acks == map[]
  {
    var a := Issue(INIT, 0, name);
    var b := GiveUp(a, 0);
    RunAppend(INIT, Schedule(0, name), a, GaveUp(0), b);
    var first := Schedule(0, name) + GaveUp(0);
    q := Issue(b, 1, name);
    RunAppend(INIT, first, b, Schedule(1, name), q);
    events := first + Schedule(1, name);
    ScheduleQuiet(0, name);
    ScheduleQuiet(1, name);
    QuietAppend(Schedule(0, name), GaveUp(0));
    QuietAppend(first, Schedule(1, name));
  }

  /** For every command name there is a run from the start, with no DEVICECMD signalled by a client,
      in which the first request times out and the second is given the first one's ack. */
  lemma LateAckMisleads(name: string) returns (events: seq<Event>, q: State, rc: nat)
    requires ValidToken(name)
    ensures Reached(events, q) && Quiet(events)
    ensures At(q, 0, Done(TimedOut)) && Answered(q, 1, Acked(rc, 0))
    ensures q.threads[0].req == q.threads[1].req == Cmd(name)
  {
    var before, p := SecondWaits(name);
    ReachedInv(before, p);
    assert Stale(p, 1, 0);
    var after;
    after, q, rc := StaleCanBeTaken(p, 1, 0);
    RunAppend(INIT, before, p, after, q);
    QuietAppend(before, after);
    DoneStays(p, after, q, 0, TimedOut);
    RequestsStay(p, after, q, 0);
    RequestsStay(p, after, q, 1);
    events := before + after;
  }
}
