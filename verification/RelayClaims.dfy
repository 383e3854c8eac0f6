/** What the supervisor's relay promises its clients, over every interleaving. */
module RelayClaims {
  import opened Text
  import opened RelayText
  import opened RelayProtocol
  import opened RelayRuns

  ghost predicate Reached(events: seq<Event>, s: State) {
    Run(INIT, events, s)
  }

  lemma ReachedInv(events: seq<Event>, s: State)
    requires Reached(events, s)
    ensures Inv(s) && AttributedOk(s)
  {
    RunInv(INIT, events, s);
  }

  ghost predicate Answered(s: State, t: Tid, r: Result) {
    t in s.threads && (s.threads[t].pc == Leaving(r) || s.threads[t].pc == Done(r))
  }

  // ---- the slot and the pty --------------------------------------------------------------

  /** At most one thread is inside device_command's lock, and _pending_name is set exactly while
      that thread is between registering and its last look, to its own name. */
  lemma SlotOwnership(events: seq<Event>, s: State)
    requires Reached(events, s)
    ensures forall t, u :: t in s.threads && u in s.threads && HoldsDev(s.threads[t]) && HoldsDev(s.threads[u]) ==> t == u
    ensures forall t :: t in s.threads && InSlot(s.threads[t]) ==> s.name == Some(s.threads[t].req.name)
    ensures s.name.Some? ==> exists t :: t in s.threads && InSlot(s.threads[t])
  {
    ReachedInv(events, s);
    forall t | t in s.threads && HoldsDev(s.threads[t]) ensures s.dev == Some(t) {
      assert ThreadOk(t, s.threads[t], s.dev, s.out, t in s.log);
    }
  }

  /** The names of the device commands that the dispatcher reads on these lines, in order. */
  function DevicesIn(lines: seq<string>): seq<string> {
    if lines == [] then []
    else (match DeviceIn(lines[0]) case Some(name) => [name] case None => []) + DevicesIn(lines[1..])
  }

  /** The names of the device commands these requests ask for, in order. */
  function DevicesOf(requests: seq<Request>): seq<string> {
    if requests == [] then []
    else (match DeviceName(requests[0]) case Some(name) => [name] case None => []) + DevicesOf(requests[1..])
  }

  lemma {:induction false} DevicesRead(requests: seq<Request>)
    requires forall i :: 0 <= i < |requests| ==> WellFormed(requests[i])
    ensures DevicesIn(ShownAll(requests)) == DevicesOf(requests)
  {
    if requests != [] {
      DeviceShown(requests[0]);
      DevicesRead(requests[1..]);
      assert ShownAll(requests)[1..] == ShownAll(requests[1..]);
    }
  }

  /** The complete lines of the pty are, one for each emit and in emission order, exactly
      "<LAVA_SIGNAL_DEVICECMD " + name + ">" for a device command, "<LAVA_SIGNAL_" + body + ">" for a
      signal, and the supervisor's own lines. */
  ghost predicate PtyShows(pty: string, threads: map<Tid, Thread>, log: seq<Tid>) {
    && |Lines(pty)| == |log|
    && forall i :: 0 <= i < |log| ==> log[i] in threads && match threads[log[i]].req
         case Cmd(name) => Lines(pty)[i] == "<LAVA_SIGNAL_DEVICECMD " + name + ">"
         case Signal(body) => Lines(pty)[i] == "<LAVA_SIGNAL_" + body + ">"
         case Plain(text) => Lines(pty)[i] + "\n" == text
  }

  lemma ShowsRequests(s: State)
    requires ThreadsOk(s) && LogOk(s) && PtyOk(s)
    ensures PtyShows(s.pty, s.threads, s.log)
  {
    PtyLines(s);
    forall i | 0 <= i < |s.log|
      ensures match s.threads[s.log[i]].req
              case Cmd(name) => Lines(s.pty)[i] == "<LAVA_SIGNAL_DEVICECMD " + name + ">"
              case Signal(body) => Lines(s.pty)[i] == "<LAVA_SIGNAL_" + body + ">"
              case Plain(text) => Lines(s.pty)[i] + "\n" == text
    {
      var t := s.log[i];
      assert ThreadOk(t, s.threads[t], s.dev, s.out, true);
      LineShown(s.threads[t].req);
    }
  }

  /** The pty is whole lines, one for each emit, followed by a part of the current writer's line.  Its
      complete lines are the markers of the emitted requests with their names and bodies, and nothing
      else; the dispatcher reads off exactly the device commands asked for, in emission order; and
      every finished request's line is there. */
  lemma PtyFraming(events: seq<Event>, s: State)
    requires Reached(events, s)
    ensures LogOk(s) && PtyOk(s)
    ensures s.out.None? ==> s.pty == Flat(Requests(s.threads, s.log))
    ensures PtyShows(s.pty, s.threads, s.log)
    ensures Markers(s.pty) == Bodies(Requests(s.threads, s.log))
    ensures DevicesIn(Lines(s.pty)) == DevicesOf(Requests(s.threads, s.log))
    ensures forall t :: t in s.threads && s.threads[t].pc.Done? ==> t in s.log
  {
    ReachedInv(events, s);
    var requests := Requests(s.threads, s.log);
    forall i | 0 <= i < |requests| ensures WellFormed(requests[i]) {
      assert ThreadOk(s.log[i], s.threads[s.log[i]], s.dev, s.out, true);
    }
    PartialHasNoNewline(s);
    FramingRoundTrip(requests, Partial(s));
    PtyLines(s);
    DevicesRead(requests);
    ShowsRequests(s);
    forall t | t in s.threads && s.threads[t].pc.Done? ensures t in s.log {
      assert ThreadOk(t, s.threads[t], s.dev, s.out, t in s.log);
    }
  }

  // ---- whose ack a result is -----------------------------------------------------------------

  /** The ack of this marker has not reached the slot, or been dropped, yet. */
  ghost predicate Unconsumed(s: State, m: Tid) {
    m !in s.acks || m in InFlight(s.hand, s.stdin)
  }

  ghost predicate Registering(s: State, t: Tid) {
    && t in s.threads
    && (HoldsDev(s.threads[t]) || s.threads[t].pc.Done?)
    && s.threads[t].req.Cmd?
  }

  ghost predicate FlightOld(p: State, s: State) {
    forall m :: m in InFlight(s.hand, s.stdin) ==> Unconsumed(p, m)
  }

  ghost predicate SlotOld(p: State, s: State, t: Tid)
    requires t in s.threads
  {
    InSlot(s.threads[t]) && s.rc.Some? ==> Unconsumed(p, s.rc.value.marker)
  }

  ghost predicate OthersOld(p: State, s: State, t: Tid) {
    forall v :: v in s.log && v != t && v in s.threads && s.threads[v].req.Cmd? ==> v in p.log
  }

  ghost predicate ResultOld(p: State, s: State, t: Tid) {
    forall rc, m :: Answered(s, t, Acked(rc, m)) ==>
      && Unconsumed(p, m)
      && (m != t && m in s.threads && s.threads[m].req.Cmd? ==> m in p.log)
  }

  /** Since `p` request `t` has only been offered acks that were unconsumed in `p`, and while it
      holds the lock no other device command has reached the pty. */
  ghost predicate Recent(p: State, s: State, t: Tid) {
    && Registering(s, t) && FlightOld(p, s) && SlotOld(p, s, t) && ResultOld(p, s, t)
    && (HoldsDev(s.threads[t]) ==> OthersOld(p, s, t))
  }

  /** No new ack is in flight, except one the dispatcher has just sent. */
  lemma InFlightOld(s: State, e: Event, m: Tid)
    requires Inv(s) && Enabled(s, e) && m in InFlight(Next(s, e).hand, Next(s, e).stdin)
    ensures m in InFlight(s.hand, s.stdin) || m !in s.acks
  {
    var q := Next(s, e);
    match e
    case Dispatch(v, rc) => InFlightAppend(s, q.stdin[|s.stdin|]);
    case Noise(text) => InFlightAppend(s, q.stdin[|s.stdin|]);
    case ReadLine => ReadReply(s);
    case _ =>
  }

  lemma NoOtherWriter(s: State, t: Tid, v: Tid)
    requires Inv(s) && t in s.threads && HoldsDev(s.threads[t])
    requires v in s.threads && s.threads[v].req.Cmd? && HoldsDev(s.threads[v])
    ensures v == t
  {
    assert ThreadOk(t, s.threads[t], s.dev, s.out, t in s.log);
    assert ThreadOk(v, s.threads[v], s.dev, s.out, v in s.log);
  }

  lemma StepOthersOld(p: State, s: State, e: Event, t: Tid)
    requires Inv(s) && Enabled(s, e) && t in s.threads && HoldsDev(s.threads[t]) && OthersOld(p, s, t)
    ensures OthersOld(p, Next(s, e), t)
  {
    var q := Next(s, e);
    StepKept(s, e);
    forall v | v in q.log && v != t && v in q.threads && q.threads[v].req.Cmd? ensures v in p.log {
      if v !in s.log {
        assert ThreadOk(v, s.threads[v], s.dev, s.out, false);
        NoOtherWriter(s, t, v);
      }
    }
  }

  lemma StepFlightOld(p: State, s: State, e: Event)
    requires Inv(s) && Enabled(s, e) && FlightOld(p, s) && Kept(p, s)
    ensures FlightOld(p, Next(s, e))
  {
    forall m | m in InFlight(Next(s, e).hand, Next(s, e).stdin) ensures Unconsumed(p, m) {
      InFlightOld(s, e, m);
    }
  }

  lemma StepSlotOld(p: State, s: State, e: Event, t: Tid)
    requires Inv(s) && Enabled(s, e) && Registering(s, t) && FlightOld(p, s) && SlotOld(p, s, t)
    ensures SlotOld(p, Next(s, e), t)
  {
    assert ThreadOk(t, s.threads[t], s.dev, s.out, t in s.log);
    if e.Record? {
      assert s.hand.value.marker in InFlight(s.hand, s.stdin);
    }
  }

  lemma AnswerStays(s: State, e: Event, t: Tid, r: Result)
    requires Enabled(s, e) && t in s.threads && Answered(Next(s, e), t, r) && !(e.Look? && e.t == t)
    ensures Answered(s, t, r) || r == Sent
  {}

  /** The answer taken by a last look is a reply that was in the slot. */
  lemma LookResultOld(p: State, s: State, t: Tid, late: bool, rc: nat, m: Tid)
    requires Inv(s) && Enabled(s, Look(t, late)) && Recent(p, s, t)
    requires Answered(Settle(s, t), t, Acked(rc, m))
    ensures Unconsumed(p, m)
    ensures m != t && s.threads[m].req.Cmd? ==> m in p.log
  {
    assert ThreadOk(t, s.threads[t], s.dev, s.out, t in s.log);
    assert ReplyOk(s, s.rc.value) && s.rc.value.marker == m;
  }

  lemma StepResultOld(p: State, s: State, e: Event, t: Tid)
    requires Inv(s) && Enabled(s, e) && Recent(p, s, t)
    ensures ResultOld(p, Next(s, e), t)
  {
    StepKept(s, e);
    forall rc, m | Answered(Next(s, e), t, Acked(rc, m))
      ensures Unconsumed(p, m)
      ensures m != t && m in Next(s, e).threads && Next(s, e).threads[m].req.Cmd? ==> m in p.log
    {
      if e.Look? && e.t == t {
        LookResultOld(p, s, t, e.late, rc, m);
      } else {
        AnswerStays(s, e, t, Acked(rc, m));
        assert ResultOk(s, s.threads[t], Acked(rc, m));
      }
    }
  }

  lemma StepRegistering(s: State, e: Event, t: Tid)
    requires Inv(s) && Enabled(s, e) && Registering(s, t)
    ensures Registering(Next(s, e), t)
    ensures HoldsDev(Next(s, e).threads[t]) ==> HoldsDev(s.threads[t])
  {
    assert ThreadOk(t, s.threads[t], s.dev, s.out, t in s.log);
    if Mover(e) != Some(t) {
      Unmoved(s, e, t);
    }
  }

  lemma StepRecent(p: State, s: State, e: Event, t: Tid)
    requires Inv(s) && Enabled(s, e) && Recent(p, s, t) && Kept(p, s)
    ensures Recent(p, Next(s, e), t)
  {
    StepFlightOld(p, s, e);
    StepSlotOld(p, s, e, t);
    StepResultOld(p, s, e, t);
    StepRegistering(s, e, t);
    if HoldsDev(s.threads[t]) {
      StepOthersOld(p, s, e, t);
    }
  }

  lemma {:induction false} RunRecent(p: State, s: State, events: seq<Event>, q: State, t: Tid)
    requires Inv(s) && AttributedOk(s) && Run(s, events, q) && Recent(p, s, t) && Kept(p, s)
    ensures Recent(p, q, t) && Kept(p, q) && Inv(q)
    decreases |events|
  {
    if events != [] {
      var n := Next(s, events[0]);
      StepInv(s, events[0]);
      StepRecent(p, s, events[0], t);
      StepKept(s, events[0]);
      assert Kept(p, n);
      RunRecent(p, n, events[1..], q, t);
    }
  }

  /** In every run a result that is not a timeout is the return code of an ack that had not been
      consumed when the request registered, and that the reader reads as an ack of the request's own
      name with this code, whether a device command or a client's signal emitted the acked marker;
      for a device command the code is the one the dispatcher sent for it. */
  lemma AckIsRecent(before: seq<Event>, p: State, after: seq<Event>, q: State, t: Tid, rc: nat, m: Tid)
    requires Reached(before, p) && Run(p, after, q)
    requires At(p, t, Granted) && Answered(q, t, Acked(rc, m))
    ensures q.threads[t].req.Cmd? && Unconsumed(p, m) && m in q.acks && m in q.threads
    ensures DeviceName(q.threads[m].req).Some?
    ensures DecodeAck(AckText(DeviceName(q.threads[m].req).value, q.acks[m])) == Some(Ack(q.threads[t].req.name, rc))
    ensures q.threads[m].req.Cmd? ==> q.threads[m].req == q.threads[t].req && rc == q.acks[m]
  {
    ReachedInv(before, p);
    RecentStart(p, t);
    RunRecent(p, p, after, q, t);
    RecentResult(p, q, t, rc, m);
  }

  lemma RecentStart(p: State, t: Tid)
    requires Inv(p) && (At(p, t, Granted) || (At(p, t, Waiting) && p.rc == None))
    ensures Recent(p, p, t) && Kept(p, p)
  {
    assert ThreadOk(t, p.threads[t], p.dev, p.out, t in p.log);
  }

  lemma RecentResult(p: State, q: State, t: Tid, rc: nat, m: Tid)
    requires Recent(p, q, t) && Inv(q) && Answered(q, t, Acked(rc, m))
    ensures q.threads[t].req.Cmd? && Unconsumed(p, m) && m in q.acks && m in q.threads
    ensures ReadsAs(q.threads[m].req, q.acks[m], q.threads[t].req.name, rc)
    ensures q.threads[m].req.Cmd? && m != t ==> m in p.log
  {
    assert ResultOk(q, q.threads[t], Acked(rc, m));
  }

  /** If no request of that name has timed out so far and no client has signalled a DEVICECMD
      itself, the result is the dispatcher's ack of the request's own marker. */
  lemma AckIsOwn(events: seq<Event>, s: State, t: Tid, name: string, rc: nat, m: Tid)
    requires Reached(events, s) && Answered(s, t, Acked(rc, m))
    requires s.threads[t].req == Cmd(name) && !Tainted(s, name)
    ensures m == t && t in s.acks && rc == s.acks[t]
  {
    ReachedInv(events, s);
    assert ThreadOk(t, s.threads[t], s.dev, s.out, t in s.log);
    assert Attributed(s, t, s.threads[t]);
  }

  // ---- no lost ack --------------------------------------------------------------------------

  /** An ack is in the slot while its request is registered, or has become its result. */
  ghost predicate Safe(s: State, t: Tid) {
    && t in s.threads && s.threads[t].req.Cmd?
    && match s.threads[t].pc
       case Ready => s.rc.Some?
       case Writing(_) => s.rc.Some?
       case Waiting => s.rc.Some?
       case Leaving(r) => r.Acked?
       case Done(r) => r.Acked?
       case _ => false
  }

  lemma OwnSafe(s: State, e: Event, t: Tid)
    requires Inv(s) && Enabled(s, e) && Safe(s, t) && Mover(e) == Some(t)
    ensures Safe(Next(s, e), t)
  {
    assert ThreadOk(t, s.threads[t], s.dev, s.out, t in s.log);
  }

  lemma OtherSafe(s: State, e: Event, t: Tid)
    requires Inv(s) && Enabled(s, e) && Safe(s, t) && Mover(e) != Some(t)
    ensures Safe(Next(s, e), t)
  {
    Unmoved(s, e, t);
    if e.Register? && HoldsDev(s.threads[t]) {
      NoOtherWriter(s, e.t, t);
    }
  }

  lemma StepSafe(s: State, e: Event, t: Tid)
    requires Inv(s) && Enabled(s, e) && Safe(s, t)
    ensures Safe(Next(s, e), t)
  {
    if Mover(e) == Some(t) {
      OwnSafe(s, e, t);
    } else {
      OtherSafe(s, e, t);
    }
  }

  lemma {:induction false} RunSafe(s: State, events: seq<Event>, q: State, t: Tid)
    requires Inv(s) && AttributedOk(s) && Run(s, events, q) && Safe(s, t)
    ensures Safe(q, t)
    decreases |events|
  {
    if events != [] {
      StepSafe(s, events[0], t);
      StepInv(s, events[0]);
      RunSafe(Next(s, events[0]), events[1..], q, t);
    }
  }

  lemma RecordedSafe(p: State, t: Tid)
    requires Inv(p) && t in p.threads && InSlot(p.threads[t]) && p.hand.Some?
    requires p.hand.value.name == p.threads[t].req.name || p.hand.value.marker == t
    ensures Safe(Note(p), t)
  {
    assert ThreadOk(t, p.threads[t], p.dev, p.out, t in p.log);
  }

  /** No lost ack: a reply with the request's name that the reader records after the request has
      registered and before its last look is never reported as a timeout; the ack of its own
      marker always has its name. */
  lemma NoLostAck(before: seq<Event>, p: State, after: seq<Event>, q: State, t: Tid)
    requires Reached(before, p) && Run(p, [Record] + after, q)
    requires t in p.threads && InSlot(p.threads[t]) && p.hand.Some?
    requires p.hand.value.name == p.threads[t].req.name || p.hand.value.marker == t
    ensures Safe(q, t) && !Answered(q, t, TimedOut)
  {
    ReachedInv(before, p);
    RecordedSafe(p, t);
    StepInv(p, Record);
    assert ([Record] + after)[1..] == after;
    RunSafe(Note(p), after, q, t);
    assert Safe(q, t);
  }

  // ---- exactly when an ack can be someone else's ---------------------------------------------

  /** No client sends a DEVICECMD as a plain signal. */
  ghost predicate Quiet(events: seq<Event>) {
    forall i :: 0 <= i < |events| && events[i].Client? && events[i].line != "" ==>
      var parsed := ParseRequest(events[i].line);
      parsed.Accepted? && parsed.request.Signal? ==> DeviceName(parsed.request).None?
  }

  ghost predicate NoSignals(s: State) {
    forall t :: !SignalsDevice(s, t)
  }

  lemma {:induction false} QuietRun(s: State, events: seq<Event>, q: State)
    requires Run(s, events, q) && Quiet(events) && NoSignals(s)
    ensures NoSignals(q)
    decreases |events|
  {
    if events != [] {
      var n := Next(s, events[0]);
      forall t ensures !SignalsDevice(n, t) {
        assert !SignalsDevice(s, t);
      }
      QuietRun(n, events[1..], q);
    }
  }

  /** Another request of the same name is still waiting for the dispatcher's ack to be recorded. */
  ghost predicate Stale(s: State, t: Tid, m: Tid) {
    && m != t && t in s.threads && m in s.threads
    && s.threads[m].req.Cmd? && s.threads[t].req.Cmd? && s.threads[m].req.name == s.threads[t].req.name
    && Outstanding(s, m)
  }

  lemma PrependQuiet(s: State, e: Event, events: seq<Event>, q: State)
    requires Enabled(s, e) && !e.Client? && Run(Next(s, e), events, q) && Quiet(events)
    ensures Run(s, [e] + events, q) && Quiet([e] + events)
  {
    Prepend(s, e, events, q);
    forall i | 0 < i < |[e] + events| ensures ([e] + events)[i] == events[i - 1] {}
  }

  /** The ack of `m` can still reach the slot while `t`, of the same name, is waiting. */
  ghost predicate Pending(s: State, t: Tid, m: Tid) {
    && Inv(s) && AttributedOk(s) && At(s, t, Waiting) && s.threads[t].req.Cmd?
    && m in InFlight(s.hand, s.stdin) && m in s.threads && s.threads[m].req == s.threads[t].req
  }

  lemma RecordPending(s: State, t: Tid, m: Tid)
    requires Pending(s, t, m) && s.hand.Some? && s.hand.value.marker != m
    ensures Pending(Note(s), t, m)
  {
    StepInv(s, Record);
  }

  lemma ReadPending(s: State, t: Tid, m: Tid)
    requires Pending(s, t, m) && s.hand == None
    ensures s.stdin != [] && Pending(Read(s), t, m)
  {
    StepInv(s, ReadLine);
    ReadReply(s);
  }

  /** The waiting request's next look takes what the reader has just recorded. */
  lemma TakeRecorded(s: State, t: Tid, m: Tid) returns (events: seq<Event>, q: State)
    requires Inv(s) && At(s, t, Waiting) && s.threads[t].req.Cmd? && s.hand.Some?
    requires s.hand.value.marker == m && s.hand.value.name == s.threads[t].req.name
    ensures Run(s, events, q) && Quiet(events) && Answered(q, t, Acked(s.hand.value.rc, m))
  {
    assert ThreadOk(t, s.threads[t], s.dev, s.out, t in s.log);
    var n := Note(s);
    q := Settle(n, t);
    PrependQuiet(n, Look(t, false), [], q);
    PrependQuiet(s, Record, [Look(t, false)] + [], q);
    events := [Record] + ([Look(t, false)] + []);
  }

  /** The reader goes through stdin up to the ack of `m`, and the waiting request takes that. */
  lemma PendingCanBeTaken(s: State, t: Tid, m: Tid) returns (events: seq<Event>, q: State, rc: nat)
    requires Pending(s, t, m)
    ensures Run(s, events, q) && Quiet(events) && Answered(q, t, Acked(rc, m))
    decreases |s.stdin|, s.hand.Some?
  {
    if s.hand == None {
      ReadPending(s, t, m);
      events, q, rc := PendingCanBeTaken(Read(s), t, m);
      PrependQuiet(s, ReadLine, events, q);
      events := [ReadLine] + events;
    } else if s.hand.value.marker == m {
      events, q := TakeRecorded(s, t, m);
      rc := s.hand.value.rc;
    } else {
      RecordPending(s, t, m);
      events, q, rc := PendingCanBeTaken(Note(s), t, m);
      PrependQuiet(s, Record, events, q);
      events := [Record] + events;
    }
  }

  lemma DispatchPending(s: State, t: Tid, m: Tid) returns (k: nat)
    requires Inv(s) && AttributedOk(s) && At(s, t, Waiting) && Stale(s, t, m) && m !in s.acks
    ensures Enabled(s, Dispatch(k, 0)) && Pending(Next(s, Dispatch(k, 0)), t, m)
  {
    k :| 0 <= k < |s.log| && s.log[k] == m;
    ReadsRequest(s, k);
    var n := Next(s, Dispatch(k, 0));
    StepInv(s, Dispatch(k, 0));
    InFlightAppend(s, n.stdin[|s.stdin|]);
  }

  /** A stale ack can always still be taken by the waiting request. */
  lemma StaleCanBeTaken(s: State, t: Tid, m: Tid) returns (events: seq<Event>, q: State, rc: nat)
    requires Inv(s) && AttributedOk(s) && At(s, t, Waiting) && Stale(s, t, m)
    ensures Run(s, events, q) && Quiet(events) && Answered(q, t, Acked(rc, m))
  {
    if m !in s.acks {
      var k := DispatchPending(s, t, m);
      events, q, rc := PendingCanBeTaken(Next(s, Dispatch(k, 0)), t, m);
      PrependQuiet(s, Dispatch(k, 0), events, q);
      events := [Dispatch(k, 0)] + events;
    } else {
      events, q, rc := PendingCanBeTaken(s, t, m);
    }
  }

  /** Exactly when: a waiting request whose slot is still empty can end up with the ack of another
      marker, in some run where nobody signals a DEVICECMD, if and only if the ack of another
      request of its name is outstanding. */
  lemma ForeignAckIff(before: seq<Event>, p: State, t: Tid)
    requires Reached(before, p) && At(p, t, Waiting) && p.rc == None && NoSignals(p)
    ensures (exists events, q, rc, m :: Run(p, events, q) && Quiet(events) && Answered(q, t, Acked(rc, m)) && m != t)
            <==> (exists m :: Stale(p, t, m))
  {
    ReachedInv(before, p);
    assert ThreadOk(t, p.threads[t], p.dev, p.out, t in p.log);
    if m :| Stale(p, t, m) {
      var events, q, rc := StaleCanBeTaken(p, t, m);
    }
    if events, q, rc, m :| Run(p, events, q) && Quiet(events) && Answered(q, t, Acked(rc, m)) && m != t {
      ForeignIsStale(p, events, q, t, rc, m);
    }
  }

  lemma ForeignIsStale(p: State, events: seq<Event>, q: State, t: Tid, rc: nat, m: Tid)
    requires Inv(p) && AttributedOk(p) && At(p, t, Waiting) && p.rc == None && NoSignals(p) && p.threads[t].req.Cmd?
    requires Run(p, events, q) && Quiet(events) && Answered(q, t, Acked(rc, m)) && m != t
    ensures Stale(p, t, m)
  {
    RecentStart(p, t);
    RunRecent(p, p, events, q, t);
    RecentResult(p, q, t, rc, m);
    QuietRun(p, events, q);
    assert !SignalsDevice(q, m);
  }
}
