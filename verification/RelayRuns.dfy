/** What every interleaving of the supervisor's threads keeps. */
module RelayRuns {
  import opened Text
  import opened RelayText
  import opened RelayProtocol

  // ---- locks and program counters ---------------------------------------------------------

  /** A step of one thread leaves what holds of the others. */
  lemma OneThread(s: State, q: State, t: Tid, th: Thread)
    requires ThreadsOk(s) && q.threads == s.threads[t := th]
    requires ThreadOk(t, th, q.dev, q.out, t in q.log)
    requires forall v :: v != t ==> (q.dev == Some(v) <==> s.dev == Some(v)) && (q.out == Some(v) <==> s.out == Some(v))
    requires forall v :: v != t ==> (v in q.log <==> v in s.log)
    ensures ThreadsOk(q)
  {
    forall v | v in q.threads ensures ThreadOk(v, q.threads[v], q.dev, q.out, v in q.log) {
      if v != t {
        assert ThreadOk(v, s.threads[v], s.dev, s.out, v in s.log);
      }
    }
  }

  lemma NewThread(s: State, q: State, t: Tid, req: Request)
    requires ThreadsOk(s) && LogOk(s) && t !in s.threads && WellFormed(req)
    requires q == s.(threads := s.threads[t := Thread(req, if req.Cmd? then Blocked else Ready)])
    ensures ThreadsOk(q)
  {
    OneThread(s, q, t, q.threads[t]);
  }

  lemma StepThreads(s: State, e: Event)
    requires ThreadsOk(s) && LogOk(s) && Enabled(s, e)
    ensures ThreadsOk(Next(s, e))
  {
    var q := Next(s, e);
    match e
    case Client(t, line) =>
      match ParseRequest(line) {
        case Refused(_) =>
        case Accepted(req) => NewThread(s, q, t, req);
      }
    case Announce(t, text) => NewThread(s, q, t, Plain(text));
    case TakeDev(t) => TakeDevThreads(s, t);
    case Register(t) => OneThread(s, q, t, q.threads[t]);
    case TakeOut(t) => TakeOutThreads(s, t);
    case Write(t, n) => WriteThreads(s, t, n);
    case DropOut(t) => DropOutThreads(s, t);
    case Look(t, late) => OneThread(s, q, t, q.threads[t]);
    case DropDev(t) => DropDevThreads(s, t);
    case _ => assert q.threads == s.threads;
  }

  lemma TakeDevThreads(s: State, t: Tid)
    requires ThreadsOk(s) && Enabled(s, TakeDev(t))
    ensures ThreadsOk(Next(s, TakeDev(t)))
  {
    var q := Next(s, TakeDev(t));
    OneThread(s, q, t, q.threads[t]);
  }

  lemma DropDevThreads(s: State, t: Tid)
    requires ThreadsOk(s) && Enabled(s, DropDev(t))
    ensures ThreadsOk(Next(s, DropDev(t)))
  {
    var q := Next(s, DropDev(t));
    OneThread(s, q, t, q.threads[t]);
  }

  lemma TakeOutThreads(s: State, t: Tid)
    requires ThreadsOk(s) && Enabled(s, TakeOut(t))
    ensures ThreadsOk(Next(s, TakeOut(t)))
  {
    var q := Next(s, TakeOut(t));
    LineIsOneLine(s.threads[t].req);
    OneThread(s, q, t, q.threads[t]);
  }

  lemma DropOutThreads(s: State, t: Tid)
    requires ThreadsOk(s) && Enabled(s, DropOut(t))
    ensures ThreadsOk(Next(s, DropOut(t)))
  {
    var q := Next(s, DropOut(t));
    OneThread(s, q, t, q.threads[t]);
  }

  lemma WriteThreads(s: State, t: Tid, n: nat)
    requires ThreadsOk(s) && Enabled(s, Write(t, n))
    ensures ThreadsOk(WriteSome(s, t, n))
  {
    var q := WriteSome(s, t, n);
    assert ThreadOk(t, s.threads[t], s.dev, s.out, t in s.log);
    assert forall v :: v in q.log <==> v in s.log || (v == t && |q.log| > |s.log|);
    OneThread(s, q, t, q.threads[t]);
  }

  lemma StepSlot(s: State, e: Event)
    requires ThreadsOk(s) && SlotOk(s) && Enabled(s, e)
    ensures SlotOk(Next(s, e))
  {
    if s.dev.Some? {
      assert ThreadOk(s.dev.value, s.threads[s.dev.value], s.dev, s.out, s.dev.value in s.log);
    }
    match e
    case Client(t, line) =>
    case TakeDev(t) =>
    case Register(t) => assert ThreadOk(t, s.threads[t], s.dev, s.out, t in s.log);
    case TakeOut(t) =>
    case Write(t, n) =>
    case DropOut(t) => assert ThreadOk(t, s.threads[t], s.dev, s.out, t in s.log);
    case Look(t, late) => assert ThreadOk(t, s.threads[t], s.dev, s.out, t in s.log);
    case DropDev(t) => assert ThreadOk(t, s.threads[t], s.dev, s.out, t in s.log);
    case _ =>
  }

  lemma StepLog(s: State, e: Event)
    requires ThreadsOk(s) && LogOk(s) && Enabled(s, e)
    ensures LogOk(Next(s, e))
  {
    if e.Write? {
      var th := s.threads[e.t];
      assert ThreadOk(e.t, th, s.dev, s.out, e.t in s.log);
    }
  }

  // ---- the pty ------------------------------------------------------------------------------

  lemma RequestsSame(threads: map<Tid, Thread>, threads': map<Tid, Thread>, log: seq<Tid>)
    requires forall i :: 0 <= i < |log| ==> log[i] in threads && log[i] in threads' && threads'[log[i]].req == threads[log[i]].req
    ensures Requests(threads', log) == Requests(threads, log)
  {}

  /** The text of the pty grows by a slice of the writer's line. */
  lemma WriteText(flat: string, line: string, done: nat, n: nat)
    requires done + n <= |line|
    ensures flat + line[..done] + line[done..done + n] == flat + line[..done + n]
  {
    SliceConcat(line, done, done + n);
    Concat(flat, line[..done], line[done..done + n]);
  }

  /** The line is complete: it is one more of the whole lines. */
  lemma WriteEnds(s: State, t: Tid, n: nat)
    requires ThreadsOk(s) && LogOk(s) && Enabled(s, Write(t, n)) && LogOk(WriteSome(s, t, n))
    requires s.threads[t].pc.done + n == |Line(s.threads[t].req)|
    ensures Flat(Requests(WriteSome(s, t, n).threads, WriteSome(s, t, n).log)) ==
            Flat(Requests(s.threads, s.log)) + Line(s.threads[t].req)
    ensures Partial(WriteSome(s, t, n)) == ""
  {
    var q := WriteSome(s, t, n);
    RequestsSame(s.threads, q.threads, s.log);
    assert Requests(q.threads, q.log) == Requests(q.threads, s.log) + [s.threads[t].req];
    FlatAppend(Requests(s.threads, s.log), s.threads[t].req);
    assert ThreadOk(t, s.threads[t], s.dev, s.out, t in s.log);
  }

  lemma WriteGoesOn(s: State, t: Tid, n: nat)
    requires ThreadsOk(s) && LogOk(s) && Enabled(s, Write(t, n)) && LogOk(WriteSome(s, t, n))
    requires s.threads[t].pc.done + n < |Line(s.threads[t].req)|
    ensures Requests(WriteSome(s, t, n).threads, WriteSome(s, t, n).log) == Requests(s.threads, s.log)
    ensures Partial(WriteSome(s, t, n)) == Line(s.threads[t].req)[..s.threads[t].pc.done + n]
  {
    RequestsSame(s.threads, WriteSome(s, t, n).threads, s.log);
    assert ThreadOk(t, s.threads[t], s.dev, s.out, t in s.log);
  }

  lemma WritePty(s: State, t: Tid, n: nat)
    requires ThreadsOk(s) && LogOk(s) && PtyOk(s) && Enabled(s, Write(t, n))
    requires LogOk(WriteSome(s, t, n))
    ensures PtyOk(WriteSome(s, t, n))
  {
    var line, done := Line(s.threads[t].req), s.threads[t].pc.done;
    assert Partial(s) == line[..done] by {
      assert ThreadOk(t, s.threads[t], s.dev, s.out, t in s.log);
    }
    WriteText(Flat(Requests(s.threads, s.log)), line, done, n);
    if done + n == |line| {
      WriteEnds(s, t, n);
      TakeAll(line);
    } else {
      WriteGoesOn(s, t, n);
    }
  }

  lemma SliceConcat(s: string, i: nat, j: nat)
    requires i <= j <= |s|
    ensures s[..i] + s[i..j] == s[..j]
  {}

  lemma StepPty(s: State, e: Event)
    requires ThreadsOk(s) && LogOk(s) && PtyOk(s) && Enabled(s, e)
    requires LogOk(Next(s, e))
    ensures PtyOk(Next(s, e))
  {
    var q := Next(s, e);
    if e.Write? {
      WritePty(s, e.t, e.n);
    } else {
      RequestsSame(s.threads, q.threads, s.log);
      PartialSame(s, e);
    }
  }

  lemma PartialSame(s: State, e: Event)
    requires ThreadsOk(s) && Enabled(s, e) && !e.Write?
    ensures Partial(Next(s, e)) == Partial(s)
  {
    if s.out.Some? {
      assert ThreadOk(s.out.value, s.threads[s.out.value], s.dev, s.out, s.out.value in s.log);
    }
    if e.DropOut? {
      assert ThreadOk(e.t, s.threads[e.t], s.dev, s.out, e.t in s.log);
    }
  }

  // ---- acks -----------------------------------------------------------------------------------

  /** Nothing that has happened is forgotten: requests and sent acks stay as they are. */
  ghost predicate Kept(s: State, q: State) {
    && (forall t :: t in s.threads ==> t in q.threads && q.threads[t].req == s.threads[t].req)
    && (forall m :: m in s.acks ==> m in q.acks && q.acks[m] == s.acks[m])
    && (forall m :: m in s.log ==> m in q.log)
  }

  /** A step moves one thread at most, and only the reader fills the slot. */
  lemma Unmoved(s: State, e: Event, t: Tid)
    requires Enabled(s, e) && t in s.threads && Mover(e) != Some(t)
    ensures t in Next(s, e).threads && Next(s, e).threads[t] == s.threads[t]
    ensures e.Record? || Next(s, e).rc == s.rc || Next(s, e).rc == None
  {}

  lemma StepKept(s: State, e: Event)
    requires Enabled(s, e)
    ensures Kept(s, Next(s, e))
  {}

  lemma InputKept(s: State, q: State, i: Input)
    requires Kept(s, q) && InputOk(s, i)
    ensures InputOk(q, i)
  {}

  lemma {:induction false} UnreadAcked(s: State, stdin: seq<Input>, m: Tid)
    requires forall i :: 0 <= i < |stdin| ==> InputOk(s, stdin[i])
    requires m in Unread(stdin)
    ensures m in s.acks
  {
    assert InputOk(s, stdin[0]);
    if stdin[0].marker != Some(m) {
      UnreadAcked(s, stdin[1..], m);
    }
  }

  lemma {:induction false} UnreadAppend(stdin: seq<Input>, i: Input)
    ensures Unread(stdin + [i]) == Unread(stdin) + if i.marker.Some? then [i.marker.value] else []
  {
    if stdin == [] {
      assert stdin + [i] == [i] && [i][1..] == [];
    } else {
      assert (stdin + [i])[1..] == stdin[1..] + [i];
      UnreadAppend(stdin[1..], i);
      Concat(if stdin[0].marker.Some? then [stdin[0].marker.value] else [], Unread(stdin[1..]),
             if i.marker.Some? then [i.marker.value] else []);
    }
  }

  lemma InFlightAcked(s: State, m: Tid)
    requires AcksOk(s) && m in InFlight(s.hand, s.stdin)
    ensures m in s.acks
  {
    if m in Unread(s.stdin) {
      UnreadAcked(s, s.stdin, m);
    }
  }

  lemma InFlightAppend(s: State, i: Input)
    ensures InFlight(s.hand, s.stdin + [i]) == InFlight(s.hand, s.stdin) + if i.marker.Some? then [i.marker.value] else []
  {
    UnreadAppend(s.stdin, i);
  }

  lemma PartialHasNoNewline(s: State)
    requires ThreadsOk(s)
    ensures '\n' !in Partial(s)
  {
    if s.out.Some? && IsWriting(s, s.out.value) {
      var t := s.out.value;
      var th := s.threads[t];
      assert ThreadOk(t, th, s.dev, s.out, t in s.log);
      LineIsOneLine(th.req);
      if th.pc.done < |Line(th.req)| {
        assert Line(th.req)[..th.pc.done] <= Line(th.req)[..|Line(th.req)|-1];
      }
    }
  }

  /** The lines of the pty are what the emitted requests are to show, in emission order. */
  lemma PtyLines(s: State)
    requires ThreadsOk(s) && LogOk(s) && PtyOk(s)
    ensures Lines(s.pty) == ShownAll(Requests(s.threads, s.log))
  {
    var requests := Requests(s.threads, s.log);
    forall i | 0 <= i < |requests| ensures WellFormed(requests[i]) {
      assert ThreadOk(s.log[i], s.threads[s.log[i]], s.dev, s.out, true);
    }
    PartialHasNoNewline(s);
    LinesRoundTrip(requests, Partial(s));
  }

  /** What the dispatcher reads on a line is the device command its request asks for. */
  lemma ReadsRequest(s: State, k: nat)
    requires ThreadsOk(s) && LogOk(s) && PtyOk(s) && k < |s.log|
    ensures s.log[k] in s.threads && DeviceAt(s.pty, k) == DeviceName(s.threads[s.log[k]].req)
  {
    PtyLines(s);
    var t := s.log[k];
    assert ThreadOk(t, s.threads[t], s.dev, s.out, true);
    DeviceShown(s.threads[t].req);
  }

  lemma DispatchAcks(s: State, k: nat, rc: nat)
    requires AcksOk(s) && Enabled(s, Dispatch(k, rc)) && s.log[k] in s.threads
    requires DeviceAt(s.pty, k) == DeviceName(s.threads[s.log[k]].req)
    ensures AcksOk(Next(s, Dispatch(k, rc)))
  {
    var q, m := Next(s, Dispatch(k, rc)), s.log[k];
    StepKept(s, Dispatch(k, rc));
    forall i | 0 <= i < |q.stdin| ensures InputOk(q, q.stdin[i]) {
      if i < |s.stdin| {
        InputKept(s, q, s.stdin[i]);
      }
    }
    InFlightAppend(s, q.stdin[|s.stdin|]);
    if m in InFlight(s.hand, s.stdin) {
      InFlightAcked(s, m);
    }
  }

  /** What the reader holds after one line: nothing, or the reply to the marker the line acks;
      the ack of a device command always decodes. */
  lemma ReadReply(s: State)
    requires AcksOk(s) && ThreadsOk(s) && s.stdin != []
    ensures Read(s).hand.Some? ==> ReplyOk(s, Read(s).hand.value) && s.stdin[0].marker == Some(Read(s).hand.value.marker)
    ensures var m := s.stdin[0].marker;
            m.Some? && s.threads[m.value].req.Cmd? ==>
              Read(s).hand == Some(Reply(s.threads[m.value].req.name, s.acks[m.value], m.value))
  {
    var i := s.stdin[0];
    assert InputOk(s, i);
    if i.marker.Some? && s.threads[i.marker.value].req.Cmd? {
      var m := i.marker.value;
      assert ThreadOk(m, s.threads[m], s.dev, s.out, m in s.log);
      AckRoundTrip(s.threads[m].req.name, s.acks[m]);
    }
  }

  lemma ReadAcks(s: State)
    requires AcksOk(s) && ThreadsOk(s) && Enabled(s, ReadLine)
    ensures AcksOk(Read(s))
  {
    var q := Read(s);
    forall i | 0 <= i < |q.stdin| ensures InputOk(q, q.stdin[i]) {
      InputKept(s, q, s.stdin[i + 1]);
    }
    ReadReply(s);
    assert InFlight(q.hand, q.stdin) == InFlight(s.hand, s.stdin)
        || InFlight(q.hand, q.stdin) == InFlight(s.hand, s.stdin)[1..];
  }

  lemma NoiseAcks(s: State, text: string)
    requires AcksOk(s) && Enabled(s, Noise(text))
    ensures AcksOk(Next(s, Noise(text)))
  {
    var q := Next(s, Noise(text));
    forall i | 0 <= i < |q.stdin| ensures InputOk(q, q.stdin[i]) {
      if i < |s.stdin| {
        InputKept(s, q, s.stdin[i]);
      }
    }
    InFlightAppend(s, q.stdin[|s.stdin|]);
  }

  lemma NoteAcks(s: State)
    requires AcksOk(s) && s.hand.Some?
    ensures AcksOk(Note(s))
  {
    var q := Note(s);
    assert InFlight(q.hand, q.stdin) == InFlight(s.hand, s.stdin)[1..];
    assert InFlight(s.hand, s.stdin)[0] == s.hand.value.marker;
  }

  lemma StepAcks(s: State, e: Event)
    requires AcksOk(s) && ThreadsOk(s) && LogOk(s) && PtyOk(s) && Enabled(s, e)
    ensures AcksOk(Next(s, e))
  {
    match e
    case Dispatch(k, rc) =>
      ReadsRequest(s, k);
      DispatchAcks(s, k, rc);
    case Noise(text) => NoiseAcks(s, text);
    case ReadLine => ReadAcks(s);
    case Record => NoteAcks(s);
    case _ => OtherAcks(s, e);
  }

  lemma OtherAcks(s: State, e: Event)
    requires AcksOk(s) && Enabled(s, e)
    requires !e.Dispatch? && !e.Noise? && !e.ReadLine? && !e.Record?
    ensures AcksOk(Next(s, e))
  {
    StepKept(s, e);
    AcksFrame(s, Next(s, e));
  }

  lemma AcksFrame(s: State, q: State)
    requires AcksOk(s) && Kept(s, q)
    requires q.acks == s.acks && q.stdin == s.stdin && q.hand == s.hand
    requires (q.rc == s.rc && (q.name == s.name || q.name == None)) || q.rc == None
    ensures AcksOk(q)
  {
    forall i | 0 <= i < |q.stdin| ensures InputOk(q, q.stdin[i]) {
      InputKept(s, q, s.stdin[i]);
    }
  }

  lemma ResultKept(s: State, q: State, th: Thread, r: Result)
    requires Kept(s, q) && ResultOk(s, th, r)
    ensures ResultOk(q, th, r)
  {}

  /** The last look takes a reply to the slot's name, which is the request's own. */
  lemma LookResult(s: State, t: Tid, late: bool)
    requires AcksOk(s) && ThreadsOk(s) && SlotOk(s) && Enabled(s, Look(t, late))
    ensures ResultOk(s, s.threads[t], Outcome(s.rc))
  {
    assert ThreadOk(t, s.threads[t], s.dev, s.out, t in s.log);
  }

  /** Any other step leaves a thread's result as it is. */
  lemma ResultStays(s: State, e: Event, t: Tid)
    requires Enabled(s, e) && t in Next(s, e).threads && !(e.Look? && e.t == t)
    requires t in s.threads ==> PcResultOk(s, s.threads[t])
    ensures PcResultOk(Next(s, e), Next(s, e).threads[t])
  {
    var q := Next(s, e);
    StepKept(s, e);
    if t in s.threads && q.threads[t].pc.Leaving? {
      ResultKept(s, q, s.threads[t], q.threads[t].pc.early);
    } else if t in s.threads && q.threads[t].pc.Done? && q.threads[t].pc.result != Sent {
      ResultKept(s, q, s.threads[t], q.threads[t].pc.result);
    }
  }

  lemma StepResults(s: State, e: Event)
    requires ResultsOk(s) && AcksOk(s) && ThreadsOk(s) && SlotOk(s) && Enabled(s, e)
    ensures ResultsOk(Next(s, e))
  {
    var q := Next(s, e);
    forall t | t in q.threads ensures PcResultOk(q, q.threads[t]) {
      if e.Look? && e.t == t {
        LookResult(s, t, e.late);
        StepKept(s, e);
        ResultKept(s, q, s.threads[t], Outcome(s.rc));
      } else {
        ResultStays(s, e, t);
      }
    }
  }

  // ---- whose ack -------------------------------------------------------------------------------

  /** The marker is on the pty and its ack has not reached the slot or been dropped. */
  ghost predicate Outstanding(s: State, m: Tid) {
    m in s.log && (m !in s.acks || m in InFlight(s.hand, s.stdin))
  }

  ghost predicate TimedOutNamed(s: State, t: Tid, name: string) {
    && t in s.threads && s.threads[t].req == Cmd(name)
    && (s.threads[t].pc == Leaving(TimedOut) || s.threads[t].pc == Done(TimedOut))
  }

  ghost predicate SignalsDevice(s: State, t: Tid) {
    t in s.threads && s.threads[t].req.Signal? && DeviceName(s.threads[t].req).Some?
  }

  /** A request of this name has timed out, or a client has signalled a DEVICECMD itself. */
  ghost predicate Tainted(s: State, name: string) {
    (exists t :: TimedOutNamed(s, t, name)) || (exists t :: SignalsDevice(s, t))
  }

  ghost predicate OwnAck(s: State, t: Tid, r: Result) {
    r.Acked? ==> r.marker == t
  }

  /** What holds of a device command whose name is not tainted. */
  ghost predicate Attributed(s: State, t: Tid, th: Thread) {
    && (Outstanding(s, t) ==> th.pc.Writing? || th.pc == Waiting)
    && (th.pc.Leaving? ==> OwnAck(s, t, th.pc.early))
    && (th.pc.Done? ==> OwnAck(s, t, th.pc.result))
    && (InSlot(th) && s.rc.Some? ==> s.rc.value.marker == t)
  }

  ghost predicate AttributedOk(s: State) {
    forall t :: t in s.threads && s.threads[t].req.Cmd? && !Tainted(s, s.threads[t].req.name) ==>
      Attributed(s, t, s.threads[t])
  }

  lemma TaintStays(s: State, e: Event, name: string)
    requires Enabled(s, e) && Tainted(s, name)
    ensures Tainted(Next(s, e), name)
  {
    var q := Next(s, e);
    if t :| TimedOutNamed(s, t, name) {
      assert TimedOutNamed(q, t, name);
    } else {
      var t :| SignalsDevice(s, t);
      assert SignalsDevice(q, t);
    }
  }

  lemma OutstandingShrinks(s: State, e: Event, t: Tid)
    requires Inv(s) && Enabled(s, e) && t in s.threads && Outstanding(Next(s, e), t)
    ensures Outstanding(s, t) || (e.Write? && e.t == t && t in Next(s, e).log)
  {
    var q := Next(s, e);
    match e
    case Dispatch(m, rc) => InFlightAppend(s, q.stdin[|s.stdin|]);
    case Noise(text) => InFlightAppend(s, q.stdin[|s.stdin|]);
    case ReadLine => ReadReply(s);
    case _ =>
  }

  /** The reply in the reader's hand, if its name is untainted and in the slot, is the slot owner's. */
  lemma HandIsOwners(s: State, t: Tid)
    requires Inv(s) && AttributedOk(s) && s.hand.Some? && t in s.threads && InSlot(s.threads[t])
    requires s.name == Some(s.hand.value.name) && !Tainted(s, s.threads[t].req.name)
    ensures s.hand.value.marker == t
  {
    var r := s.hand.value;
    var m := r.marker;
    assert ThreadOk(t, s.threads[t], s.dev, s.out, t in s.log);
    assert ThreadOk(m, s.threads[m], s.dev, s.out, m in s.log);
    assert !SignalsDevice(s, m);
    assert Outstanding(s, m);
    assert Attributed(s, m, s.threads[m]);
  }

  lemma LookAttributed(s: State, v: Tid, late: bool, t: Tid)
    requires Inv(s) && Enabled(s, Look(v, late)) && t in s.threads && s.threads[t].req.Cmd?
    requires Attributed(s, t, s.threads[t]) && !Tainted(Settle(s, v), s.threads[t].req.name)
    ensures Attributed(Settle(s, v), t, Settle(s, v).threads[t])
  {
    var q := Settle(s, v);
    assert ThreadOk(t, s.threads[t], s.dev, s.out, t in s.log);
    assert ThreadOk(v, s.threads[v], s.dev, s.out, v in s.log);
    if v == t && s.rc.None? {
      assert q.threads[t].pc == Leaving(TimedOut);
      assert TimedOutNamed(q, t, s.threads[t].req.name);
    }
  }

  lemma NoteAttributed(s: State, t: Tid)
    requires Inv(s) && AttributedOk(s) && s.hand.Some? && t in s.threads && s.threads[t].req.Cmd?
    requires Attributed(s, t, s.threads[t]) && !Tainted(s, s.threads[t].req.name)
    ensures Attributed(Note(s), t, Note(s).threads[t])
  {
    assert ThreadOk(t, s.threads[t], s.dev, s.out, t in s.log);
    if InSlot(s.threads[t]) && s.name == Some(s.hand.value.name) {
      HandIsOwners(s, t);
    }
  }

  /** A step of thread `t` itself, other than its last look. */
  lemma OwnAttributed(s: State, e: Event, t: Tid)
    requires Inv(s) && Enabled(s, e) && !e.Look? && t in s.threads && s.threads[t].req.Cmd?
    requires Mover(e) == Some(t)
    requires Attributed(s, t, s.threads[t])
    ensures Attributed(Next(s, e), t, Next(s, e).threads[t])
  {
    assert ThreadOk(t, s.threads[t], s.dev, s.out, t in s.log);
    if Outstanding(Next(s, e), t) {
      OutstandingShrinks(s, e, t);
    }
  }

  /** A step that does not touch thread `t` or fill the slot. */
  lemma OtherAttributed(s: State, e: Event, t: Tid)
    requires Inv(s) && Enabled(s, e) && !e.Record? && t in s.threads && s.threads[t].req.Cmd?
    requires Mover(e) != Some(t) && Attributed(s, t, s.threads[t])
    ensures Attributed(Next(s, e), t, Next(s, e).threads[t])
  {
    Unmoved(s, e, t);
    if Outstanding(Next(s, e), t) {
      OutstandingShrinks(s, e, t);
    }
  }

  lemma StepAttributedThread(s: State, e: Event, t: Tid)
    requires Inv(s) && AttributedOk(s) && Enabled(s, e)
    requires t in s.threads && s.threads[t].req.Cmd? && !Tainted(Next(s, e), s.threads[t].req.name)
    ensures Attributed(Next(s, e), t, Next(s, e).threads[t])
  {
    if Tainted(s, s.threads[t].req.name) {
      TaintStays(s, e, s.threads[t].req.name);
    }
    assert Attributed(s, t, s.threads[t]);
    if e.Look? {
      LookAttributed(s, e.t, e.late, t);
    } else if e.Record? {
      NoteAttributed(s, t);
    } else if Mover(e) == Some(t) {
      OwnAttributed(s, e, t);
    } else {
      OtherAttributed(s, e, t);
    }
  }

  lemma StepAttributed(s: State, e: Event)
    requires Inv(s) && AttributedOk(s) && Enabled(s, e)
    ensures AttributedOk(Next(s, e))
  {
    var q := Next(s, e);
    forall t | t in q.threads && q.threads[t].req.Cmd? && !Tainted(q, q.threads[t].req.name)
      ensures Attributed(q, t, q.threads[t])
    {
      if t in s.threads {
        StepKept(s, e);
        StepAttributedThread(s, e, t);
      }
    }
  }

  lemma StepInv(s: State, e: Event)
    requires Inv(s) && AttributedOk(s) && Enabled(s, e)
    ensures Inv(Next(s, e)) && AttributedOk(Next(s, e))
  {
    StepThreads(s, e);
    StepSlot(s, e);
    StepLog(s, e);
    StepPty(s, e);
    StepAcks(s, e);
    StepResults(s, e);
    StepAttributed(s, e);
  }

  lemma {:induction false} RunInv(s: State, events: seq<Event>, q: State)
    requires Inv(s) && AttributedOk(s) && Run(s, events, q)
    ensures Inv(q) && AttributedOk(q)
    decreases |events|
  {
    if events != [] {
      StepInv(s, events[0]);
      RunInv(Next(s, events[0]), events[1..], q);
    }
  }

  // ---- putting runs together ---------------------------------------------------------------

  lemma Prepend(s: State, e: Event, events: seq<Event>, q: State)
    requires Enabled(s, e) && Run(Next(s, e), events, q)
    ensures Run(s, [e] + events, q)
  {
    assert ([e] + events)[1..] == events;
  }

  lemma {:induction false} RunAppend(s: State, a: seq<Event>, m: State, b: seq<Event>, q: State)
    requires Run(s, a, m) && Run(m, b, q)
    ensures Run(s, a + b, q)
    decreases |a|
  {
    if a == [] {
      assert a + b == b;
    } else {
      assert (a + b)[0] == a[0] && (a + b)[1..] == a[1..] + b;
      RunAppend(Next(s, a[0]), a[1..], m, b, q);
    }
  }

  lemma RunOne(s: State, e: Event)
    requires Enabled(s, e)
    ensures Run(s, [e], Next(s, e))
  {
    assert [e][1..] == [];
  }

  lemma RunThen(s: State, events: seq<Event>, m: State, e: Event)
    requires Run(s, events, m) && Enabled(m, e)
    ensures Run(s, events + [e], Next(m, e))
  {
    RunOne(m, e);
    RunAppend(s, events, m, [e], Next(m, e));
  }
}
