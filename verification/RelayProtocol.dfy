/** interactive/lava-session-supervisor: the threads that share one pty and one in-flight device
    command.  A thread id stands for one call of emit() with what surrounds it, so it is also the
    identity of the marker that call writes; acks carry it as a history, not as data.  Each event
    is one critical section, one lock operation, or one write. */
module RelayProtocol {
  import opened Text
  import opened RelayText

  type Tid = nat

  /** How a request ended.  `Acked` remembers whose marker the ack answered. */
  datatype Result = Sent | TimedOut | Acked(rc: nat, marker: Tid)

  datatype Pc =
    | Blocked              // before `with _dev_lock`
    | Granted              // holds _dev_lock, slot not set yet
    | Ready                // before `with _stdout_lock` in emit
    | Writing(done: nat)   // holds _stdout_lock, `done` characters written
    | Waiting              // in wait_for
    | Leaving(early: Result)  // slot cleared, _dev_lock still held
    | Done(result: Result)

  datatype Thread = Thread(req: Request, pc: Pc)

  /** A line on the supervisor's stdin, and the marker it acks, if any. */
  datatype Input = Input(text: string, marker: Option<Tid>)

  /** An ack the reader has matched but not recorded yet; then the recorded one. */
  datatype Reply = Reply(name: string, rc: nat, marker: Tid)

  datatype State = State(
    threads: map<Tid, Thread>,
    dev: Option<Tid>,          // owner of _dev_lock
    out: Option<Tid>,          // owner of _stdout_lock
    name: Option<string>,      // _pending_name
    rc: Option<Reply>,         // _pending_rc, with the ack it came from
    pty: string,
    log: seq<Tid>,             // whose line each complete line of the pty is
    acks: map<Tid, nat>,       // the rc of every marker the dispatcher has acked
    stdin: seq<Input>,
    hand: Option<Reply>
  )

  datatype Event =
    | Client(t: Tid, line: string)      // a connection's request line has been read
    | Announce(t: Tid, text: string)    // the supervisor calls emit itself
    | TakeDev(t: Tid)
    | Register(t: Tid)
    | TakeOut(t: Tid)
    | Write(t: Tid, n: nat)
    | DropOut(t: Tid)
    | Look(t: Tid, late: bool)          // wait_for returns; `late`: its time is up
    | DropDev(t: Tid)
    | Dispatch(at: nat, rc: nat)        // the dispatcher acks a device command it reads on the pty
    | Noise(text: string)               // any other line on stdin
    | ReadLine
    | Record                            // the reader's critical section

  const INIT := State(map[], None, None, None, None, "", [], map[], [], None)

  predicate At(s: State, t: Tid, pc: Pc) {
    t in s.threads && s.threads[t].pc == pc
  }

  predicate IsWriting(s: State, t: Tid) {
    t in s.threads && s.threads[t].pc.Writing?
  }

  /** The device command the dispatcher reads on line `k` of the pty, if any. */
  function DeviceAt(pty: string, k: nat): Option<string> {
    if k < |Lines(pty)| then DeviceIn(Lines(pty)[k]) else None
  }

  predicate Enabled(s: State, e: Event) {
    match e
    case Client(t, line) => t !in s.threads && line != ""
    case Announce(t, text) => t !in s.threads && WellFormed(Plain(text))
    case TakeDev(t) => At(s, t, Blocked) && s.dev == None
    case Register(t) => At(s, t, Granted) && s.threads[t].req.Cmd?
    case TakeOut(t) => At(s, t, Ready) && s.out == None
    case Write(t, n) =>
      && IsWriting(s, t) && n > 0 && s.threads[t].pc.done + n <= |Line(s.threads[t].req)|
    case DropOut(t) => IsWriting(s, t) && s.threads[t].pc.done == |Line(s.threads[t].req)|
    case Look(t, late) => At(s, t, Waiting) && (s.rc.Some? || late)
    case DropDev(t) => t in s.threads && s.threads[t].pc.Leaving?
    case Dispatch(k, rc) =>
      k < |s.log| && s.log[k] !in s.acks && DeviceAt(s.pty, k).Some?
    case Noise(text) => DecodeAck(text).None?
    case ReadLine => s.stdin != [] && s.hand == None
    case Record => s.hand.Some?
  }

  /** The existing thread that an event moves on. */
  function Mover(e: Event): Option<Tid> {
    match e
    case TakeDev(t) => Some(t)
    case Register(t) => Some(t)
    case TakeOut(t) => Some(t)
    case Write(t, _) => Some(t)
    case DropOut(t) => Some(t)
    case Look(t, _) => Some(t)
    case DropDev(t) => Some(t)
    case _ => None
  }

  function Goto(s: State, t: Tid, pc: Pc): map<Tid, Thread>
    requires t in s.threads
  {
    s.threads[t := s.threads[t].(pc := pc)]
  }

  function Arrive(s: State, t: Tid, line: string): State
    requires line != ""
  {
    match ParseRequest(line)
    case Refused(_) => s
    case Accepted(req) => s.(threads := s.threads[t := Thread(req, if req.Cmd? then Blocked else Ready)])
  }

  function Claim(s: State, t: Tid): State
    requires t in s.threads && s.threads[t].req.Cmd?
  {
    s.(name := Some(s.threads[t].req.name), rc := None, threads := Goto(s, t, Ready))
  }

  function WriteSome(s: State, t: Tid, n: nat): State
    requires IsWriting(s, t) && s.threads[t].pc.done + n <= |Line(s.threads[t].req)|
  {
    var line, done := Line(s.threads[t].req), s.threads[t].pc.done;
    s.(pty := s.pty + line[done..done + n],
       log := if done + n == |line| then s.log + [t] else s.log,
       threads := Goto(s, t, Writing(done + n)))
  }

  /** After emit: a device command goes on to wait, anything else is finished. */
  function AfterEmit(req: Request): Pc {
    if req.Cmd? then Waiting else Done(Sent)
  }

  /** device_command after wait_for: the last look at the slot decides. */
  function Outcome(rc: Option<Reply>): Result {
    match rc
    case Some(r) => Acked(r.rc, r.marker)
    case None => TimedOut
  }

  function Settle(s: State, t: Tid): State
    requires t in s.threads
  {
    s.(name := None, threads := Goto(s, t, Leaving(Outcome(s.rc))))
  }

  function Read(s: State): State
    requires s.stdin != []
  {
    var input := s.stdin[0];
    var hand := match DecodeAck(input.text)
                case Some(a) => if input.marker.Some? then Some(Reply(a.name, a.rc, input.marker.value)) else None
                case None => None;
    s.(stdin := s.stdin[1..], hand := hand)
  }

  function Note(s: State): State
    requires s.hand.Some?
  {
    s.(rc := if s.name == Some(s.hand.value.name) then s.hand else s.rc, hand := None)
  }

  function Dispatched(s: State, k: nat, rc: nat): State
    requires k < |s.log| && DeviceAt(s.pty, k).Some?
  {
    s.(acks := s.acks[s.log[k] := rc],
       stdin := s.stdin + [Input(AckText(DeviceAt(s.pty, k).value, rc), Some(s.log[k]))])
  }

  function Next(s: State, e: Event): State
    requires Enabled(s, e)
  {
    match e
    case Client(t, line) => Arrive(s, t, line)
    case Announce(t, text) => s.(threads := s.threads[t := Thread(Plain(text), Ready)])
    case TakeDev(t) => s.(dev := Some(t), threads := Goto(s, t, Granted))
    case Register(t) => Claim(s, t)
    case TakeOut(t) => s.(out := Some(t), threads := Goto(s, t, Writing(0)))
    case Write(t, n) => WriteSome(s, t, n)
    case DropOut(t) => s.(out := None, threads := Goto(s, t, AfterEmit(s.threads[t].req)))
    case Look(t, _) => Settle(s, t)
    case DropDev(t) => s.(dev := None, threads := Goto(s, t, Done(s.threads[t].pc.early)))
    case Dispatch(k, rc) => Dispatched(s, k, rc)
    case Noise(text) => s.(stdin := s.stdin + [Input(text, None)])
    case ReadLine => Read(s)
    case Record => Note(s)
  }

  ghost predicate Run(s: State, events: seq<Event>, q: State)
    decreases |events|
  {
    if events == [] then s == q
    else Enabled(s, events[0]) && Run(Next(s, events[0]), events[1..], q)
  }

  // ---- what holds of one thread ----------------------------------------------------------

  /** Inside device_command, between taking and releasing _dev_lock. */
  predicate HoldsDev(th: Thread) {
    th.req.Cmd? && th.pc != Blocked && !th.pc.Done?
  }

  /** Its name is in the slot. */
  predicate InSlot(th: Thread) {
    th.req.Cmd? && (th.pc == Ready || th.pc.Writing? || th.pc == Waiting)
  }

  /** Its whole line is on the pty. */
  predicate Emitted(th: Thread) {
    match th.pc
    case Writing(done) => done == |Line(th.req)|
    case Waiting => true
    case Leaving(_) => true
    case Done(_) => true
    case _ => false
  }

  predicate PcFits(th: Thread) {
    match th.pc
    case Blocked => th.req.Cmd?
    case Granted => th.req.Cmd?
    case Ready => true
    case Writing(done) => done <= |Line(th.req)|
    case Waiting => th.req.Cmd?
    case Leaving(r) => th.req.Cmd? && r != Sent
    case Done(r) => th.req.Cmd? <==> r != Sent
  }

  predicate ThreadOk(t: Tid, th: Thread, dev: Option<Tid>, out: Option<Tid>, logged: bool) {
    && WellFormed(th.req) && PcFits(th)
    && (HoldsDev(th) <==> dev == Some(t))
    && (th.pc.Writing? <==> out == Some(t))
    && (Emitted(th) <==> logged)
  }

  predicate ThreadsOk(s: State) {
    && (forall t :: t in s.threads ==> ThreadOk(t, s.threads[t], s.dev, s.out, t in s.log))
    && (s.dev.Some? ==> s.dev.value in s.threads)
    && (s.out.Some? ==> s.out.value in s.threads)
  }

  /** _pending_name is set exactly while the owner of _dev_lock is between registering and its
      last look, and then it is that thread's name. */
  predicate SlotOk(s: State) {
    s.name == if s.dev.Some? && s.dev.value in s.threads && InSlot(s.threads[s.dev.value])
              then Some(s.threads[s.dev.value].req.name) else None
  }

  // ---- the pty ---------------------------------------------------------------------------

  predicate LogOk(s: State) {
    && (forall i :: 0 <= i < |s.log| ==> s.log[i] in s.threads)
    && (forall i, j :: 0 <= i < j < |s.log| ==> s.log[i] != s.log[j])
  }

  function Requests(threads: map<Tid, Thread>, log: seq<Tid>): (r: seq<Request>)
    requires forall i :: 0 <= i < |log| ==> log[i] in threads
    ensures |r| == |log| && forall i :: 0 <= i < |log| ==> r[i] == threads[log[i]].req
  {
    seq(|log|, i requires 0 <= i < |log| => threads[log[i]].req)
  }

  /** The part of the current writer's line that is on the pty, while the line is incomplete. */
  function Partial(s: State): string {
    match s.out
    case None => ""
    case Some(t) =>
      if IsWriting(s, t) && s.threads[t].pc.done < |Line(s.threads[t].req)|
      then Line(s.threads[t].req)[..s.threads[t].pc.done] else ""
  }

  predicate PtyOk(s: State)
    requires LogOk(s)
  {
    s.pty == Flat(Requests(s.threads, s.log)) + Partial(s)
  }

  // ---- acks ------------------------------------------------------------------------------

  /** The markers whose ack has been sent and not yet recorded or dropped, in order. */
  function InFlight(hand: Option<Reply>, stdin: seq<Input>): seq<Tid> {
    (if hand.Some? then [hand.value.marker] else []) + Unread(stdin)
  }

  function Unread(stdin: seq<Input>): seq<Tid> {
    if stdin == [] then []
    else (if stdin[0].marker.Some? then [stdin[0].marker.value] else []) + Unread(stdin[1..])
  }

  predicate NoDup(s: seq<Tid>) {
    forall i, j :: 0 <= i < j < |s| ==> s[i] != s[j]
  }

  /** The dispatcher's ack of `req` with return code `code` is read as this name and return code;
      for a device command these are its own name and that code. */
  predicate ReadsAs(req: Request, code: nat, name: string, rc: nat) {
    && DeviceName(req).Some?
    && DecodeAck(AckText(DeviceName(req).value, code)) == Some(Ack(name, rc))
    && (req.Cmd? ==> name == req.name && rc == code)
  }

  /** A reply is what the ack of `marker` reads as. */
  predicate ReplyOk(s: State, r: Reply) {
    && r.marker in s.acks && r.marker in s.threads
    && ReadsAs(s.threads[r.marker].req, s.acks[r.marker], r.name, r.rc)
  }

  predicate InputOk(s: State, i: Input) {
    match i.marker
    case None => DecodeAck(i.text).None?
    case Some(m) =>
      && m in s.acks && m in s.threads && DeviceName(s.threads[m].req).Some?
      && i.text == AckText(DeviceName(s.threads[m].req).value, s.acks[m])
  }

  predicate ResultOk(s: State, th: Thread, result: Result) {
    result.Acked? ==>
      && result.marker in s.acks && result.marker in s.threads && th.req.Cmd?
      && ReadsAs(s.threads[result.marker].req, s.acks[result.marker], th.req.name, result.rc)
  }

  predicate AcksOk(s: State) {
    && (forall m :: m in s.acks ==> m in s.log)
    && (forall i :: 0 <= i < |s.stdin| ==> InputOk(s, s.stdin[i]))
    && (s.hand.Some? ==> ReplyOk(s, s.hand.value))
    && (s.rc.Some? ==> ReplyOk(s, s.rc.value))
    && (s.rc.Some? && s.name.Some? ==> s.rc.value.name == s.name.value)
    && NoDup(InFlight(s.hand, s.stdin))
    && (s.rc.Some? ==> s.rc.value.marker !in InFlight(s.hand, s.stdin))
  }

  predicate PcResultOk(s: State, th: Thread) {
    match th.pc
    case Leaving(r) => ResultOk(s, th, r)
    case Done(r) => ResultOk(s, th, r)
    case _ => true
  }

  predicate ResultsOk(s: State) {
    forall t :: t in s.threads ==> PcResultOk(s, s.threads[t])
  }

  predicate Inv(s: State) {
    ThreadsOk(s) && SlotOk(s) && LogOk(s) && PtyOk(s) && AcksOk(s) && ResultsOk(s)
  }
}
