# Verified models of the lava-mcp session components

lava-mcp lets an agent open interactive sessions on boards that LAVA, a test lab scheduler, hands
out. Four parts of it keep state that several parties change at once, or compute something that
another part relies on. This project models those four parts in Dafny and proves what they promise.
Everything is proved for all inputs and all runs; nothing is bounded.

**The session supervisor** (`RelayText`, `RelayProtocol`, `RelayRuns`, `RelayClaims`,
`RelayLateAck`, `SessionRelay`). Client threads, a stdin reader and the tunnel thread share one pty,
one slot for the device command in flight, two locks and a condition variable. The model is a
labelled step system: a program counter per thread, owners of the locks, the pty character by
character. An ack on stdin carries a command name only, which the dispatcher reads off the pty; the
model remembers beside it, as a history that the modelled code never reads, which marker it answers.
`SessionRelay.Supervisor` holds the real globals and updates them one critical section at a time;
its ghost `model` is the state of the step system.

**The console proxy and its endpoint** (`SentinelWindow`, `ConsoleProxy`, `ConsoleRuns`,
`ConsoleForwarding`, `ConsoleRelay`, `ConsoleEndpoint`, `ConsoleSessions`). One task reads the
board's console, many watchers read and type, short control connections deliver the endpoint. An
event of the state machine is the code one task runs between two awaits. `ConsoleRelay.Relay` is the
object with the proxy's globals and what each peer will send; its `Valid()` says that its state is
one the machine reaches. `ConsoleEndpoint` follows an endpoint from a connection command through a
session and its control lines to the proxy, and `ConsoleSessions.ConsoleSession` is the session
object, with that world as a ghost.

**The artifact store** (`ArtifactModel`, `ArtifactRuns`, `ArtifactClaims`, `ArtifactStream`,
`ArtifactObjects`). The disk is three maps (metadata, blobs, part files). Each operation is a change
of memory together with the list of its file-system steps in the order the code performs them; a
crash stops after any number of them and starts a new process on what is there. Uploads are one step
per chunk, so deletions, expiries and other uploads interleave with them.
`ArtifactObjects.ArtifactStore` is the object with mutable artifacts; it records its file-system
steps, and its `Valid()` says that its state is one the machine reaches from an empty directory
through any operations and crashes, so the claims of `ArtifactClaims` hold of it; several methods
state them as their own results.

**Download labels** (`DownloadLabels`, `LabelLaws`). The image keys of a downloads action, with the
termination of the collision loop, and the paths the server reports for them. `LabelLaws` says what
the label of a URL is in terms of its text.

`Text` holds what these share: `split()`, `strip()`, substring search, decimal numerals and `int()`.

Where the code and its documentation differ, the code is modelled:

- The supervisor's header says that a `cmd` waits for the dispatcher's ack. An ack names only the
  command, so after a timeout the next request of that name can be answered with the late ack
  (`RelayLateAck.LateAckMisleads`). `RelayClaims.ForeignAckIff` says exactly when, and
  `RelayClaims.AckIsOwn` when it cannot happen.
- The proxy is meant to enable writes once the sentinel has been seen. A full 4096-byte read can push
  the start of a straddling occurrence out of the window; `SentinelWindow.WindowExactIff` gives the
  exact bound on the size of a read.
- The periodic check in `write_stream` is described as keeping a runaway upload from filling the disk.
  It looks at the space left before the chunk at hand and then not again for 64 MiB.
  `ArtifactStream.FloorHoldsIff` says exactly when the floor is kept, and `FloorOvershoot` with
  `FloorOvershootExact` how far an upload can go below it.
- `_flush_pending_tokens` says that a failed deletion is retried. The names are taken off the queue
  before the call and errors are dropped, so a name is handed out at most once
  (`ArtifactClaims.TokenConservation`).
- The server reports a download's path from its URL alone, while the labels depend on the other items;
  `DownloadLabels.AllPathsRightIff` says exactly when the reported paths are right.

## Model

Where a row says "is the machine's step", the contract equates the object's whole new state with the
step function applied to the old state; the lemmas about runs then speak about the object. What a
step function does is told beside it in terms of the source's own text, numbers and events. A name
is untainted while no request of that name has timed out and no client has signalled a DEVICECMD.

| member | source | states |
|---|---|---|
| `RelayText.ParseRequest` | interactive/lava-session-supervisor:106-119 | a request that is carried out is a `cmd` or `signal` whose marker is one line: a `cmd` name is a valid token, a `signal` body is not empty and has no `>` and no newline |
| `RelayText.ClientCommandAccepted` | interactive/lava-session-supervisor:106-113 | `cmd <name>` with any valid token is carried out under exactly that name |
| `RelayText.ParseCommand` | interactive/lava-session-supervisor:106-113 | `cmd` is carried out under its stripped argument exactly if that is a token, and is answered `err invalid name` otherwise |
| `RelayText.ParseSignal` | interactive/lava-session-supervisor:114-119 | `signal` is carried out with exactly its body if that is not empty and has no `>`, and is answered `err invalid signal` otherwise |
| `RelayText.ParseOther` | interactive/lava-session-supervisor:120-121 | any other verb is answered `err unknown verb` |
| `RelayText.LinesRoundTrip` | interactive/lava-session-supervisor:58-62 | the complete lines of the pty are, in emission order, exactly `<LAVA_SIGNAL_DEVICECMD name>`, `<LAVA_SIGNAL_body>` or the supervisor's own line for each emitted request |
| `RelayText.DeviceShown` | interactive/lava-session-supervisor:86 | a reader of `<LAVA_SIGNAL_DEVICECMD ...>` gets off a request's line exactly the device command it asks for, for a `cmd` its own name |
| `RelayText.FramingRoundTrip` | interactive/lava-session-supervisor:58-62 | whole emitted lines followed by an incomplete one: a line parser for `<LAVA_SIGNAL_...>` gives back exactly the bodies emitted, in order (LinesRoundTrip says what the lines are) |
| `RelayText.AckRoundTrip` | interactive/lava-session-supervisor:47-53 | `<LAVA_DEVICECMD_ACK name rc>` with a valid command name, searched with the pattern of `_ACK_RE`, yields that name and that return code |
| `RelayRuns.StepInv` | interactive/lava-session-supervisor:58-92 | every lock operation, critical section and partial write of any thread keeps the invariant: lock ownership, the slot, the shape of the pty, at most one in-flight copy of each ack, and whose ack each result is |
| `RelayRuns.RunInv` | interactive/lava-session-supervisor:58-92 | the invariant holds after every interleaving of any number of clients, the reader, the dispatcher and the tunnel thread |
| `RelayClaims.SlotOwnership` | interactive/lava-session-supervisor:81-92 | in every reachable state at most one thread is inside `_dev_lock`, and `_pending_name` is set exactly while that thread is between registering and its last look, to that thread's own name |
| `RelayClaims.PtyFraming` | interactive/lava-session-supervisor:58-62 | in every reachable state the pty is whole lines, one per `emit`, plus a part of the current writer's line; in emission order the lines are `<LAVA_SIGNAL_DEVICECMD name>` for a device command, `<LAVA_SIGNAL_body>` for a signal, and the supervisor's own; the device commands the dispatcher reads off them are exactly those asked for; every finished request is there |
| `RelayClaims.AckIsRecent` | interactive/lava-session-supervisor:82-92 | in every run a result that is not a timeout is the return code of an ack that was not yet consumed when the request registered, and that the pattern reads as an ack of the request's own name with exactly this code, whether a device command or a client's `signal DEVICECMD ...` emitted the acked marker; for a device command the code is the one the dispatcher sent for it |
| `RelayClaims.AckIsOwn` | interactive/lava-session-supervisor:81-92 | if no request of that name has timed out and no client has signalled a DEVICECMD, a result that is not a timeout is the dispatcher's ack of the request's own marker |
| `RelayClaims.NoLostAck` | interactive/lava-session-supervisor:73-92 | an ack of the pending name (the request's own ack always is one) that the reader records between registration and the last look is never reported as a timeout |
| `RelayClaims.StaleCanBeTaken` | interactive/lava-session-supervisor:73-92 | from any reachable state with a waiting request and an outstanding ack of another request of the same name, some continuation ends with the waiting request answered by that ack |
| `RelayClaims.ForeignAckIff` | interactive/lava-session-supervisor:73-92 | a waiting request whose slot is empty can end with another marker's ack, in some run where nobody signals a DEVICECMD, if and only if the ack of another request of its name is outstanding |
| `RelayLateAck.LateAckMisleads` | interactive/lava-session-supervisor:79-92 | for every valid name there is a run from the start in which one request times out and the next one of that name is answered with the first one's ack: the hypothesis of AckIsOwn is needed |
| `SessionRelay.Supervisor.HandleClient` | interactive/lava-session-supervisor:99-119 | a malformed request is answered at once and starts nothing; a good one becomes a thread with exactly that request; an empty read changes nothing |
| `SessionRelay.Supervisor.Register` | interactive/lava-session-supervisor:83-85 | the slot holds the name and no return code before anything is emitted |
| `SessionRelay.Supervisor.WaitOver` | interactive/lava-session-supervisor:87-92 | returns the recorded return code, or 1 when there is none, and clears the slot in the same section; is the machine's step |
| `SessionRelay.Supervisor.Answer` | interactive/lava-session-supervisor:113 | the reply is `rc <n>`; if the name is untainted, n is the return code the dispatcher sent for this very request |
| `SessionRelay.Supervisor.Write` | interactive/lava-session-supervisor:60-61 | any part of the line may reach the pty; is the machine's step and appends exactly that part |
| `SessionRelay.Supervisor.DropOut` | interactive/lava-session-supervisor:58-119 | when `_stdout_lock` is released the pty is whole lines, `<LAVA_SIGNAL_DEVICECMD name>` for a device command and `<LAVA_SIGNAL_body>` for a signal, in emission order, and the dispatcher reads off exactly the device commands asked for; a signal is answered `ok` |
| `SessionRelay.Supervisor.ReadLine` | interactive/lava-session-supervisor:65-72 | the reader takes a line and matches the pattern; is the machine's step |
| `SessionRelay.Supervisor.Record` | interactive/lava-session-supervisor:73-76 | only an ack of the pending name is kept; is the machine's step |
| `SentinelWindow.TailIsLast` | interactive/ser2net-proxy/console-proxy.py:104-108 | while locked, `tail` is the last min(4096, n) of the n bytes read so far; once unlocked, the stream has shown the sentinel, for every chunking |
| `SentinelWindow.CompletedInWindow` | interactive/ser2net-proxy/console-proxy.py:104-106 | the read that completes the first occurrence unlocks the console if it has at most 4096 - |sentinel| + 1 bytes |
| `SentinelWindow.ShortReadsExact` | interactive/ser2net-proxy/console-proxy.py:104-108 | with such reads the windowed search is the search of the whole stream |
| `SentinelWindow.StraddlingMissed` | interactive/ser2net-proxy/console-proxy.py:90-108 | for every sentinel of 1 to 4096 bytes there is a stream whose reads are one byte longer than the bound, which shows the sentinel and leaves the console locked |
| `SentinelWindow.LongSentinelMissed` | interactive/ser2net-proxy/console-proxy.py:104-108 | a sentinel longer than the window never unlocks, whatever the reads |
| `SentinelWindow.WindowExactIff` | interactive/ser2net-proxy/console-proxy.py:90-108 | the windowed search agrees with the whole-stream search on all streams with reads of at most `bound` bytes if and only if bound <= 4096 - |sentinel| + 1 |
| `SentinelWindow.DefaultSentinelBound` | interactive/ser2net-proxy/console-proxy.py:36-38 | for the default sentinel, reads of up to 4096 bytes can miss it and reads of up to 4072 bytes cannot |
| `ConsoleProxy.ReadHead` | interactive/ser2net-proxy/console-proxy.py:117-136 | head plus what is left is the peer's byte stream; the head is the first bytes up to the limit or to the first timeout or end of stream, however they were split |
| `ConsoleProxy.ReadControlPrefix` | interactive/ser2net-proxy/console-proxy.py:117-136 | as ReadHead, and with no timeout or end of stream in the way a connection is classified by its bytes alone |
| `ConsoleProxy.NextReadKeeps` | interactive/ser2net-proxy/console-proxy.py:162 | a later read takes the next piece and leaves the rest: nothing is lost or reordered |
| `ConsoleProxy.NextReadTakes` | interactive/ser2net-proxy/console-proxy.py:162 | a read gives the first piece, or its first n bytes, and nothing only at the end of the stream |
| `ConsoleProxy.StepInv` | interactive/ser2net-proxy/console-proxy.py:76-183 | every step of every task keeps the invariant of the relay: gate, endpoint, fan-out, and what each watcher has on the board |
| `ConsoleProxy.RunInv` | interactive/ser2net-proxy/console-proxy.py:76-183 | the invariant holds after every interleaving of the tasks |
| `ConsoleRuns.RunGrows` | interactive/ser2net-proxy/console-proxy.py:76-183 | along every run the sentinel is fixed, the stream only grows, `writable` never goes back to false, and a connection that has left never registers again |
| `ConsoleRuns.RunRetired` | interactive/ser2net-proxy/console-proxy.py:97-102 | a connection that is not registered, discarded ones included, is sent nothing more along any run |
| `ConsoleRuns.ReadOnlyUntilReady` | interactive/ser2net-proxy/console-proxy.py:104-108 | in every reachable state whose console stream does not show the sentinel, no byte has been handed to the board and writes are disabled |
| `ConsoleRuns.ReadyWhenShown` | interactive/ser2net-proxy/console-proxy.py:104-108 | with reads within the bound, writes are enabled exactly when the stream shows the sentinel, across reconnects |
| `ConsoleRuns.BoardInterleaves` | interactive/ser2net-proxy/console-proxy.py:157-183 | the board's input is an interleaving of the watchers' forwarded bytes; each watcher's are its reads in order, each whole or dropped, except that the read in progress or the last one of a finished handler may be cut; control connections put nothing there |
| `ConsoleForwarding.ExactlyForwarded` | interactive/ser2net-proxy/console-proxy.py:174-183 | along every run, told from the events: what a connection has put on the board, with what is left of a read in progress, is byte by byte the reads handed over while writes were enabled and the console was connected, each over the connection of that moment; the others are dropped; only a handler that has ended may have left the last unfinished |
| `ConsoleForwarding.BoardIsForwarded` | interactive/ser2net-proxy/console-proxy.py:174-183 | from the start of the process: a handler waiting for its next read has put on the board exactly those reads |
| `ConsoleForwarding.EveryReadDecided` | interactive/ser2net-proxy/console-proxy.py:174-183 | read by read: written whole exactly if writes were enabled and the console connected when it was handed over, otherwise not at all; only the last read of a handler that has ended may be cut |
| `ConsoleForwarding.WriterIsLast` | interactive/ser2net-proxy/console-proxy.py:85-112 | the connection to the board is the last one made, unless it has been lost since |
| `ConsoleForwarding.ServedAreOpen` | interactive/ser2net-proxy/console-proxy.py:144-170 | a connection that has ended, and one that only delivers an endpoint, is never served |
| `ConsoleForwarding.ControlSets` | interactive/ser2net-proxy/console-proxy.py:144-150 | a control line `host port` with a decimal port sets the endpoint to that host and that number |
| `ConsoleForwarding.ControlIgnores` | interactive/ser2net-proxy/console-proxy.py:64-68 | a control line with fewer than two words, or whose port is no integer, changes nothing |
| `ConsoleForwarding.EndpointIsLast` | interactive/ser2net-proxy/console-proxy.py:62-73 | over every run the endpoint is the last valid one delivered on a control connection, or the pinned one if there was none, and `endpoint_ready` is set exactly when there is one |
| `ConsoleRuns.SentRun` | interactive/ser2net-proxy/console-proxy.py:97-102 | in any state, what a connection was sent is a contiguous run of the console stream from where it joined; a registered watcher has everything since; a control connection has nothing |
| `ConsoleRuns.ExactFanOut` | interactive/ser2net-proxy/console-proxy.py:97-102 | between any two states of a run a watcher that is still registered was sent exactly the console bytes read in between; one that left in between was sent exactly those read before the step that deregistered it, without the read whose write raised; one that had left was sent nothing |
| `ConsoleRuns.WhileRegistered` | interactive/ser2net-proxy/console-proxy.py:97-171 | over a whole run, whatever connects or disconnects, every watcher was sent exactly the console bytes read between the step that registered it and the step that deregistered it |
| `ConsoleRuns.GotIsTyped` | interactive/ser2net-proxy/console-proxy.py:157-165 | what `_to_board` has been presented with is everything the watcher's reads gave, in order, starting with what was read while sniffing |
| `ConsoleRelay.Relay.constructor` | interactive/ser2net-proxy/console-proxy.py:50-55 | the initial globals, with a pinned endpoint when the environment gives one; the machine's initial state |
| `ConsoleRelay.PinnedIs` | interactive/ser2net-proxy/console-proxy.py:186-190 | the pinned endpoint is the host and the number its port denotes |
| `ConsoleRelay.Relay.RecordEndpoint` | interactive/ser2net-proxy/console-proxy.py:62-73 | an invalid port is ignored, a known endpoint changes nothing, anything else is recorded and sets `endpoint_ready` |
| `ConsoleRelay.Relay.ConsoleConnected` | interactive/ser2net-proxy/console-proxy.py:80-87 | once there is an endpoint a new connection becomes the one to the board; is the machine's step |
| `ConsoleRelay.Relay.ConsoleLost` | interactive/ser2net-proxy/console-proxy.py:109-112 | afterwards there is no connection to the board; is the machine's step |
| `ConsoleRelay.Relay.SendToWatchers` | interactive/ser2net-proxy/console-proxy.py:98-102 | exactly the watchers whose write raises are discarded, and exactly the others are sent the read |
| `ConsoleRelay.Relay.ConsoleRead` | interactive/ser2net-proxy/console-proxy.py:90-108 | one read of the console is the machine's step; afterwards writes are enabled only if the stream has shown the sentinel (exactly then if all reads were within the bound), and every registered watcher has all of the stream since it joined |
| `ConsoleRelay.Relay.HandleWatcher` | interactive/ser2net-proxy/console-proxy.py:139-160 | from connection to registration: nothing read while sniffing is lost, and a connection with enough bytes before any timeout is a control connection exactly when it starts with the prefix |
| `ConsoleRelay.Relay.HandleControl` | interactive/ser2net-proxy/console-proxy.py:144-152 | if what the peer still sends starts with `host port` and a newline, that becomes the endpoint and the reader is woken; with fewer words, or a port that is no integer, nothing changes; the connection ends |
| `ConsoleRelay.Relay.HandleRead` | interactive/ser2net-proxy/console-proxy.py:161-165 | one read of a watcher takes up to 4096 bytes of the next piece its peer sends; it is on its way to the board exactly if writes are enabled and the console is connected, over that connection; at the end of the stream, and only then, the watcher is deregistered; `Valid()` keeps that what was got and what is still to come is the peer's whole stream |
| `ConsoleRelay.Relay.SendOne` | interactive/ser2net-proxy/console-proxy.py:179-183 | one byte goes to the connection captured when the read was accepted, and only if the console has shown the sentinel; is the machine's step |
| `ConsoleRelay.Relay.Close` | interactive/ser2net-proxy/console-proxy.py:166-170 | an exception in the handler deregisters the watcher; is the machine's step |
| `ConsoleEndpoint.Ser2netEndpoint` | lava_mcp/client.py:236-249 | an accepted command yields two non-empty fields without white space |
| `ConsoleEndpoint.CommandParsed` | lava_mcp/client.py:246-249 | a command is accepted exactly if its first word is telnet, nc or ncat and it contains `ser2net`; host and port are its second and third words, whatever follows |
| `ConsoleEndpoint.ShortCommand` | lava_mcp/client.py:246-249 | fewer than three words are not accepted |
| `ConsoleEndpoint.Discover` | lava_mcp/server.py:509-536 | an endpoint is found only with fields that can be sent on a control line |
| `ConsoleEndpoint.DiscoverMeans` | lava_mcp/server.py:523-536 | pending exactly if there is no job, no device yet, or a lookup raises; otherwise unsupported or found as the command is |
| `ConsoleEndpoint.SetportRoundTrip` | lava_mcp/gateway.py:548 | for every accepted command the gateway writes NUL, `LAVA-MCP-SETPORT host port` and a newline; the proxy recognises it and sets its endpoint to the same host and the integer the port denotes; a port that is no integer changes nothing |
| `ConsoleEndpoint.CommandRoundTrip` | lava_mcp/client.py:246-249 | an accepted command with a decimal port goes through parser, control line and decoder to the proxy unchanged |
| `ConsoleEndpoint.ArriveIsDeliver` | interactive/ser2net-proxy/console-proxy.py:144-150 | what a control line does to the proxy in the agreement results is the relay's own step |
| `ConsoleEndpoint.SerialAgreement` | lava_mcp/server.py:550-569 | with calls one after the other `console_target` is set at most once, every control line carries it, the proxy is unset or equal to it, and `endpoint_ready` holds exactly when an endpoint is recorded |
| `ConsoleEndpoint.OverlappingAgree` | lava_mcp/server.py:557-569 | overlapping calls keep the same agreement as long as they all find the same endpoint |
| `ConsoleEndpoint.OverlapAgreeIff` | lava_mcp/server.py:557-569 | for every set of pairs that discovery may find: session, control lines and proxy agree in all states that overlapping calls reach if and only if the set has no two different pairs |
| `ConsoleEndpoint.OverlapProxyIff` | lava_mcp/server.py:563-569 | for every such set: the proxy's endpoint never differs from what the session's target stands for if and only if all pairs of the set stand for the same endpoint, a port that is no integer standing for none |
| `ConsoleSessions.ConsoleSession.SetConsoleTarget` | lava_mcp/gateway.py:524-563 | the target is remembered in any case; a line with it is written exactly when the session is connected and a connection to the proxy is made, and True is returned only if nothing raised after that |
| `ConsoleSessions.ConsoleSession.EnsureConsoleTarget` | lava_mcp/server.py:550-569 | a known target is pushed again and never changed; an unknown one is discovered, remembered and pushed; afterwards every line ever written carries the target |
| `ConsoleSessions.ConsoleSession.LineArrives` | interactive/ser2net-proxy/console-proxy.py:144-150 | once the proxy has handled any of the session's lines it has the endpoint the target stands for, and `endpoint_ready` is set exactly if that is one |
| `ConsoleSessions.LineThroughRelay` | interactive/ser2net-proxy/console-proxy.py:139-152 | a session's line arriving at the relay object in any pieces, without a timeout in it, is taken for a control connection, and its host and decimal port become the endpoint |
| `ArtifactRuns.StepsSafe` | lava_mcp/artifacts.py:155-177 | every file-system step of every operation, in the code's order, may be the last one before a crash: any prefix leaves a disk on which every readable stored artifact is complete |
| `ArtifactRuns.CrashInv` | lava_mcp/artifacts.py:155-163 | stopping any operation after any number of its steps and starting again gives a store that satisfies the whole invariant |
| `ArtifactRuns.StepInv` | lava_mcp/artifacts.py:155-457 | every operation, completed or cut short by a crash, keeps the invariant: disk, index, uploads in flight, and tokens |
| `ArtifactRuns.RunInv` | lava_mcp/artifacts.py:155-457 | the invariant holds after every run |
| `ArtifactClaims.CrashConsistency` | lava_mcp/artifacts.py:362-388 | in every reachable state, and after a crash at any file-system step of any operation there, every `stored` artifact has a blob of exactly `size_actual` bytes, at most `max_bytes` |
| `ArtifactClaims.IndexIsLoad` | lava_mcp/artifacts.py:155-166 | after every completed operation `_artifacts` is exactly what `_load` would rebuild from the sidecars |
| `ArtifactClaims.RestartTransparent` | lava_mcp/artifacts.py:279-292 | a clean restart changes no answer of get, list_for, verify_token or delete; the queue of token deletions is empty afterwards |
| `ArtifactClaims.LifetimeBounds` | lava_mcp/artifacts.py:251-265 | `expires - created` lies in [1, max(1, ttl_max)], and `get` never returns an artifact at or past its expiry |
| `ArtifactClaims.GoneForever` | lava_mcp/artifacts.py:279-286 | an id that has been removed or seen expired is never returned by a later `get`, across restarts and crashes in the middle of any operation |
| `ArtifactClaims.NeverGone` | lava_mcp/artifacts.py:279-286 | what `get` returns would have been returned at every earlier point of the run since its id was issued |
| `ArtifactClaims.StoreBytesKeepsIff` | lava_mcp/artifacts.py:398-408 | store_bytes keeps the whole invariant if and only if it does not write an artifact that has been removed from the index; if it does, the index differs from what `_load` would rebuild and a restart brings the id back until it expires |
| `ArtifactClaims.UploadCollects` | lava_mcp/artifacts.py:332-361 | an upload in flight has exactly the chunks received for it, in order, whatever is interleaved |
| `ArtifactClaims.UploadOutcome` | lava_mcp/artifacts.py:331-396 | an upload that reaches the end of its stream succeeds exactly when its artifact is still there: then it is stored with blob equal to the concatenation of the chunks and `size_actual` its length, within the cap; otherwise no metadata, blob or part file of it is left |
| `ArtifactClaims.UploadFinishes` | lava_mcp/artifacts.py:360-396 | at any point of any run: what the end of a stream makes of an artifact, with the blob equal to all bytes received since its PUT began |
| `ArtifactClaims.UploadGivesUp` | lava_mcp/artifacts.py:363-384 | an upload that is rejected at a chunk or loses its client leaves no part file and changes no artifact |
| `ArtifactClaims.TokenConservation` | lava_mcp/artifacts.py:410-457 | within one process a token name recorded on a live artifact is in exactly one place: on that artifact, pending under its owner, or handed out once; never under another owner |
| `ArtifactClaims.OnlyOwner` | lava_mcp/server.py:1792-1796 | no name of an artifact's token is ever pending under, or handed to, anybody but the artifact's owner |
| `ArtifactClaims.PendingIsNew` | lava_mcp/artifacts.py:451-457 | a pending name has not been handed out before, and its artifact is gone |
| `ArtifactRuns.TokenNameInjective` | lava_mcp/server.py:1866 | different artifacts register different token names |
| `ArtifactStream.WriteChunks` | lava_mcp/artifacts.py:332-361 | the streaming loop computes Streamed, chunk by chunk: accepted bytes, checkpoint, and the reason of a rejection |
| `ArtifactStream.AcceptedWhole` | lava_mcp/artifacts.py:336-359 | an upload that is not rejected has written every byte of every chunk, within the cap |
| `ArtifactModel.CheckAdmission` | lava_mcp/artifacts.py:187-217 | admitted exactly if 0 <= size <= cap and size <= what may be stored now; each refusal has its own reason |
| `ArtifactStream.AdmittedKeepsFloor` | lava_mcp/artifacts.py:180-217 | an upload admitted with its announced length that keeps to it is never rejected, and leaves at least the floor free (or what was free, if less) |
| `ArtifactStream.StreamKeeps` | lava_mcp/artifacts.py:351-358 | after every accepted chunk less than 64 MiB have been written since the last check; that check saw room before its chunk, and checks are less than 64 MiB plus the largest chunk apart |
| `ArtifactStream.FloorOvershoot` | lava_mcp/artifacts.py:180-185 | for all chunks of at most C bytes and every prefix of them, when this upload is the only consumer: at most Worst bytes are written, that is, up to the furthest check that can pass and 64 MiB - 1 after it; so free space stays at or above min(F0, floor + 1) - (64 MiB - 1) - C |
| `ArtifactStream.FloorOvershootExact` | lava_mcp/artifacts.py:351-359 | the bound is exact: for every F0, floor and C of at least one byte, and every cap that allows it, some chunks write exactly Worst bytes |
| `ArtifactStream.FloorOvershootTight` | lava_mcp/artifacts.py:351-359 | for every floor and every C of at least one byte some volume reaches floor + 1 - (64 MiB - 1) - C, so no better bound holds for all |
| `ArtifactStream.FloorHoldsIff` | lava_mcp/artifacts.py:349-358 | chunks of at most C bytes never take free space below the floor (or below F0, if less) if and only if C is 0, the cap is at most the room above the floor, or C is 1 and the room ends one byte before a multiple of 64 MiB |
| `ArtifactObjects.ArtifactStore.Open` | lava_mcp/artifacts.py:138-143 | a new process, on an empty directory or on what an earlier one left at any file-system step of any operation, is the machine's restart; every stored artifact it finds is complete |
| `ArtifactObjects.ArtifactStore.LoadAll` | lava_mcp/artifacts.py:155-163 | the index is exactly the readable sidecars |
| `ArtifactObjects.ArtifactStore.Persist` | lava_mcp/artifacts.py:165-166 | truncate, then write the artifact's current fields |
| `ArtifactObjects.ArtifactStore.RemoveFiles` | lava_mcp/artifacts.py:168-177 | metadata first, then blob, then part; missing files are no error |
| `ArtifactObjects.ArtifactStore.Create` | lava_mcp/artifacts.py:234-277 | is the machine's step with its file-system steps in order; created exactly if 0 <= size <= cap and size <= headroom, else refused for the reason that applies; owner, hash, name and size are as asked, and the time to live is the one asked for or the default, between one second and the maximum |
| `ArtifactObjects.ArtifactStore.Lifetime` | lava_mcp/artifacts.py:251-252 | at least one second, and at most the configured maximum unless that is below one second |
| `ArtifactObjects.ArtifactStore.Get` | lava_mcp/artifacts.py:279-286 | returns exactly the live artifacts that have not expired, and those have been there ever since they were created and have a complete blob if stored; an expired one is removed as by the machine's expiry |
| `ArtifactObjects.ArtifactStore.HandlePut` | lava_mcp/server.py:754-768 | 404 exactly if the artifact is not there or expired, then 401 exactly if the token's hash is not the one drawn at create, then 409 exactly if it is stored, then 413 with the reason that applies unless the announced length, if any, is from 0 to the cap and within the headroom; otherwise the upload begins with an empty part file |
| `ArtifactObjects.ArtifactStore.MayUpload` | lava_mcp/artifacts.py:307-323 | without the token: exactly for a live, unexpired artifact that awaits its bytes, with an announced length, if any, from 0 to the cap and within the headroom |
| `ArtifactObjects.ArtifactStore.BeginUpload` | lava_mcp/artifacts.py:307-335 | is the machine's step; begins, with an empty part file, under exactly these conditions |
| `ArtifactObjects.ArtifactStore.ReceiveChunk` | lava_mcp/artifacts.py:336-359 | is the machine's step: ignored when empty; appended exactly if the cap is kept and, when 64 MiB have come since the last check, some headroom is left; otherwise rejected with the part file removed |
| `ArtifactObjects.ArtifactStore.ClientGone` | lava_mcp/artifacts.py:379-384 | is the machine's step: the part file is removed |
| `ArtifactObjects.ArtifactStore.FinishUpload` | lava_mcp/artifacts.py:360-396 | is the machine's step: rename, then record; it succeeds exactly when the artifact is still in the index, which is then stored with exactly the bytes received since its PUT began, and otherwise nothing of it is left |
| `ArtifactObjects.ArtifactStore.StoreBytes` | lava_mcp/artifacts.py:398-408 | takes any artifact object of the process: is the machine's step; stores exactly if the artifact awaits its bytes and their number is within cap and headroom; the state is one that a run reaches unless an artifact that has been removed was written, and then the index is not what `_load` would rebuild |
| `ArtifactObjects.ArtifactStore.Delete` | lava_mcp/artifacts.py:410-423 | is the machine's step; returns the removed object exactly when it was there and the requester is nobody in particular or its owner, and then none of its files is left |
| `ArtifactObjects.ArtifactStore.ListFor` | lava_mcp/artifacts.py:425-427 | expired artifacts are removed, and of the rest exactly the owner's are listed |
| `ArtifactObjects.ArtifactStore.SetLavaTokenName` | lava_mcp/artifacts.py:429-434 | is the machine's step: a live artifact gets the name `lava-mcp-artifact-<id>`, a missing one is left alone |
| `ArtifactObjects.ArtifactStore.ReapOne` | lava_mcp/artifacts.py:437-442 | is the machine's expiry step; none of the artifact's files is left |
| `ArtifactObjects.ArtifactStore.Reap` | lava_mcp/artifacts.py:444-449 | removes exactly the expired artifacts, by expiry steps only, and returns them |
| `ArtifactObjects.ArtifactStore.TakePendingTokenDeletions` | lava_mcp/artifacts.py:451-457 | hands over exactly the caller's pending names and keeps exactly the others; none was handed over before; is the machine's step |
| `DownloadLabels.BuildDownloads` | lava_mcp/jobs.py:191-201 | n downloads give exactly n images, each item's URL, and its headers if it has any, under its own label; the collision loop ends |
| `LabelLaws.LabelIsLast` | lava_mcp/jobs.py:173-177 | the label of prefix/name, with any query without a slash and any trailing slashes, is name, for a name of allowed characters that neither begins nor ends with an underscore |
| `LabelLaws.LabelOfWord` | lava_mcp/jobs.py:173-177 | the same for a URL that is one component |
| `LabelLaws.LabelSqueezes` | lava_mcp/jobs.py:176 | a run of refused characters inside the component becomes one underscore |
| `LabelLaws.LabelTrims` | lava_mcp/jobs.py:176 | refused characters at the ends of the component are dropped |
| `LabelLaws.LabelNumbers` | lava_mcp/jobs.py:177 | a component of refused characters only, or an empty one, gives dl and the position |
| `LabelLaws.LabelOfNothing` | lava_mcp/jobs.py:175-177 | an empty URL, or one of slashes only, gives dl and the position |
| `LabelLaws.KeyOf` | lava_mcp/jobs.py:191-201 | an item whose label no earlier item has been given is in the action under it |
| `LabelLaws.CollisionSuffix` | lava_mcp/jobs.py:195-196 | a taken label gets `_<position>` appended as often as it takes to be free, and not once more |
| `LabelLaws.ReportedPath` | lava_mcp/server.py:1338 | the reported path of prefix/name is /lava-downloads/name |
| `DownloadLabels.Free` | lava_mcp/jobs.py:194-196 | the loop ends with a label that is not taken and that extends the base label, equal to it exactly when that was free |
| `DownloadLabels.LabelsDistinct` | lava_mcp/jobs.py:192-201 | all labels of one action are different |
| `DownloadLabels.LabelsInert` | lava_mcp/jobs.py:173-177 | every label is non-empty and has only letters, digits, dot, underscore and hyphen |
| `DownloadLabels.LabelDotsIff` | lava_mcp/jobs.py:173-196 | a label is `.` or `..` if and only if the URL's last component is and no earlier item was given it |
| `DownloadLabels.PathRightIff` | lava_mcp/server.py:1338 | the reported path of an item is where LAVA puts it if and only if its stem is not empty (or it is the first item) and no earlier item was given that label |
| `DownloadLabels.AllPathsRightIff` | lava_mcp/server.py:1335-1342 | all reported paths (those of items with a URL) are right if and only if no later reported item has an empty stem, the reported paths are pairwise distinct, and none is the label given to an earlier item without a URL |

## Left out

- SetLavaTokenName: takes the name the server builds from the artifact's id, as its only caller does; the store accepts any name, and two artifacts of one owner with the same name would share one entry of the queue.
- EnsureConsoleTarget: is modelled with nothing running beside it; overlapping calls are the subject of OverlapAgreeIff and OverlapProxyIff.

Assumptions of the supervisor model:

- A thread identity stands for one call of `emit` and serves as the identity of the marker it writes.
- `emit` does not raise, and a section under `_ack_cond` is one step; `wait_for` may return late at any time.
- The dispatcher acks a marker on the pty at most once and sends acks of nothing else; other stdin lines do not match the ack pattern.
- The supervisor's own lines are single lines that do not start with a marker (the socket path comes from the environment).
- Accepting connections, errors on a client's socket, the tunnel process and its retry delays.
- Decoding with replacement characters: bytes and text are both sequences of characters, and `\d` and `int()` know the ASCII digits only.

Assumptions of the console model:

- Pacing delays and reconnect backoff are arbitrary interleavings; an exception in a watcher's handler is an event of its own.
- A task is interrupted only at awaits. `drain()` and `sleep()` after a byte are one point.
- The host field of the proxy is one unit with the port; the connection to it is a number per successful connect.
- The limits of 15 seconds on a push and of the stream reader's buffer on a control line are not modelled.
- Lines pushed by the gateway arrive whole, possibly repeatedly, late or in another order; other writers to the reverse port are not modelled, and neither are the session registry and its locks.
- A discovery's two REST answers are parameters; the device named by a job is opaque text.

Assumptions of the artifact model:

- Ids are fresh, the clock does not run backwards, and at most one upload per artifact is in flight; two simultaneous PUTs share one part file and are not modelled.
- Operations interleave at the awaits of `write_stream` only; threads that enter the store between its rename and its lock are not modelled, and each operation reads the clock once.
- Free space is a parameter at each check; the overshoot bound assumes that this upload is the only consumer and that writes are accounted at once.
- A torn metadata file is one that is truncated and not yet written; directory durability, torn pages and I/O errors other than an aborted upload.
- `create` is modelled after its call of `reap`, which is a sequence of expiry steps of its own.
- A restart keeps the configuration; what the first process finds is an empty directory.
- Tokens and their hashes are opaque text, and the comparison of hashes is equality.
- Runs call store_bytes, which only tests use, for artifacts that are still in the index; StoreBytesKeepsIff says what happens otherwise.
- The binding of an artifact to a job, beyond the `delete` that ends it, and the HTTP status codes.

Not modelled at all:

- `safe_filename` and the URL built from it: the store's paths do not use them.
- Download items that are not dictionaries or have no `url` key, on which `build_downloads_action` raises.
- The REST client apart from `ser2net_endpoint`, the tools and their instructions, job and ssh text builders, configuration.
- SSH roles and forwards, WebSocket bridging, key handling, IP rules.
- The git source mirror, containers, shell scripts.
