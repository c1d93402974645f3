# Verified model of the runtime supervisor and of the gateway's credential and takeover protocols

This project models, and proves properties of, three parts of the repository.

1. **The runtime supervisor** (`supervisor/*.c`), the single-threaded init of a PID namespace that
   launches, ends, sweeps and cleans up runtime processes on the orders it reads from a socket; and
   the adapter's end of that socket (`pkg/adapter`), joined to it.
2. **The gateway's credential leases** (`cmd/lenny-gateway`): the deny list with its sweep, rebuild
   and revocation, and proactive renewal.
3. **Crash-takeover re-adoption** (`cmd/lenny-gateway/coordination_seams.go`): who owns the
   coordination lease and the adapter connection.

Check it with `dafny verify dfyconfig.toml` (Dafny 4.11).

## How it is built

**Environment.** Whatever another process, the peer, a store or the clock may do is an environment
step. For the supervisor, `Kernel.Sys` holds a finite script of batches of such steps; a system
call takes effect and then one batch runs, so a statement proved for every script holds for every
interleaving. When the script is used up the observation stops inside that call. The cleanup worker
has its own small kernel of the same form. The gateway classes let an arbitrary list of steps
of everything else run between any two of their calls; for the deny list that includes its other parts,
so sweep, rebuild and revocations interrupt each other. Every call that can fail in the source may fail
here.

**Observer.** `Protocol` is an automaton over the events an observer outside the supervisor could
see, with the time at which they happen: bytes received, lines taken, forks and what came of them,
statuses collected and wait4 running dry, signals sent, scans of the process table, waits, messages sent, hang-ups, exits.
A run is *accepted* when no event breaks a rule. `Supervisor.Server.Serve` is proved to produce only
accepted runs, for every script, and the theorems of `Runs`, `Traffic`, `Workers`, `Deadlines` and
`Verdicts` are about every accepted run. Each speaks of the events alone.

**Both ends.** `Link` joins the adapter to any accepted run of the supervisor by a byte stream each way, in
which bytes may be under way for any time. Each end spells its own half of the protocol: `Spelling` writes
the adapter's requests out letter by letter and `Adapter` says what the supervisor's parser makes of every
line the adapter can write; `Replies` is the adapter's decoder, with its own names, and gives back every
message the supervisor prints. `Generations` gives joint runs, the supervisor's part accepted by the
observer, through any number of generations.

**Numbers.** Theorems name limits, bounds, signals and exit codes by their values; the code uses named
constants.

**Records of answers.** Where an outcome depends on what a store, a pod or a fork answered, the call
records the answer, and the contract of the code that made the calls says which outcome those
answers require.

**Time.** Clock time that passes inside ppoll is kept apart from time that passes elsewhere. Upper
bounds are stated on the former, which is the bound under instantaneous computation; `Timing` says how
the two polling loops come by theirs. Lower bounds
(graces, backstops and windows are waited out) are stated on the clock itself.

| files | what they hold |
|---|---|
| `Base`, `Messages`, `WaitStatus`, `Signals` | shared values, wait statuses, signal sets and their installation |
| `LineReader` | the bounded line buffer and what splitting a stream into lines means |
| `Unicode`, `Grammar`, `Tables` | UTF-8; the concrete syntax of request lines, how it is written and what it means |
| `Recognizer`, `Acceptance`, `Escaping` | a reader that gives back the syntax it read, and which lines are requests |
| `Storage`, `Decoding`, `Parser` | the parser as it runs: a cursor, an arena and argument slots of fixed size |
| `Numbers`, `Templates` | decimal printing and parsing, reply lines |
| `Protocol`, `Kernel`, `Timing`, `Supervisor` | the observer, the kernel, polling loops and the supervisor's state machine |
| `Runs`, `Traffic`, `Workers` | theorems about every accepted run: launches and exits, lines and replies, workers |
| `Deadlines`, `Verdicts` | theorems about its instants, and about what each reply rests on |
| `GoJson`, `Adapter`, `Spelling` | the lines the adapter writes, and what the supervisor makes of them |
| `Replies`, `Link`, `Generations` | the adapter's decoder and its link, the two ends joined, and that they can go on |
| `CleanupWorker`, `FileTree`, `Sweep` | the two workers |
| `DenyList`, `DenySafety`, `DenySweep`, `Renewal` | the credential protocols |
| `Connections`, `Readopt` | crash takeover |

## What came out

- **A sweep may take up to 58 ms longer than its header says.** `supervisor/supervisor.h:50-57` promises an
  answer within the backstop plus two windows of 5000 ms. Each window is tested only when the code looks,
  every 50 ms for the worker and every 10 ms between end passes. Without computation time the answer to a
  sweep whose worker was sent the backstop SIGKILL comes exactly after the waits of the two loops
  (`Supervisor.Server.HandleSweep`), and a SIGCHLD may end a wait at any instant
  (`Kernel.WaitMayEndAnywhere`). One wait and one pause cut short make the answer late by any amount up to
  49 + 9 ms (`Timing.SweepOverruns`), and the observer accepts the run (`Timing.LateSweepIsAccepted`).
  `Timing.SweepBoundKeptExactly` says exactly when the bound is kept: with the worker lost and the end pass late,
  if and only if a look fell on the end of the one window and a check on the end of the other. It is kept whenever no wait is cut short (`Timing.UncutSweepKeepsBound`).
- **The link between adapter and supervisor never fails by itself.** The adapter drops the link on a reply
  that matches no request and on an exit of another generation. Neither happens, however messages overtake
  what the other side does, because the adapter launches again only after an end it saw succeed
  (`Link.LinkNeverFails`, `Link.LaunchesAreTaken`).
- **A cleanup within every limit can still end the supervisor.** The limits on commands, arguments and their
  sizes admit requests longer than a line may be, and a line that is too long ends the supervisor instead of
  being refused. `Adapter.SendableButTooLong` gives such a call, and `Adapter.LinesAreJudgedExactly` says exactly
  which calls are served, which are refused and which cannot be read.
- **A wait for a worker misses its status only after the backstop.** The early return for "no
  children" in `sv_wait_child` is never taken while a worker is waited for
  (`Supervisor.Server.WaitChild`).
- **A rebuild of the deny list can erase a revocation.** The rebuild lists the revoked credentials, counts their
  leases and then replaces the whole list (`cmd/lenny-gateway/credential_denylist_rebuild.go:115-119`,
  `pkg/gateway/credentials/denylist/denylist.go:59-67`), while revocations go on reaching it. One that is recorded
  after the listing and reaches the replica before the replacement is lost, with its lease unexpired
  (`DenySafety.RevocationErased`). A commit is safe exactly when every credential the replica was told of that
  has an unexpired lease is in the listing (`DenySafety.CommitSafeExactly`), and only revocations recorded after
  the listing of their store can be erased (`DenySafety.ErasedWasLate`). On every run in which leases are issued
  before revocation and extended before expiry, under any interleaving of sweep, rebuild and revocations and
  whatever fails, the list is safe in every state if and only if no commit erases one
  (`DenySafety.RunSafeExactly`).
- **The deny list is safe for good only if no extension comes late.** The sweep deletes rows that expire
  before its time and counts rows that expire after it. A row that expires at exactly that time is
  neither deleted nor counted, its deny entry goes, and a later extension makes the lease usable
  again; the rebuild leaves out lapsed rows in the same way. `DenySafety.LateExtensionRevives` gives the
  input, and `DenySafety.StrongExactly`, `DenySafety.TickExactly` and `DenySafety.RebuildExactly` say exactly when
  it cannot happen.
- **Of an exit, a reader of the notice learns the exit code or the signal and nothing else**, so lines are
  injective up to `Templates.Observed`.

## Model

| member | source | states |
|---|---|---|
| `WaitStatus.DecodeInvertsEncode` | supervisor/syscalls.h:134-136 | the three accessors recover every exit code and signal from the kernel's encoding, the signed-char trick included |
| `WaitStatus.ResultsByEnding` | supervisor/procs.c:379-399 | each reply error of a sweep or cleanup stands for exactly one set of worker endings, a missing status included |
| `Signals.HandledMask` | supervisor/signals.c:36-43 | the loop collects exactly the handled signals |
| `Signals.Dispositions.Install` | supervisor/signals.c:80-113 | no handler is set before everything is blocked; on success a wait unblocks exactly the signals with the recording handler, and handlers exclude each other |
| `LineReader.FirstLineExtends` | supervisor/wire.c:61-72 | later bytes never change where the first line ends |
| `LineReader.LineBuffer.constructor` | supervisor/supervisor.h:213-217 | an empty buffer of the longest line and one byte |
| `LineReader.LineBuffer.Take` | supervisor/wire.c:61-72 | the position of the first terminator, -1 without one, -2 exactly when the buffer exceeds the limit without one |
| `LineReader.LineBuffer.Consume` | supervisor/wire.c:74-82 | the in-place shift leaves exactly the bytes after the terminator |
| `LineReader.LineBuffer.Append` | supervisor/wire.c:84-95 | a read appends its bytes and touches nothing else |
| `Unicode.DecodeEncodes` | supervisor/wire.c:163-175 | the strict decoder of RFC 3629 undoes the encoder on every scalar sequence |
| `Unicode.DecodedIsEncoding` | supervisor/wire.c:163-175 | only encodings decode: no overlong form, no surrogate |
| `Tables.TableOfPermuted` | supervisor/wire.c:427-452 | permuted members with distinct keys give the same table |
| `Tables.LengthOfPermuted` | supervisor/wire.c:427-452 | permuting the members keeps the length of the line |
| `Recognizer.TextSound` | supervisor/wire.c:182-247 | a string that is read was written there, piece by piece |
| `Recognizer.TextComplete` | supervisor/wire.c:182-247 | every well-formed string body is read back as itself |
| `Recognizer.ReadSound` | supervisor/wire.c:250-325 | a value that is read was written there and has its shape |
| `Recognizer.ReadComplete` | supervisor/wire.c:250-325 | every well-formed value is read back as itself, whatever follows it |
| `Recognizer.ScanWhole` | supervisor/wire.c:427-459 | a written list of new members and a brace is read as exactly those members |
| `Recognizer.ScanList` | supervisor/wire.c:427-452 | a written list of new members and a comma is read as those members and reading goes on |
| `Recognizer.ParseBounds` | supervisor/wire.c:17-18 | every number of a request or of an attributable line is at most 2^53 - 1 |
| `Acceptance.AcceptedExactly` | supervisor/wire.c:414-466 | a line is accepted as a request if and only if it is a document of the grammar that means it, of at most 65536 bytes |
| `Acceptance.MembersJudged` | supervisor/wire.c:427-464 | the verdict on an object of well-formed members, each key once, depends on its table alone: a request, malformed with its head, or unreadable without one |
| `Acceptance.DocumentAccepted` | supervisor/wire.c:414-466 | every document of the grammar within the limit parses to its meaning |
| `Acceptance.AcceptedDocument` | supervisor/wire.c:414-466 | every accepted line is such a document |
| `Acceptance.MembersInAnyOrder` | supervisor/wire.c:427-452 | permuting the members of an accepted line changes neither verdict nor request |
| `Acceptance.HeadWasRead` | supervisor/wire.c:435-464 | a line that is answered opens with well-formed members, each key once, that include type, gen and id, and its head is theirs |
| `Acceptance.HeadIsFixed` | supervisor/wire.c:435-464 | nothing after type, gen and id changes what the line is answered with |
| `Acceptance.RepeatedKey` | supervisor/wire.c:435-438 | a repeated key after the head makes the line malformed with the first values |
| `Acceptance.UnknownKey` | supervisor/wire.c:429-438 | a name that is no key makes the line malformed with the head read before it, whatever its value looks like; one longer than any key may be makes it unreadable |
| `Acceptance.LongUnreadable` | supervisor/wire.c:425-426 | a line over the limit is unreadable |
| `Acceptance.StrayByteUnreadable` | supervisor/wire.c:109-126 | nothing but spaces, tabs, returns and newlines may come before the object |
| `Escaping.DecodingInvertsEscaping` | supervisor/wire.c:182-247 | every escaped form of a string of scalars is read and decodes to its UTF-8 encoding, without an inner NUL |
| `Escaping.DecodingInvertsSpelling` | supervisor/wire.c:182-247 | the same from the bytes: every form that section 7 of RFC 8259 gives a character, in either case of hexadecimal, is read as that character, after any white space |
| `Escaping.EscapedSpells` | supervisor/wire.c:212-232 | every scalar but NUL has a \u form, a surrogate pair beyond the basic plane |
| `Escaping.LoneSurrogateRejected` | supervisor/wire.c:216-228 | a lone surrogate or an escaped NUL is rejected wherever it stands |
| `Storage.StringReadBack` | supervisor/wire.c:243-246 | a stored string is what its reader finds up to the NUL |
| `Storage.ArgvReadBack` | supervisor/wire.c:287-299 | a stored argument vector is what its reader finds up to the null slot |
| `Storage.CommandsStay` | supervisor/wire.c:155-161 | what is stored stays readable as more is stored |
| `Decoding.ArgsAgree` | supervisor/wire.c:271-301 | the decoded list of strings is that of the grammar |
| `Decoding.CommandsAgree` | supervisor/wire.c:303-325 | the decoded list of commands is that of the grammar |
| `Decoding.ScanSkips` | supervisor/wire.c:109-132 | white space skipped early changes nothing |
| `Parser.LineParser.constructor` | supervisor/wire.c:416-423 | nothing read, nothing stored |
| `Parser.LineParser.SkipSpace` | supervisor/wire.c:109-117 | the cursor passes exactly the leading white space |
| `Parser.LineParser.Expect` | supervisor/wire.c:119-126 | succeeds exactly when the character comes next |
| `Parser.LineParser.Peek` | supervisor/wire.c:128-132 | tells whether it comes next and leaves it |
| `Parser.LineParser.Hex4` | supervisor/wire.c:134-153 | the value of four hex digits, in either case |
| `Parser.LineParser.Put` | supervisor/wire.c:155-161 | appends one byte, and fails exactly when the arena is full |
| `Parser.LineParser.PutUtf8` | supervisor/wire.c:163-175 | appends the UTF-8 form of a scalar |
| `Parser.LineParser.UnicodeEscape` | supervisor/wire.c:212-232 | decodes what the grammar reads after a backslash and a u, and fails on nothing else but a full arena |
| `Parser.LineParser.Character` | supervisor/wire.c:188-238 | decodes one character, writing no more bytes than it reads |
| `Parser.LineParser.Body` | supervisor/wire.c:187-242 | decodes up to the closing quote, with the limit on decoded bytes |
| `Parser.LineParser.Text` | supervisor/wire.c:182-247 | stores the decoded string with its NUL; the arena grows by less than the cursor moves |
| `Parser.LineParser.Uint` | supervisor/wire.c:250-268 | accepts exactly the integers of the grammar up to 2^53 - 1, with their value |
| `Parser.LineParser.Argument` | supervisor/wire.c:279-296 | stores one argument in its slot, within the slots |
| `Parser.LineParser.Argv` | supervisor/wire.c:271-301 | accepts exactly the argument lists within every limit and stores them with their null slot |
| `Parser.LineParser.CommandList` | supervisor/wire.c:303-325 | accepts exactly the command lists within every limit; every slot written is below 1024 + 64 |
| `Parser.LineParser.Member` | supervisor/wire.c:385-412 | decodes the value of a new key exactly as the grammar reads it; a failed optional member leaves the head as it was |
| `Parser.LineParser.KeyName` | supervisor/wire.c:430-434 | the key the decoded name stands for, and the colon |
| `Parser.LineParser.Members` | supervisor/wire.c:427-452 | the members seen and how their reading ended are those of the grammar; the arena stays below the cursor |
| `Parser.LineParser.ParseRequest` | supervisor/wire.c:414-466 | the verdict, and the request read back from the arena and the slots, are those of the grammar; a full arena never decides |
| `Parser.ParseLine` | supervisor/wire.c:414-466 | the running parser computes the grammar's outcome on every line |
| `Numbers.FormatU64` | supervisor/util.c:55-66 | writes the decimal form in place, at most twenty digits, and touches nothing else |
| `Numbers.ParseU64` | supervisor/util.c:68-83 | rejects exactly what is no digit string or does not fit 64 bits, and gives the value of the rest |
| `Numbers.PrintThenParse` | supervisor/util.c:55-83 | printing and parsing back is the identity on every 64-bit value |
| `Numbers.PrintedIsUnique` | supervisor/util.c:55-66 | a number has one form without leading zeros |
| `Numbers.RequestReadsPrinted` | supervisor/wire.c:250-268 | a printed number is read back as a request integer |
| `Templates.FormatReply` | supervisor/wire.c:470-498 | every reply fits 256 bytes and is the line of its message |
| `Templates.FormatExited` | supervisor/wire.c:505-519 | every exit notice fits 256 bytes; a signal is looked for first |
| `Templates.RenderedIsInjective` | supervisor/wire.c:482-519 | distinct messages print distinct lines, replies and notices together |
| `Templates.WireIsReadable` | supervisor/wire.c:482-519 | a reader who splits the stream at newlines learns every message, in order |
| `Kernel.Sys.Wait4` | supervisor/procs.c:70-82 | any exited child with its status, 0 without one, ECHILD exactly without children |
| `Kernel.Sys.Ppoll` | supervisor/signals.c:105-113 | returns by its timeout; without an event every pending handler has run; input or a hang-up that it found is on record |
| `Kernel.Sys.CountOthers` | supervisor/procs.c:113-139 | an atomic count of the table without the supervisor, zombies included, or a failure |
| `Kernel.WaitMayEndAnywhere` | supervisor/procs.c:93-111 | a SIGCHLD can end a wait after any time up to its timeout, with nothing new to collect |
| `Timing.PollsBounded` | supervisor/procs.c:198-248 | a loop that tests its window only when it looks outlasts it by less than a step |
| `Timing.WindowKeptExactly` | supervisor/procs.c:198-248 | such a loop keeps to its window if and only if it was over earlier or one of its looks fell on the window's end |
| `Timing.UncutKeepsWindow` | supervisor/procs.c:198-248 | it does so when no wait is cut short and the window is a whole number of steps |
| `Timing.SweepBoundKeptExactly` | supervisor/supervisor.h:50-57 | exactly when a sweep is answered within backstop plus both windows, from the waits and pauses alone; with the worker lost and the end pass late, if and only if a look and a check fell on the ends of the two windows |
| `Timing.SweepOverruns` | supervisor/supervisor.h:50-57 | waits and pauses, one of each cut short, that make a sweep late by any amount up to 58 ms |
| `Timing.UncutSweepKeepsBound` | supervisor/supervisor.h:50-57 | the bound of the header is kept when no wait and no pause is cut short |
| `Timing.LateSweepIsAccepted` | supervisor/supervisor.c:174-193 | from every accepted run that has just taken a sweep with no runtime process, the run in which the worker is killed at its backstop, never collected and seen by every scan is accepted up to its reply, for all waits and pauses that use up both windows |
| `Supervisor.TsUntilExact` | supervisor/util.c:130-139 | the timespec holds exactly the milliseconds left, below a second of nanoseconds |
| `Supervisor.CollectAgrees` | supervisor/procs.c:44-82 | filing a collected status keeps the slots, the pending exit and the observer in step |
| `Supervisor.Server.constructor` | supervisor/supervisor.c:304-324 | the state the serve loop starts in is in step with the observer |
| `Supervisor.Server.ReapRecord` | supervisor/procs.c:44-63 | a status goes to the first unreaped slot of its process, whose earlier status is never overwritten |
| `Supervisor.Server.ReapAll` | supervisor/procs.c:65-82 | it goes on until wait4 has nothing left to return; then an exited child has SIGCHLD pending, and without children no worker is left |
| `Supervisor.Server.Send` | supervisor/supervisor.c:98-117 | writes the line of a message the observer admits; a failed write is a hang-up, and the supervisor exits |
| `Supervisor.Server.ReportExited` | supervisor/supervisor.c:110-117 | the one pending exit is sent and no longer owed |
| `Supervisor.Server.ServiceChildren` | supervisor/procs.c:84-91 | afterwards nothing is owed and no exit is unnoticed |
| `Supervisor.Server.WaitUntil` | supervisor/procs.c:93-111 | blocks first of all, until its deadline, a signal or a close; returns by its deadline, with every exit before it collected, or with the connection closed |
| `Supervisor.Server.EndCleanPass` | supervisor/procs.c:174-184 | SIGKILL and a reap loop that ran dry before every scan; counts one more clean pass exactly when the scan found no process and pids.current no other |
| `Supervisor.Server.GraceWait` | supervisor/procs.c:193-197 | returns with the whole grace passed since SIGTERM, or with the connection closed, and waits no longer; a grace that is not 0 begins with one wait for all of it |
| `Supervisor.Server.Pause` | supervisor/procs.c:209-214 | late exactly as the bound says; if not, one wait of 10 ms, cut short only by a signal or a close |
| `Supervisor.Server.KillPasses` | supervisor/procs.c:198-215 | two clean passes in a row, an unreadable table, or the bound passed: the result says which; no pass begins once one was checked after the bound; it idles exactly for its pauses |
| `Supervisor.Server.EndPass` | supervisor/procs.c:186-219 | no error exactly with two clean passes in a row on an open connection; it takes exactly grace and pauses, without computation time, and at most grace + 5000 + 9 ms; no 64-bit overflow |
| `Supervisor.Server.LookAndWait` | supervisor/procs.c:227-248 | one look at the worker and, if it is not there yet, one wait: 50 ms, or up to the backstop, and after the kill one more wait of the loop with the window of 5000 ms |
| `Supervisor.Server.WaitChild` | supervisor/procs.c:221-249 | the status is the first one collected for the worker; it is missed only when the backstop kill and its window have passed; after the kill it takes exactly the waits of the loop, without computation time, and at most 5000 + 49 ms |
| `Supervisor.Server.HandleEnd` | supervisor/supervisor.c:154-161 | the run stays accepted to the reply, which comes exactly after grace and pauses, without computation time, and within grace + 5000 + 9 ms; the permit is set only for an attested end |
| `Supervisor.Server.HandleSweep` | supervisor/supervisor.c:174-193 | the run stays accepted to the reply, worker error before end error; without computation time a reply after the backstop kill comes exactly after backstop, waits and pauses; at most 49 + 9 ms above the header's bound |
| `Supervisor.Server.HandleCleanup` | supervisor/supervisor.c:234-247 | the run stays accepted to the reply with the worker's result, within timeout + slack + window + 49 ms |
| `Supervisor.Server.LaunchChild` | supervisor/procs.c:342-365 | no process without a pipe; what became of fork and exec is what is returned |
| `Supervisor.Server.HandleLaunch` | supervisor/supervisor.c:127-152 | the run stays accepted: refused with the right error, or accepted with the reply that fork and exec call for; nothing is collected before it |
| `Supervisor.Server.Dispatch` | supervisor/supervisor.c:253-281 | the run stays accepted to the one reply to a valid request, with its own head |
| `Supervisor.Server.DrainLines` | supervisor/supervisor.c:284-302 | afterwards no complete line is left and the rest is not too long |
| `Supervisor.Server.Fill` | supervisor/wire.c:84-95 | reads into the room left and appends what came; nothing read is a hang-up |
| `Supervisor.Server.Listen` | supervisor/supervisor.c:317-323 | waits for input and reads what is offered; the end of the stream ends the supervisor |
| `Supervisor.Server.Serve` | supervisor/supervisor.c:304-324 | every run is accepted, whatever the environment does; the read room is never zero |
| `Supervisor.Observe` | supervisor/supervisor.c:388-420 | from any namespace it may be started in, with SIGCHLD already handled or not, and whatever the rest of the world does, the observed run is accepted |
| `Runs.LaunchesAreNumbered` | supervisor/supervisor.c:127-152 | accepted launches carry generations 1, 2, 3 and so on |
| `Runs.LaunchesAreSeparated` | supervisor/supervisor.c:154-193 | between two accepted launches an end or sweep was answered out of its own end pass, whose last scans are two clean passes in a row |
| `Runs.OneRuntimeAtATime` | supervisor/supervisor.c:133-146 | a second process is launched only after the first was collected |
| `Runs.RuntimeAlwaysFits` | supervisor/supervisor.c:133-161 | a permit means an empty runtime slot and no exit to report |
| `Runs.ExitedIsInItsGeneration` | supervisor/supervisor.c:110-152 | exited(g) comes after launched(g) and before launched(g + 1) |
| `Runs.ExitedOnce` | supervisor/procs.c:44-63 | no generation's exit is reported twice |
| `Runs.NoExitedAfterEnded` | supervisor/supervisor.c:154-161 | after a successful ended(g) no exit of g or before is reported |
| `Runs.ExitIsReportedAtOnce` | supervisor/procs.c:84-91 | a launched process collected outside an end pass is reported next, unless the peer has hung up |
| `Runs.ReportedExitHappened` | supervisor/procs.c:44-91 | every reported exit is that of a launched process collected outside an end pass just before |
| `Traffic.RepliesFollowLines` | supervisor/supervisor.c:284-302 | every attributable line gets one reply, in line order, with its own type, gen and id; an unreadable line gets none |
| `Traffic.LinesOfUnlines` | supervisor/wire.c:61-82 | splitting undoes joining |
| `Traffic.LinesTakenAreTheStreams` | supervisor/supervisor.c:284-324 | the lines taken are the first lines of all bytes received |
| `Traffic.IdleMeansAnswered` | supervisor/supervisor.c:310-324 | a supervisor that waits with nothing to answer listens for input, without a timeout, and has answered every complete line |
| `Traffic.OfferedIsRead` | supervisor/supervisor.c:317-323 | input that a wait found is read before anything else happens |
| `Traffic.ChunkingDoesNotMatter` | supervisor/wire.c:61-95 | runs that received the same bytes in different reads took the same lines |
| `Traffic.LinesAreBounded` | supervisor/wire.c:69-71 | no line over the limit reaches the parser |
| `Traffic.ProtocolExitHasCause` | supervisor/supervisor.c:291-296 | a protocol exit follows an unreadable line or an endless one |
| `Traffic.UnreadableEndsTheRun` | supervisor/supervisor.c:295-296 | nothing follows an unreadable line but the exit |
| `Traffic.HangUpEndsTheRun` | supervisor/supervisor.c:92-123 | nothing follows a hang-up but the exit that says so |
| `Traffic.ExitsHaveCause` | supervisor/supervisor.c:92-123 | the supervisor exits only for a protocol error or right after a hang-up |
| `Traffic.NoLostWakeUp` | supervisor/procs.c:65-111 | whenever the supervisor blocks, an exited unreaped child has SIGCHLD pending |
| `Traffic.SignalsToAllAreAsked` | supervisor/procs.c:186-219 | signals to all, of any number, are sent only for an end or sweep of the current generation |
| `Traffic.WorkersAreAsked` | supervisor/supervisor.c:174-247 | a worker is forked only for the sweep or the cleanup being served, of the current generation, and for that one's work |
| `Traffic.BytesTellMessages` | supervisor/wire.c:482-519 | runs that wrote the same bytes sent the same messages, and every number in them fits its field |
| `Workers.StatusIsTheFirst` | supervisor/procs.c:221-233 | the status used is the first one collected for that worker, even if its PID is reused |
| `Workers.StatusHasSource` | supervisor/procs.c:44-63 | a held status was collected for a worker forked for this request |
| `Workers.SweptWithoutError` | supervisor/supervisor.c:174-193 | swept has no error if and only if the worker's first status was exit 0 and the end pass was attested |
| `Workers.EndedWithoutError` | supervisor/supervisor.c:154-161 | ended has no error if and only if its end pass ended with two clean passes in a row |
| `Deadlines.SignalsOfAnEndPass` | supervisor/procs.c:174-197 | signals to all are 15 and 9 and no other; an end pass opens with exactly one 15, and every later one in it is 9 |
| `Deadlines.GraceIsHonoured` | supervisor/procs.c:192-197 | SIGKILL goes to all only when the whole grace asked for has passed since the SIGTERM of the same end pass |
| `Deadlines.ScansFollowKills` | supervisor/procs.c:174-184 | every scan of the process table has its own SIGKILL to all before it, after the grace, and between the two the reap loop went on until nothing was left to collect |
| `Deadlines.BoundIsKept` | supervisor/procs.c:198-212 | no further SIGKILL to all once a pass was checked 5000 ms after the first |
| `Deadlines.EndRepliesTell` | supervisor/supervisor.c:154-161 | an end is answered without error exactly for two clean passes in a row, with a read error exactly if the last scan failed, and with the deadline only after a scan and grace + 5000 ms |
| `Deadlines.BackstopIsHonoured` | supervisor/procs.c:239-242 | the backstop signal is 9 and goes only to the request's worker, still uncollected, and no sooner than its backstop after the fork |
| `Verdicts.PermitIsEarned` | supervisor/supervisor.c:133-193 | the permit is held exactly when no launch was accepted since the latest clean end pass, or ever |
| `Verdicts.LaunchesAreAdmittedExactly` | supervisor/supervisor.c:127-138 | a launch is accepted if and only if its generation is the next one and the permit was earned; the refusal names the reason |
| `Verdicts.StaleRequestsAreRefused` | supervisor/supervisor.c:253-302 | every other request is refused for its generation if and only if that is not the number of launches accepted, and as malformed if and only if its line is |
| `Verdicts.LaunchRepliesTell` | supervisor/supervisor.c:139-151 | an accepted launch has no error if and only if its process was forked and the pipe reported no exec error; a pipe that was cut off or could not be read counts as none |
| `Verdicts.CleanupRepliesTell` | supervisor/supervisor.c:234-247 | cleaned tells the first status of the worker; without one the worker was not forked, or was killed after its backstop and its window waited out |
| `Verdicts.SweepRepliesTell` | supervisor/supervisor.c:174-193 | swept tells the worker's failure if it failed, by the same rule, and the result of the end pass otherwise |
| `GoJson.PiecesDecode` | pkg/adapter/supervise_wire.go:159-179 | every string of scalars without NUL, as encoding/json escapes it, decodes to its UTF-8 encoding |
| `GoJson.ReadFails` | supervisor/wire.c:250-325 | one wrong literal anywhere in a value makes the whole value unreadable |
| `Adapter.LinesAreJudgedExactly` | pkg/adapter/supervise_wire.go:133-179 | every line the adapter can write is the request it meant if and only if that is within 64 commands, 256 arguments each, 1024 in all, 4096 bytes a string and numbers of 2^53 - 1, malformed with its own head otherwise, and unreadable only if longer than 65536 bytes or numbered beyond |
| `GoJson.TagsAreKeys` | pkg/adapter/supervise_wire.go:133-155 | the supervisor takes a name for a member exactly when the adapter's request structures give that member that name |
| `Spelling.PlainIsSpelled` | supervisor/wire.c:339-412 | a launch, sweep or ping written out with type, gen and id is what the adapter writes and parses to exactly those values in those fields |
| `Spelling.EndIsSpelled` | supervisor/wire.c:339-412 | the same for an end with graceMs |
| `Spelling.CleanupIsSpelled` | supervisor/wire.c:339-412 | the same for a cleanup with commands, timeoutMs, prevProvider and prevLeaseId, every string and list written out |
| `Replies.DecodingInvertsPrinting` | pkg/adapter/supervise_wire.go:196-325 | for every message, decoding the line the supervisor prints gives its reply name, generation, identifier and error code, or its exit code or signal, as the adapter spells them |
| `Adapter.CallIsOneLine` | pkg/adapter/supervise_wire.go:174-179 | a request never spans two lines, whatever its strings hold |
| `Adapter.SendableButTooLong` | supervisor/supervisor.h:26-33 | a cleanup within every limit whose line cannot be read |
| `Link.SupervisorLink.Register` | pkg/adapter/supervise.go:464-481 | numbers requests, stamps pings, makes a launch's generation the current one; a failed link sends nothing |
| `Link.SupervisorLink.Launch` | pkg/adapter/supervisedruntime.go:606-647 | launches the next generation exactly when the permit is held, and spends it |
| `Link.SupervisorLink.Dispatch` | pkg/adapter/supervise.go:356-383 | a call is completed only by the reply of its own type, generation and identifier; the link fails exactly on any other reply and on an exit of another generation; only an end without error grants the permit |
| `Link.SupervisorLink.ReadLine` | pkg/adapter/supervise.go:313-350 | a line over 65536 bytes or one that cannot be decoded fails the link; any other is routed |
| `Link.CallsGetTheirOwnReplies` | pkg/adapter/supervise.go:356-383 | whatever lines come in, every completed call holds a reply of its own type, generation and identifier, and no identifier is used twice |
| `Link.EventsAreAccepted` | supervisor/supervisor.c:304-324 | the supervisor's part of a joint run is an accepted run, so every theorem on those holds of it |
| `Link.LinkNeverFails` | pkg/adapter/supervise.go:330-383 | in every joint run each line the adapter reads from the bytes of the supervisor decodes to a message it expects |
| `Link.LaunchesAreTaken` | pkg/adapter/supervisedruntime.go:606-662 | in every joint run no launch is refused, whatever messages the bytes under way are taken for, and between requests both sides count the same generation |
| `Link.ReadableCallsNeverStopIt` | supervisor/supervisor.c:284-302 | as long as every call can be read, the supervisor never exits over what the adapter wrote |
| `Generations.LaunchCompletes` | supervisor/supervisor.c:127-152 | from every state in which both sides rest and hold the permit, the joint run can go on, by events the observer accepts, to a launch sent, served and answered |
| `Generations.EndCompletes` | supervisor/supervisor.c:154-161 | from every state in which both sides rest and the launched process runs, it can go on in the same way to an end that grants the permit |
| `Generations.GenerationsGoOn` | pkg/adapter/supervisedruntime.go:606-740 | joint runs through any number of generations, the supervisor's part accepted by the observer, exist as far as the protocol's numbers reach |
| `CleanupWorker.CleanupRunner.RunCommand` | supervisor/procs.c:430-460 | the command is collected or gone when it returns, within the deadline, with the verdict of the observer |
| `CleanupWorker.CleanupRunner.Run` | supervisor/procs.c:462-471 | OK if and only if every command was forked, collected with exit 0 and so before one shared deadline; no child is left |
| `CleanupWorker.OkExactly` | supervisor/procs.c:462-471 | the same equivalence for every log of a worker |
| `CleanupWorker.ForkedInOrder` | supervisor/procs.c:462-471 | a command is forked only after every earlier one ended well |
| `CleanupWorker.NothingAfterFailure` | supervisor/procs.c:465-469 | nothing is forked after the first command that did not end well |
| `CleanupWorker.DeadlinePrevails` | supervisor/procs.c:403-404 | a status that comes with the deadline does not count |
| `CleanupWorker.DeadlineExactly` | supervisor/procs.c:401-411 | the verdict names the deadline exactly when the worker read a time at or past it |
| `CleanupWorker.KillsAtTheDeadline` | supervisor/procs.c:414-453 | the worker's signals are 9, to the process group of a command past the deadline and right after that to the command itself |
| `CleanupWorker.AllCollected` | supervisor/procs.c:430-460 | every forked command was collected |
| `CleanupWorker.WaitsForTheRest` | supervisor/procs.c:437-459 | the worker waits exactly when wait4 had no status and the time read after that is before the deadline, and for exactly what is left |
| `FileTree.EmptyExactly` | supervisor/sweep.c:84-92 | after everything below a directory was swept it is empty exactly when nothing below it belonged to another user |
| `FileTree.ChildrenExactly` | supervisor/sweep.c:89-90 | a directory has children exactly when something lies below it |
| `Sweep.Sweeper.WalkEntry` | supervisor/sweep.c:55-100 | only owned entries at or below it go; without a failure or bound exactly what has to stay is left; entries are counted once each |
| `Sweep.Sweeper.WalkChild` | supervisor/sweep.c:70-94 | the same for a directory, which goes exactly when nothing below it stays |
| `Sweep.Sweeper.WalkDir` | supervisor/sweep.c:102-122 | the same for everything in a directory but the skipped child; depth and entry bounds hold whatever other processes do |
| `Sweep.Sweeper.SweepTree` | supervisor/sweep.c:124-137 | the same for a volume; on quiet, reliable storage within the bounds it neither fails nor stops |
| `Sweep.Sweeper.SweepVolume` | supervisor/sweep.c:309-316 | the entry bound is per volume, and the other volumes are left alone |
| `Sweep.Sweeper.SweepAll` | supervisor/sweep.c:296-318 | OK on quiet storage means exactly what has to stay is left below /sessions, /artifacts, /tmp, /dev/shm, /dev/mqueue and /workspace without slots, and nothing elsewhere goes; on reliable storage within the bounds it is OK exactly if IPC removal was; a reached bound is reported before a failure |
| `Sweep.NothingOwnedIsLeft` | supervisor/sweep.c:84-99 | then what the user still owns in those places is directories with a surviving entry of another user |
| `Sweep.SurvivorsHoldForeign` | supervisor/sweep.c:84-99 | what the user still owns is directories with a surviving entry of another user |
| `Sweep.VolumesSeparate` | supervisor/sweep.c:17-26 | no volume lies within another |
| `DenySafety.RunKeeps` | cmd/lenny-gateway/credential_lease_sweep.go:81-95 | on every run with timely leases in which no commit erases a revocation, whatever fails in it and however sweep, rebuild and revocations interleave, a credential whose revocation reached the replica stays denied while it has an unexpired lease |
| `DenySafety.RunSafeExactly` | cmd/lenny-gateway/credential_denylist_rebuild.go:108-135 | with timely leases a run is safe in every state if and only if no commit of a rebuild in it erases a revocation |
| `DenySafety.CommitSafeExactly` | cmd/lenny-gateway/credential_denylist_rebuild.go:115-119 | a commit is safe if and only if every credential the replica was told of that has an unexpired lease is in its listing; what the counts dropped is never the reason |
| `DenySafety.RevocationErased` | pkg/gateway/credentials/denylist/denylist.go:59-67 | the input at which a revocation between listing and replacement is lost |
| `DenySafety.ErasedWasLate` | cmd/lenny-gateway/credential_denylist_rebuild.go:51-74 | a commit can erase only a credential that was not yet on record when its store was listed and whose revocation reached the replica after that |
| `DenySafety.StrongExactly` | cmd/lenny-gateway/cred_renewal.go:344-366 | a state stays safe whatever comes next if and only if every credential known to be revoked that has a row is denied |
| `DenySafety.TickExactly` | cmd/lenny-gateway/credential_lease_sweep.go:81-95 | a tick keeps that if and only if no denied credential hangs on a row that expires at its very time |
| `DenySafety.RebuildExactly` | cmd/lenny-gateway/credential_denylist_rebuild.go:75-84 | a rebuild that nothing interrupts gives that if and only if no revoked credential has only lapsed rows |
| `DenySafety.LateExtensionRevives` | cmd/lenny-gateway/credential_lease_sweep.go:86-93 | the input at which a later extension revives a revoked lease |
| `DenySafety.RunKeepsStrong` | cmd/lenny-gateway/credential_lease_sweep.go:81-95 | on every run with late extensions too, as long as no tick or count of a rebuild meets such a row and no commit misses a credential with a row |
| `DenySafety.RebuildMakesSafe` | cmd/lenny-gateway/credential_denylist_rebuild.go:51-85 | a rebuild that nothing interrupts makes any state safe and denies only what is revoked |
| `DenySweep.DenyReplica.Sweep` | cmd/lenny-gateway/credential_lease_sweep.go:81-95 | one tick under any interleaving, a rebuild included: its counts are right, it stops exactly on a failed delete, an error drops nothing, safety is kept; alone, it is the tick of the machine with the counts that failed |
| `DenySweep.DenyReplica.CheckEntry` | cmd/lenny-gateway/credential_lease_sweep.go:86-93 | an entry goes only on a definite zero |
| `DenySweep.DenyReplica.Filter` | cmd/lenny-gateway/credential_denylist_rebuild.go:75-83 | the in-place filter keeps, in order, the keys with an active lease or an unanswered count, each as the store was when it was counted |
| `DenySweep.FilteredExactly` | cmd/lenny-gateway/credential_denylist_rebuild.go:75-84 | a key is kept if and only if one of its counts found an active lease or failed |
| `DenySweep.FilteredBetween` | cmd/lenny-gateway/credential_denylist_rebuild.go:75-84 | if the store does not change, what is kept lies between the listed with an active lease and the listed |
| `DenySweep.DenyReplica.RebuildKeys` | cmd/lenny-gateway/credential_denylist_rebuild.go:51-85 | keys if and only if both stores answered, pools first; they come from a listing that holds all that was on record before, with the time read once |
| `DenySweep.DenyReplica.Rebuild` | cmd/lenny-gateway/credential_denylist_rebuild.go:108-135 | commits once, after the first attempt in which both stores answered, while sweep and revocations go on between any two of its calls; all that was on record before is then known; the waits are 1, 2, 4, 8 and 16 seconds and then thirty; it is safe throughout if and only if no commit erases a revocation; alone, it is the whole rebuild with the counts that failed kept |
| `DenySweep.DenyReplica.RevokePoolCredentials` | cmd/lenny-gateway/credential_revocation.go:80-96 | denies the named credentials one by one, each before its leases are counted, while everything else goes on, and removes no lease; alone, it adds exactly them |
| `Renewal.Renewer.Renew` | cmd/lenny-gateway/cred_renewal.go:177-233 | the outcome is the one the stores' answers require; mints at most once and only for a recorded and bound lease, with its pool, tenant and generation; the replacement is returned as the sole holder of the binding, or handed back and unbound |
| `Renewal.Renewer.RenewOver` | cmd/lenny-gateway/cred_renewal.go:177-233 | along any chain of renewals pool, tenant, provider and generation never change, and every mint is held or handed back |
| `Connections.ClosedAtMostOnce` | cmd/lenny-gateway/coordination_seams.go:80-106 | on every run of takeovers and evictions no connection is closed twice or while published |
| `Readopt.FenceRises` | pkg/gateway/coordination/coordfence/coordfence.go:167-210 | whatever is heard, announced generations are positive and never fall, and attempts are bounded |
| `Readopt.FenceFollowsTheStore` | pkg/gateway/coordination/coordfence/coordfence.go:157-203 | in every log each announced generation is the one last read from the store, or 1 when that is not positive; a transient answer is followed by the same announcement while attempts are left, a stale one by a reading, and that by an announcement only if it is higher |
| `Readopt.Replica.Fence` | pkg/gateway/coordination/coordfence/coordfence.go:136-224 | the log of the fence fits the rule below from end to end; it ends fenced at the generation last read and acknowledged, given up with the lease released exactly when the attempts ran out or a stale answer was not explained by a higher generation, or faulted with it held exactly on a first reading that failed or a cancelled context |
| `Readopt.Replica.FenceDialed` | cmd/lenny-gateway/coordination_seams.go:329-337 | a failed fence closes the connection and leaves the lease relinquished exactly once |
| `Readopt.Replica.ReadoptAndFence` | cmd/lenny-gateway/coordination_seams.go:291-368 | the four steps come in order, each only after the one before; a failure relinquishes the lease exactly once, closes what was dialed and publishes nothing; a success was acknowledged on a connection to the row's pod, and its binding holds what row, pool and pod told, each in its place |
| `Readopt.Replica.Takeover` | cmd/lenny-gateway/coordination_seams.go:291-340 | what is published was fenced and carries the takeover's generation |
| `Readopt.Replica.EvictBinding` | cmd/lenny-gateway/coordination_seams.go:93-106 | the connection is closed by the call that removed it, once |

## Left out

- Entry assembly, self-test, memory functions and raw system calls (`start.c`, `selftest.c`, `mem.c`, `syscalls.h`): their effects are environment steps.
- Dialing, peer check, stage mode, hardening and argument parsing in `supervisor.c`, the PATH search, environment entries and duration parsing: input and output plumbing with easy claims.
- System V IPC removal: only whether it failed enters the sweep's status.
- Directory batches: the names of a directory come one at a time from a snapshot taken when it is opened, without the two dot entries.
- Short writes: a message is written whole or the write fails.
- White space, escapes and JSON values other than plain strings and unsigned integers in the supervisor's messages: the templates write none, and the adapter's decoder is modelled as refusing them, which encoding/json does not. Timeouts, pings on a timer and the ready message are not part of the link here.
- Strings that are not valid UTF-8 and null lists in the adapter's requests.
- Shifts and masks: hexadecimal and UTF-8 arithmetic is written with division and remainder, mask words as sets of signals.
- Sweep under concurrent changes: which entries are left is claimed only for a tree no other process changes; the bounds hold for any.
- Re-enabling a revoked credential (`pkg/gateway/externalapi/admin/credential_pools.go:1381`): a run never takes a revocation back.
- Issuing leases and delivering revocations between replicas: when they happen is up to the run. A revocation is on record in its store before it reaches a list, as in `credential_pools.go:1277-1286` and `credentialserver.go:312-322`, and a credential counts as known to a replica once its revocation, or a committed listing with it, has reached that replica.
- Generations.LaunchCompletes: the events are ones the observer accepts; no script is given under which the serve loop produces them.
- Generations.EndCompletes: the same.
- Generations.GenerationsGoOn: the same.
- Timing.SweepOverruns: gives the waits; no script of the whole sweep is given under which the code makes them.
- Processes that the commands of a cleanup leave behind after an attested end: an empty process table is claimed when it is counted, not when a launch starts.
- The direct-mode rotation hook, extension-cap teardown and event emission: they call code outside the three cores.
- The coordination sweeper that decides when to take over and the executor's stream cache.
- Metrics, logging, audit records and RPC encoding.
