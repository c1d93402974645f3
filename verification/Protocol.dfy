/**
 The supervisor's protocol as an outside observer states it. A run is the sequence of
 things the kernel sees the supervisor do; a ledger is what the observer keeps of it. The
 ledger's rules say which event may come next, and a run is accepted when every event
 obeys them. Nothing here mentions the supervisor's own variables.
 */
module Protocol {
  import opened Base
  import opened Messages
  import opened WaitStatus
  import opened Recognizer
  import opened LineReader

  const EXIT_CLOSED := 0
  const EXIT_PROTOCOL := 6

  const END_KILL_BOUND_MS: nat := 5000
  const SWEEP_BACKSTOP_MS: nat := 240000
  const CLEANUP_BACKSTOP_SLACK_MS: nat := 5000
  const WAIT_AFTER_KILL_MS: nat := 5000

  /** What a child is forked for: the launched program, or the work of a sweep or a cleanup. */
  datatype Role = RuntimeProcess | Worker(task: RequestType)

  datatype Event =
    | Received(bytes: seq<byte>)            // read from the connection
    | Took(line: seq<byte>)                 // one complete line handed to the parser
    | Forked(pid: nat, role: Role, at: nat)
    | Refused(role: Role)                   // a fork, or the pipe a launch needs, failed
    | Execed(ok: bool)                      // what the pipe said of the launched program
    | Collected(pid: nat, status: nat)      // wait4 returned a status
    | Drained                               // wait4 had no status left to return
    | SignaledAll(sig: int, at: nat)        // kill(-1, sig)
    | Counted(others: set<nat>)             // one scan of /proc
    | CountFailed                           // /proc could not be read
    | PidsRead(value: int, at: nat)         // pids.current, negative when unreadable
    | Killed(pid: nat, sig: int, at: nat)   // kill(pid, sig)
    | Waits(unreaped: set<nat>, armed: bool, listening: bool, timeout: Option<nat>, at: nat)
      // about to block: exited children not collected, SIGCHLD pending
    | Offered                               // a wait found input, or its end
    | Sent(msg: Message, at: nat)
    | HungUp                                // the stream ended, a write failed, or a wait saw the hang-up
    | Stopped(code: nat)                    // exit

  /** SIGTERM to all. */
  predicate IsTermAll(e: Event) {
    e.SignaledAll? && e.sig == 15
  }

  /** SIGKILL to all. */
  predicate IsKillAll(e: Event) {
    e.SignaledAll? && e.sig == 9
  }

  datatype Process = Process(pid: nat, gen: nat)

  datatype Notice = Notice(gen: nat, status: nat)

  /** What became of the process a request needs. */
  datatype Job = Job(
    worker: Option<nat>,         // the worker, while no status was collected
    spawned: bool,               // the worker was forked
    forkAt: nat,                 // when
    refused: bool,               // the fork failed
    exec: Option<bool>,          // what became of the program, for a launch
    got: Option<nat>,            // the status the worker left before any end pass
    killed: bool)                // the worker was sent SIGKILL

  const NO_JOB := Job(None, false, 0, false, None, None, false)

  /** An end pass. */
  datatype Pass = Pass(
    ending: bool,                // it is in progress
    termAt: nat,                 // when it sent SIGTERM
    firstAt: Option<nat>,        // when it first sent SIGKILL to all
    struck: bool,                // SIGKILL was sent to all since the latest scan
    scanned: bool,               // it has scanned the process table
    zero: bool,                  // the latest scan found no other process
    passes: nat,                 // consecutive clean passes
    unread: bool,                // the latest scan failed
    late: bool)                  // a pass was checked after the bound

  const NO_PASS := Pass(false, 0, None, false, false, false, 0, false, false)

  datatype Ledger = Ledger(
    stream: seq<byte>,           // bytes received and not yet taken as a line
    gen: nat,                    // launches accepted so far
    permit: bool,                // a launch may be accepted
    runtime: Option<Process>,    // the launched process no status was collected for
    announced: bool,             // its launched reply was sent
    notice: Option<Notice>,      // an exit collected outside an end and not yet reported
    cur: Option<Outcome>,        // the request not yet answered
    job: Job,                    // its process
    pass: Pass,                  // its end pass
    drained: bool,               // no status was left to collect after the latest SIGKILL to all
    doomed: bool,                // an unreadable line was taken
    offered: bool,               // input was found and not yet read
    gone: bool,                  // the peer has hung up
    over: bool)

  const START: Ledger := Ledger([], 0, true, None, true, None, None, NO_JOB, NO_PASS, false, false, false, false, false)

  /** More bytes than any line may hold, and no terminator among them. */
  predicate TooLong(stream: seq<byte>) {
    !HasLine(stream) && |stream| > MAX_LINE
  }

  predicate MidLaunch(l: Ledger) {
    l.runtime.Some? && !l.announced
  }

  /** The request being served is a valid one of this type for the current generation. */
  predicate Serves(l: Ledger, kind: RequestType) {
    && l.cur.Some? && l.cur.value.Ok?
    && l.cur.value.req.kind == kind
    && l.cur.value.req.gen == l.gen
  }

  /** The request being served is a launch the supervisor has to accept. */
  predicate Acceptable(l: Ledger) {
    && l.cur.Some? && l.cur.value.Ok?
    && l.cur.value.req.kind == Launch
    && l.cur.value.req.gen == l.gen + 1
    && l.permit
  }

  predicate Attested(l: Ledger) {
    l.pass.passes >= 2 && !l.pass.zero
  }

  /** The grace the request being served leaves between SIGTERM and SIGKILL. */
  function GraceOf(l: Ledger): nat {
    if Serves(l, End) then l.cur.value.req.graceMs else 0
  }

  /** How long the worker of the request being served is left alone. */
  function BackstopOf(l: Ledger): nat {
    if Serves(l, Sweep) then SWEEP_BACKSTOP_MS
    else if Serves(l, Cleanup) then l.cur.value.req.timeoutMs + CLEANUP_BACKSTOP_SLACK_MS
    else 0
  }

  /** The error codes the observer admits in the answer to the request being served. */
  predicate AnswerOk(l: Ledger, err: Error, at: nat)
    requires l.cur.Some?
  {
    match l.cur.value
    case Unreadable => false
    case Malformed(_, _, _) => err == MalformedRequest
    case Ok(req) =>
      if req.kind == Launch then
        if req.gen != l.gen + 1 then err == GenMismatch
        else if !l.permit then err == NotPermitted
        else LaunchErrorOk(l, err)
      else if req.gen != l.gen then err == GenMismatch
      else
        match req.kind
        case Ping => err == NoError
        case End => l.pass.ending && EndErrorOk(l, err, at)
        case Sweep =>
          && l.pass.ending && StatusDue(l, at)
          && (if SweepResult(l.job.got) != NoError then err == SweepResult(l.job.got) else EndErrorOk(l, err, at))
        case _ => StatusDue(l, at) && err == CleanupResult(l.job.got)
  }

  /** A launch fails exactly when its process was not forked or the pipe told an exec error. */
  predicate LaunchErrorOk(l: Ledger, err: Error) {
    if l.runtime.Some? then l.job.exec == Some(err == NoError) && err in {NoError, ExecFailed}
    else l.job.refused && err == ExecFailed
  }

  /** A worker's status is missing from an answer only when it was not forked, or killed and waited for in vain. */
  predicate StatusDue(l: Ledger, at: nat) {
    && (l.job.spawned || l.job.refused)
    && (l.job.spawned && l.job.got.None? ==> l.job.killed && at >= l.job.forkAt + BackstopOf(l) + WAIT_AFTER_KILL_MS)
  }

  predicate EndErrorOk(l: Ledger, err: Error, at: nat) {
    && err in {NoError, EndDeadline, ProcRead}
    && (err == NoError <==> Attested(l))
    && (err == ProcRead <==> l.pass.unread)
    && (err == EndDeadline ==> l.pass.scanned && at >= l.pass.termAt + GraceOf(l) + END_KILL_BOUND_MS)
  }

  /** The ledger after one event, or None when the event breaks a rule. */
  function Step(l: Ledger, e: Event): Option<Ledger> {
    if l.over then None
    else if l.gone then (if e == Stopped(EXIT_CLOSED) then Some(l.(over := true)) else None)
    else if l.offered && !(e.Received? || e.HungUp?) then None
    else if l.doomed then (if e == Stopped(EXIT_PROTOCOL) then Some(l.(over := true)) else None)
    else if l.notice.Some? && !(e.Collected? || e.Drained? || e.Sent? || e.HungUp?) then None
    else match e
      case HungUp => Some(l.(gone := true))
      case Stopped(code) =>
        if code == EXIT_PROTOCOL && TooLong(l.stream) then Some(l.(over := true)) else None
      case Received(bytes) =>
        if l.cur.None? && |l.stream| + |bytes| <= MAX_LINE + 1 then Some(l.(stream := l.stream + bytes, offered := false)) else None
      case Took(line) => Take(l, line)
      case Forked(pid, role, at) => Fork(l, pid, role, at)
      case Refused(role) => if MayFork(l, role) then Some(l.(job := l.job.(refused := true))) else None
      case Execed(ok) =>
        if Acceptable(l) && MidLaunch(l) && l.job.exec.None?
        then Some(l.(job := l.job.(exec := Some(ok)))) else None
      case Collected(pid, status) => Collect(l, pid, status)
      case Drained => if MidLaunch(l) then None else Some(l.(drained := true))
      case SignaledAll(sig, at) =>
        if sig == 15 && (Serves(l, End) || Serves(l, Sweep)) && !l.pass.ending
        then Some(l.(pass := NO_PASS.(ending := true, termAt := at)))
        else if sig == 9 && l.pass.ending && !l.pass.late && at >= l.pass.termAt + GraceOf(l)
        then Some(l.(pass := Stricken(l.pass, at), drained := false))
        else None
      case Counted(others) =>
        if l.pass.ending && l.pass.struck && l.drained && (others == {} ==> l.runtime.None?)
        then Some(l.(pass := Scanned(l.pass, others == {})))
        else None
      case CountFailed =>
        if l.pass.ending && l.pass.struck && l.drained
        then
          Some(l.(pass := l.pass.(struck := false, scanned := true, zero := false, passes := 0, unread := true)))
        else None
      case PidsRead(value, at) =>
        if l.pass.ending && l.pass.scanned && !l.pass.struck && !l.pass.unread
        then Some(l.(pass := Completed(l.pass, value, at))) else None
      case Killed(pid, sig, at) =>
        if sig == 9 && l.job.worker == Some(pid) && !l.pass.ending && !l.job.killed && at >= l.job.forkAt + BackstopOf(l)
        then Some(l.(job := l.job.(killed := true))) else None
      case Offered => if l.cur.None? then Some(l.(offered := true)) else None
      case Waits(unreaped, armed, listening, timeout, _) =>
        if !MidLaunch(l) && (unreaped != {} ==> armed)
           && (listening <==> l.cur.None?) && (timeout.None? <==> l.cur.None?)
           && (l.cur.None? ==> !HasLine(l.stream) && !TooLong(l.stream))
        then Some(l) else None
      case Sent(msg, at) => Send(l, msg, at)
  }

  /** A scan of the process table that could be read. */
  function Scanned(p: Pass, none: bool): Pass {
    p.(struck := false, scanned := true, zero := none, passes := if none && !p.zero then p.passes else 0, unread := false)
  }

  /** The pass is clean when its scan found no process and pids.current no more than one. */
  function Completed(p: Pass, value: int, at: nat): Pass {
    p.(zero := false, passes := if p.zero && value <= 1 then p.passes + 1 else 0, late := p.late || Overdue(p, at))
  }

  /** The bound on SIGKILL passes has run out since the first of them. */
  predicate Overdue(p: Pass, at: nat) {
    p.firstAt.Some? && at >= p.firstAt.value + END_KILL_BOUND_MS
  }

  /** SIGKILL to all: the first one starts the bound. */
  function Stricken(p: Pass, at: nat): Pass {
    p.(struck := true, firstAt := if p.firstAt.Some? then p.firstAt else Some(at))
  }

  function Take(l: Ledger, line: seq<byte>): Option<Ledger> {
    if l.cur.Some? || !HasLine(l.stream) || FirstLine(l.stream) != line then None
    else match Parse(line)
      case Unreadable => Some(l.(stream := AfterLine(l.stream), doomed := true))
      case outcome =>
        Some(l.(stream := AfterLine(l.stream), cur := Some(outcome), job := NO_JOB, pass := NO_PASS))
  }

  /** A line either dooms the run or is a request that nothing was done about yet. */
  lemma TakeShape(l: Ledger, line: seq<byte>)
    requires Take(l, line).Some?
    ensures l.cur.None?
    ensures var after := Take(l, line).value;
      || after == l.(stream := after.stream, doomed := true)
      || (after == l.(stream := after.stream, cur := after.cur, job := NO_JOB, pass := NO_PASS) && after.cur.Some?)
  {
    hide Parse, HasLine, FirstLine, AfterLine;
  }

  /** Whether the request being served still needs a process of this role. */
  predicate MayFork(l: Ledger, role: Role) {
    && !l.job.refused
    && if role == RuntimeProcess then Acceptable(l) && l.runtime.None?
       else role.task in {Sweep, Cleanup} && Serves(l, role.task) && !l.job.spawned && !l.pass.ending
  }

  function Fork(l: Ledger, pid: nat, role: Role, at: nat): Option<Ledger> {
    if !MayFork(l, role) then None
    else if role == RuntimeProcess then Some(l.(runtime := Some(Process(pid, l.gen + 1)), announced := false))
    else if l.runtime.Some? && l.runtime.value.pid == pid then None
    else Some(l.(job := l.job.(worker := Some(pid), spawned := true, forkAt := at)))
  }

  function Collect(l: Ledger, pid: nat, status: nat): Option<Ledger> {
    if MidLaunch(l) then None
    else if l.runtime.Some? && l.runtime.value.pid == pid then
      if l.notice.Some? then None
      else Some(l.(runtime := None,
                   notice := if l.pass.ending then None else Some(Notice(l.runtime.value.gen, status))))
    else if l.job.worker == Some(pid) then
      Some(l.(job := l.job.(worker := None, got := if l.pass.ending then l.job.got else Some(status))))
    else Some(l)
  }

  function Send(l: Ledger, msg: Message, at: nat): Option<Ledger> {
    match msg
    case Exited(gen, status) =>
      if l.notice == Some(Notice(gen, status)) then Some(l.(notice := None)) else None
    case Reply(kind, gen, id, err) =>
      if l.notice.None? && l.cur.Some? && !l.cur.value.Unreadable?
         && (kind, gen, id) == l.cur.value.Head() && AnswerOk(l, err, at)
      then
        var accepted := Acceptable(l);
        Some(l.(cur := None, pass := l.pass.(ending := false),
                gen := if accepted then l.gen + 1 else l.gen,
                announced := if accepted then true else l.announced,
                permit := if accepted then false else l.permit || (l.pass.ending && Attested(l))))
      else None
  }

  /** The ledger a whole run leaves, or None when some event broke a rule. */
  function Replay(run: seq<Event>): Option<Ledger> {
    if run == [] then Some(START)
    else
      var l := Replay(run[..|run| - 1]);
      if l.None? then None else Step(l.value, run[|run| - 1])
  }

  predicate Accepted(run: seq<Event>) {
    Replay(run).Some?
  }

  function Apply(l: Option<Ledger>, e: Event): Option<Ledger> {
    if l.None? then None else Step(l.value, e)
  }

  lemma ReplayAppend(run: seq<Event>, e: Event)
    ensures Replay(run + [e]) == Apply(Replay(run), e)
  {
    assert (run + [e])[..|run|] == run;
  }

  lemma {:induction false} ReplayPrefix(run: seq<Event>, i: nat)
    requires i <= |run| && Accepted(run)
    ensures Accepted(run[..i])
    decreases |run|
  {
    if i < |run| {
      var front := run[..|run| - 1];
      ReplayPrefix(front, i);
      assert front[..i] == run[..i];
    } else {
      assert run[..i] == run;
    }
  }
}
