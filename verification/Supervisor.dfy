/**
 The serve loop of the runtime supervisor, its request handlers, the reaper and the wait
 primitives. Every method is proved to keep the observed run accepted, so whatever the
 Protocol module shows of accepted runs holds of every run of this code.
 */
module Supervisor {
  import opened Base
  import opened Messages
  import opened WaitStatus
  import opened Signals
  import opened Protocol
  import Recognizer
  import Grammar
  import Parser
  import Templates
  import opened Kernel
  import opened LineReader
  import opened Timing

  /** A child the supervisor waits for; pid 0 when there is none. */
  datatype Slot = Slot(pid: nat, reaped: bool, status: nat)

  const EMPTY := Slot(0, false, 0)
  const RUNTIME := 0
  const SWEEP := 1
  const CLEANUP := 2
  const KINDS := 3

  datatype Timespec = Timespec(sec: nat, nsec: nat)

  /** The time from now to the deadline, 0 once it has passed. */
  function TsUntil(now: nat, deadline: nat): Timespec {
    if deadline > now then Timespec((deadline - now) / 1000, (deadline - now) % 1000 * 1_000_000)
    else Timespec(0, 0)
  }

  /** A timespec below a second of nanoseconds holds exactly the milliseconds left. */
  lemma TsUntilExact(now: nat, deadline: nat)
    ensures TsUntil(now, deadline).nsec < 1_000_000_000
    ensures TsMillis(TsUntil(now, deadline)) == if deadline > now then deadline - now else 0
  {
  }

  function TsMillis(ts: Timespec): nat {
    ts.sec * 1000 + ts.nsec / 1_000_000
  }

  /** A wait that nothing but its end, a signal or a close ends before the deadline; `since` is a time before it. */
  ghost predicate BlocksUntil(e: Event, since: nat, deadline: nat) {
    && e.Waits? && e.timeout.Some? && e.at >= since
    && deadline <= e.at + e.timeout.value
    && e.timeout.value <= if since < deadline then deadline - since else 0
  }

  /** A wait of at most `ms`, which by itself ends no sooner than that after `since`. */
  ghost predicate Pauses(e: Event, since: nat, ms: nat) {
    e.Waits? && e.timeout.Some? && e.timeout.value <= ms && since + ms <= e.at + e.timeout.value
  }

  lemma BlocksPauses(e: Event, since: nat, now: nat, from: nat)
    requires since <= now <= from && BlocksUntil(e, from, now + END_PASS_INTERVAL_MS)
    ensures Pauses(e, since, 10)
  {
  }

  /** The log has grown from a to b, first by a wait until the deadline. */
  ghost predicate Blocked(a: seq<Event>, b: seq<Event>, since: nat, deadline: nat) {
    a < b && BlocksUntil(b[|a|], since, deadline)
  }

  /** A wait of at most 50 ms that by itself ends no sooner than 50 ms after `since`, unless the backstop comes first. */
  ghost predicate Rests(e: Event, since: nat, backstopAt: nat, killed: bool) {
    && e.Waits? && e.timeout.Some? && e.timeout.value <= 50
    && (since + 50 <= e.at + e.timeout.value || (!killed && backstopAt <= e.at + e.timeout.value))
  }

  /** The log has grown from a to b, and by such a wait among others. */
  ghost predicate Rested(a: seq<Event>, b: seq<Event>, since: nat, backstopAt: nat, killed: bool) {
    a <= b && exists j :: |a| <= j < |b| && Rests(b[j], since, backstopAt, killed)
  }

  lemma BlockedRests(a: seq<Event>, m: seq<Event>, b: seq<Event>, since: nat, now: nat, from: nat, next: nat, backstopAt: nat,
                     killed: bool)
    requires a <= m && Blocked(m, b, from, next) && since <= now <= from && next <= now + 50
    requires next == now + 50 || (!killed && next == backstopAt)
    ensures Rested(a, b, since, backstopAt, killed)
  {
    assert Rests(b[|m|], since, backstopAt, killed);
  }

  lemma BlockedBefore(a: seq<Event>, b: seq<Event>, c: seq<Event>, first: nat, since: nat, deadline: nat)
    requires (a == b && first <= since) || Blocked(a, b, first, deadline)
    requires Blocked(b, c, since, deadline)
    ensures Blocked(a, c, first, deadline)
  {
  }

  lemma WaitBlocks(e: Event, since: nat, now: nat, deadline: nat)
    requires e.Waits? && since <= now <= e.at && e.timeout == Some(TsMillis(TsUntil(now, deadline)))
    ensures BlocksUntil(e, since, deadline)
  {
    hide TsUntil, TsMillis;
    TsUntilExact(now, deadline);
  }

  /** The first slot that waits for this process, or KINDS. */
  function Matching(slots: seq<Slot>, pid: nat): (k: nat)
    requires |slots| == KINDS
    ensures k <= KINDS
  {
    if slots[0].pid == pid && !slots[0].reaped then 0
    else if slots[1].pid == pid && !slots[1].reaped then 1
    else if slots[2].pid == pid && !slots[2].reaped then 2
    else 3
  }

  /** Collecting children changes only what the ledger knows of children. */
  ghost predicate Reaps(a: Ledger, b: Ledger) {
    && b == a.(runtime := b.runtime, notice := b.notice, gone := b.gone, drained := b.drained,
               job := a.job.(worker := b.job.worker, got := b.job.got))
    && (b.runtime == a.runtime || b.runtime.None?)
    && (b.job.worker == a.job.worker || b.job.worker.None?)
    && (a.pass.ending ==> b.job.got == a.job.got && (a.notice.None? ==> b.notice.None?))
  }

  ghost function Hung(l: Ledger): Ledger {
    l.(gone := true)
  }

  /** The supervisor's variables a reap or a request can change. */
  datatype Vars = Vars(
    slots: seq<Slot>,
    exitedPending: bool,
    exitedStatus: nat,
    exitedGen: nat,
    runtimeGen: nat,
    gen: nat,
    launchPermitted: bool)

  /** Filing one collected status. */
  function Recorded(v: Vars, inEnd: bool, pid: nat, status: nat): (r: Vars)
    requires |v.slots| == KINDS
    ensures SameWorkers(v.slots, r.slots)
  {
    var kind := Matching(v.slots, pid);
    if kind == KINDS then v
    else if kind == RUNTIME then
      var v1 := v.(slots := v.slots[RUNTIME := v.slots[RUNTIME].(pid := 0)]);
      if inEnd then v1 else v1.(exitedPending := true, exitedStatus := status, exitedGen := v.runtimeGen)
    else v.(slots := v.slots[kind := Slot(pid, true, status)])
  }

  /** The supervisor's variables agree with the ledger. */
  ghost predicate VarsAgree(v: Vars, l: Ledger) {
    && |v.slots| == KINDS
    && !l.over && !l.doomed && !l.gone && !l.offered && !MidLaunch(l)
    && v.gen == l.gen && v.launchPermitted == l.permit
    && (l.permit ==> l.runtime.None?)
    && v.slots[RUNTIME].pid == (if l.runtime.Some? then l.runtime.value.pid else 0)
    && !v.slots[RUNTIME].reaped
    && (l.runtime.Some? ==> v.runtimeGen == l.runtime.value.gen && l.notice.None?)
    && v.exitedPending == l.notice.Some?
    && (l.notice.Some? ==> Notice(v.exitedGen, v.exitedStatus) == l.notice.value)
    && (v.slots[SWEEP].pid == 0 || v.slots[CLEANUP].pid == 0)
    && SlotAgrees(v.slots[SWEEP], l) && SlotAgrees(v.slots[CLEANUP], l)
    && !l.pass.zero && (l.pass.ending && l.pass.passes > 0 ==> l.runtime.None?)
  }

  /** A worker's slot holds the worker the ledger waits for, or the status it left. */
  ghost predicate SlotAgrees(s: Slot, l: Ledger) {
    if s.pid == 0 then !s.reaped
    else
      && !l.pass.ending
      && if s.reaped then l.job.worker.None? && l.job.got == Some(s.status) else l.job.worker == Some(s.pid) && l.job.got.None?
  }

  /** The ledger agrees with the process table: at most one launched process exists. */
  ghost predicate TableAgrees(l: Ledger, t: map<nat, Proc>) {
    Holds(l.runtime, l.job.worker, t)
  }

  ghost predicate Holds(runtime: Option<Process>, worker: Option<nat>, t: map<nat, Proc>) {
    && (runtime.Some? ==> runtime.value.pid in t && t[runtime.value.pid].child && t[runtime.value.pid].launched)
    && (worker.Some? ==> worker.value in t && t[worker.value].child && !t[worker.value].launched)
    && (forall p <- t :: p > 1 && (t[p].launched ==> runtime.Some? && runtime.value.pid == p))
  }

  lemma CollectRuntime(v: Vars, l: Ledger, pid: nat, status: nat)
    requires VarsAgree(v, l) && pid > 0 && Matching(v.slots, pid) == RUNTIME
    requires l.job.worker.Some? && l.runtime.Some? ==> l.job.worker.value != l.runtime.value.pid
    ensures Collect(l, pid, status).Some?
    ensures VarsAgree(Recorded(v, l.pass.ending, pid, status), Collect(l, pid, status).value)
    ensures Reaps(l, Collect(l, pid, status).value)
  {
    assert l.runtime.value.pid == pid;
    if l.pass.ending {
    }
  }

  lemma CollectWorker(v: Vars, l: Ledger, pid: nat, status: nat)
    requires VarsAgree(v, l) && pid > 0 && SWEEP <= Matching(v.slots, pid) <= CLEANUP
    requires l.job.worker.Some? && l.runtime.Some? ==> l.job.worker.value != l.runtime.value.pid
    ensures Collect(l, pid, status).Some?
    ensures VarsAgree(Recorded(v, l.pass.ending, pid, status), Collect(l, pid, status).value)
    ensures Reaps(l, Collect(l, pid, status).value)
  {
    var kind := Matching(v.slots, pid);
    assert l.job.worker == Some(pid) && !l.pass.ending;
    assert v.slots[kind].(reaped := true, status := status) == Slot(pid, true, status);
  }

  lemma CollectLateWorker(v: Vars, l: Ledger, pid: nat, status: nat)
    requires VarsAgree(v, l) && pid > 0 && Matching(v.slots, pid) == KINDS && l.job.worker == Some(pid)
    requires l.job.worker.Some? && l.runtime.Some? ==> l.job.worker.value != l.runtime.value.pid
    ensures Collect(l, pid, status).Some?
    ensures VarsAgree(Recorded(v, l.pass.ending, pid, status), Collect(l, pid, status).value)
    ensures Reaps(l, Collect(l, pid, status).value)
  {
    assert v.slots[SWEEP].pid == 0 && v.slots[CLEANUP].pid == 0;
  }

  lemma CollectOther(v: Vars, l: Ledger, pid: nat, status: nat)
    requires VarsAgree(v, l) && pid > 0 && Matching(v.slots, pid) == KINDS && l.job.worker != Some(pid)
    requires l.job.worker.Some? && l.runtime.Some? ==> l.job.worker.value != l.runtime.value.pid
    ensures Collect(l, pid, status).Some?
    ensures VarsAgree(Recorded(v, l.pass.ending, pid, status), Collect(l, pid, status).value)
    ensures Reaps(l, Collect(l, pid, status).value)
  {
    assert Collect(l, pid, status) == Some(l);
    hide VarsAgree, SlotAgrees, Collect;
  }

  lemma CollectVarsAgree(v: Vars, l: Ledger, pid: nat, status: nat)
    requires VarsAgree(v, l) && pid > 0
    requires l.job.worker.Some? && l.runtime.Some? ==> l.job.worker.value != l.runtime.value.pid
    ensures Collect(l, pid, status).Some?
    ensures VarsAgree(Recorded(v, l.pass.ending, pid, status), Collect(l, pid, status).value)
    ensures Reaps(l, Collect(l, pid, status).value)
  {
    hide VarsAgree, Collect, Recorded, Reaps;
    ThreeSlots(v, l);
    var kind := Matching(v.slots, pid);
    if kind == RUNTIME {
      CollectRuntime(v, l, pid, status);
    } else if kind == KINDS {
      if l.job.worker == Some(pid) {
        CollectLateWorker(v, l, pid, status);
      } else {
        CollectOther(v, l, pid, status);
      }
    } else {
      CollectWorker(v, l, pid, status);
    }
  }

  lemma CollectHolds(runtime: Option<Process>, worker: Option<nat>, t: map<nat, Proc>, pid: nat)
    requires Holds(runtime, worker, t)
    ensures Holds(if runtime.Some? && runtime.value.pid == pid then None else runtime,
                  if worker == Some(pid) then None else worker, t - {pid})
  {
  }

  lemma EvolvesTableAgrees(l: Ledger, a: map<nat, Proc>, b: map<nat, Proc>)
    requires TableAgrees(l, a) && TableEvolves(a, b)
    ensures TableAgrees(l, b)
  {
  }

  /** Filing what wait4 returned keeps the supervisor and the ledger in step. */
  lemma CollectAgrees(v: Vars, l: Ledger, a: World, b: World, pid: nat, status: nat)
    requires VarsAgree(v, l) && TableAgrees(l, a.table)
    requires pid in a.table && Passes(a.(table := a.table - {pid}), b)
    ensures var after := Step(l, Collected(pid, status));
            && after.Some? && Reaps(l, after.value)
            && VarsAgree(Recorded(v, l.pass.ending, pid, status), after.value)
            && TableAgrees(after.value, b.table)
  {
    hide VarsAgree, Recorded, Reaps, TableEvolves;
    WorkerIsOther(l, a.table);
    CollectVarsAgree(v, l, pid, status);
    CollectHolds(l.runtime, l.job.worker, a.table, pid);
    CollectedRuntime(l, pid, status);
    CollectedWorker(l, pid, status);
    ThreeSlots(v, l);
    EvolvesTableAgrees(Collect(l, pid, status).value, a.table - {pid}, b.table);
  }

  lemma DrainAgrees(v: Vars, l: Ledger, t: map<nat, Proc>)
    requires VarsAgree(v, l) && TableAgrees(l, t)
    ensures var after := l.(drained := true);
            && Step(l, Drained) == Some(after) && Reaps(l, after)
            && VarsAgree(v, after) && TableAgrees(after, t)
  {
  }

  lemma WorkerIsOther(l: Ledger, t: map<nat, Proc>)
    requires TableAgrees(l, t)
    ensures l.job.worker.Some? && l.runtime.Some? ==> l.job.worker.value != l.runtime.value.pid
    ensures forall p <- t :: p > 1
  {
  }

  lemma CollectedRuntime(l: Ledger, pid: nat, status: nat)
    requires Collect(l, pid, status).Some?
    ensures Collect(l, pid, status).value.runtime ==
      if l.runtime.Some? && l.runtime.value.pid == pid then None else l.runtime
  {
  }

  lemma CollectedWorker(l: Ledger, pid: nat, status: nat)
    requires Collect(l, pid, status).Some?
    requires l.job.worker.Some? && l.runtime.Some? ==> l.job.worker.value != l.runtime.value.pid
    ensures Collect(l, pid, status).value.job.worker == if l.job.worker == Some(pid) then None else l.job.worker
  {
  }

  lemma HangUpAllowed(v: Vars, l: Ledger)
    requires VarsAgree(v, l)
    ensures Step(l, HungUp) == Some(Hung(l))
  {
  }

  lemma HungTable(l: Ledger, t: map<nat, Proc>)
    requires TableAgrees(l, t)
    ensures TableAgrees(Hung(l), t)
  {
  }

  /** The supervisor may block: whatever exited before has SIGCHLD pending and ends the wait at once. */
  lemma MayWait(v: Vars, l: Ledger, w: World, timeout: Option<nat>)
    requires VarsAgree(v, l) && l.notice.None?
    requires if l.cur.None? then timeout.None? && !HasLine(l.stream) && !TooLong(l.stream) else timeout.Some?
    requires ExitedChildren(w.table) != {} ==> SIGCHLD in w.pending
    ensures Step(l, Waits(ExitedChildren(w.table), SIGCHLD in w.pending, timeout.None?, timeout, w.clock)) == Some(l)
  {
  }

  /** A wait that reports no event and leaves the flag clear leaves no exited child behind. */
  lemma QuietWait(a: World, b: World, timeout: Option<nat>)
    requires Slept(a, b, timeout, false) && !b.sigchldFlag
    requires ExitedChildren(a.table) != {} ==> SIGCHLD in a.pending
    ensures ExitedChildren(b.table) == {}
  {
  }

  /** The ledger after one check of the process table. */
  ghost function Checked(l: Ledger, r: int, at: nat): Ledger {
    if r < 0 then l.(pass := l.pass.(struck := false, scanned := true, zero := false, passes := 0, unread := true))
    else
      l.(pass := l.pass.(struck := false, scanned := true, zero := false,
                         passes := if r == 1 then l.pass.passes + 1 else 0, unread := false,
                         late := l.pass.late || Overdue(l.pass, at)))
  }

  /** During an end pass the ledger changes only in its children and its count of clean passes. */
  ghost predicate Ends(a: Ledger, b: Ledger) {
    && b == a.(runtime := b.runtime, job := a.job.(worker := b.job.worker), pass := b.pass, drained := b.drained,
               gone := b.gone)
    && b.pass.ending == a.pass.ending && b.pass.termAt == a.pass.termAt
    && (a.pass.firstAt.Some? ==> b.pass.firstAt == a.pass.firstAt)
    && (b.runtime == a.runtime || b.runtime.None?)
    && (b.job.worker == a.job.worker || b.job.worker.None?)
  }

  lemma ReapsReflexive(a: Ledger)
    ensures Reaps(a, a)
  {
  }

  lemma ReapsTransitive(a: Ledger, b: Ledger, c: Ledger)
    requires Reaps(a, b) && Reaps(b, c)
    ensures Reaps(a, c) && c.pass.ending == a.pass.ending
  {
  }

  lemma ReapsReported(a: Ledger, b: Ledger)
    requires Reaps(a, b)
    ensures Reaps(a, b.(notice := None)) && b.pass.ending == a.pass.ending
    ensures a.pass.ending && a.notice.None? ==> b.notice.None?
  {
  }

  lemma ThreeSlots(v: Vars, l: Ledger)
    requires VarsAgree(v, l)
    ensures |v.slots| == KINDS && !l.over && !l.doomed && !l.gone && !l.offered && !l.pass.zero
  {
  }

  lemma NoChildren(l: Ledger, t: map<nat, Proc>)
    requires TableAgrees(l, t)
    ensures !HasChildren(t) ==> l.job.worker.None?
  {
  }

  /** The ledger once SIGKILL was sent to all. */
  ghost function Struck(l: Ledger, at: nat): Ledger {
    l.(pass := Stricken(l.pass, at), drained := false)
  }

  /** The first SIGKILL of the end pass was sent no sooner than this, unless it was sent before. */
  ghost predicate FirstSince(a: Pass, b: Pass, clock: nat) {
    b.firstAt == Some(if a.firstAt.Some? then a.firstAt.value else clock)
  }

  lemma KillAllAllowed(v: Vars, l: Ledger, t: map<nat, Proc>, at: nat)
    requires VarsAgree(v, l) && TableAgrees(l, t) && l.pass.ending && l.notice.None? && at >= l.pass.termAt + GraceOf(l)
    requires !l.pass.late
    ensures Step(l, SignaledAll(9, at)) == Some(Struck(l, at)) && VarsAgree(v, Struck(l, at)) && TableAgrees(Struck(l, at), t)
    ensures Struck(l, at).notice.None? && Struck(l, at).pass.ending && Struck(l, at).cur == l.cur
  {
  }

  lemma StruckEnds(l: Ledger, at: nat, b: Ledger)
    requires Reaps(Struck(l, at), b) && l.pass.ending && l.notice.None?
    ensures b.pass.firstAt == Some(if l.pass.firstAt.Some? then l.pass.firstAt.value else at) && b.pass.late == l.pass.late
    ensures Ends(l, b) && b.pass.passes == l.pass.passes && b.pass.unread == l.pass.unread && b.pass.struck
    ensures b.pass.ending
  {
  }

  lemma CheckedEnds(l: Ledger, r: int, at: nat)
    ensures Ends(l, Checked(l, r, at)) && Checked(l, r, at).pass.scanned && Checked(l, r, at).pass.unread == (r < 0)
    ensures Checked(l, r, at).pass.passes == if r == 1 then l.pass.passes + 1 else 0
    ensures Checked(l, r, at).pass.firstAt == l.pass.firstAt
    ensures Checked(l, r, at).pass.late ==> l.pass.late || Overdue(l.pass, at)
  {
    if r < 0 {
    }
  }

  lemma EndsScanned(a: Ledger, b: Ledger)
    requires Reaps(a, b)
    ensures b.pass == a.pass && GraceOf(b) == GraceOf(a)
    ensures b.job.forkAt == a.job.forkAt && BackstopOf(b) == BackstopOf(a)
  {
  }

  lemma NoticeShown(v: Vars, l: Ledger)
    requires VarsAgree(v, l)
    ensures v.exitedPending == l.notice.Some?
  {
  }

  /** What each way out of the pass loop may be answered with. */
  lemma PassVerdict(v: Vars, l: Ledger, start: nat)
    requires VarsAgree(v, l) && l.pass.scanned && start >= l.pass.termAt + GraceOf(l)
    ensures l.pass.unread && l.pass.passes == 0 ==> forall at: nat :: EndErrorOk(l, ProcRead, at)
    ensures !l.pass.unread && l.pass.passes >= 2 ==> forall at: nat :: EndErrorOk(l, NoError, at)
    ensures !l.pass.unread && l.pass.passes < 2 ==>
      forall at: nat :: at >= start + END_KILL_BOUND_MS ==> EndErrorOk(l, EndDeadline, at)
  {
  }

  /** What an end pass would be answered after this check, by the time of the answer. */
  ghost predicate Judged(l: Ledger, r: int, since: nat) {
    if r < 0 then forall at: nat :: EndErrorOk(l, ProcRead, at)
    else if l.pass.passes >= 2 then forall at: nat :: EndErrorOk(l, NoError, at)
    else forall at: nat :: at >= since + END_KILL_BOUND_MS ==> EndErrorOk(l, EndDeadline, at)
  }

  lemma JudgedMeans(l: Ledger, r: int, since: nat, at: nat)
    requires Judged(l, r, since)
    ensures r < 0 ==> EndErrorOk(l, ProcRead, at)
    ensures r >= 0 && l.pass.passes >= 2 ==> EndErrorOk(l, NoError, at)
    ensures r >= 0 && l.pass.passes < 2 && at >= since + END_KILL_BOUND_MS ==> EndErrorOk(l, EndDeadline, at)
  {
  }

  lemma EndsReflexive(a: Ledger)
    ensures Ends(a, a)
  {
  }

  lemma EndsTransitive(a: Ledger, b: Ledger, c: Ledger)
    requires Ends(a, b) && Ends(b, c)
    ensures Ends(a, c)
  {
  }

  lemma ReapsEnds(a: Ledger, b: Ledger)
    requires Reaps(a, b) && a.pass.ending && a.notice.None?
    ensures Ends(a, b) && b.pass.passes == a.pass.passes && b.pass == a.pass
  {
  }

  /** The ledger at the start of an end pass. */
  ghost function Termed(l: Ledger, at: nat): Ledger {
    l.(pass := NO_PASS.(ending := true, termAt := at))
  }

  lemma TermAllowed(v: Vars, l: Ledger, at: nat)
    requires VarsAgree(v, l) && l.notice.None? && !l.pass.ending
    requires v.slots[SWEEP].pid == 0 && v.slots[CLEANUP].pid == 0
    requires Serves(l, End) || Serves(l, Sweep)
    ensures Step(l, SignaledAll(15, at)) == Some(Termed(l, at)) && VarsAgree(v, Termed(l, at))
  {
  }

  lemma TermTable(l: Ledger, t: map<nat, Proc>, at: nat)
    requires TableAgrees(l, t)
    ensures TableAgrees(Termed(l, at), t)
  {
  }

  lemma EndingSlots(v: Vars, l: Ledger)
    requires VarsAgree(v, l) && l.pass.ending
    ensures v.slots[SWEEP].pid == 0 && v.slots[CLEANUP].pid == 0
  {
  }

  lemma EndsKeeps(a: Ledger, b: Ledger)
    requires Ends(a, b)
    ensures b.pass.ending == a.pass.ending && b.cur == a.cur && b.gen == a.gen && b.job.got == a.job.got
    ensures b.over == a.over && b.doomed == a.doomed && b.job.spawned == a.job.spawned && b.job.killed == a.job.killed
    ensures b.stream == a.stream && b.job.refused == a.job.refused && b.job.forkAt == a.job.forkAt
    ensures b.pass.termAt == a.pass.termAt
    ensures GraceOf(b) == GraceOf(a) && BackstopOf(b) == BackstopOf(a)
  {
  }

  lemma KillAllowed(v: Vars, l: Ledger, t: map<nat, Proc>, kind: nat, at: nat)
    requires VarsAgree(v, l) && TableAgrees(l, t) && !l.pass.ending && l.notice.None?
    requires !l.job.killed && at >= l.job.forkAt + BackstopOf(l)
    requires SWEEP <= kind <= CLEANUP && v.slots[kind].pid != 0 && !v.slots[kind].reaped
    ensures Step(l, Killed(v.slots[kind].pid, 9, at)) == Some(l.(job := l.job.(killed := true)))
    ensures VarsAgree(v, l.(job := l.job.(killed := true)))
    ensures v.slots[kind].pid in t && t[v.slots[kind].pid].child
  {
  }

  /** Waiting for a worker changes only what the ledger knows of children. */
  ghost predicate Waited(a: Ledger, b: Ledger) {
    && b == a.(runtime := b.runtime, notice := b.notice, gone := b.gone, drained := b.drained,
               job := a.job.(worker := b.job.worker, got := b.job.got, killed := b.job.killed))
    && (b.runtime == a.runtime || b.runtime.None?)
  }

  lemma WaitedTransitive(a: Ledger, b: Ledger, c: Ledger)
    requires Waited(a, b) && Waited(b, c)
    ensures Waited(a, c)
  {
  }

  lemma WaitedReflexive(a: Ledger)
    ensures Waited(a, a)
  {
  }

  lemma ReapsWaited(a: Ledger, b: Ledger, c: Ledger)
    requires Waited(a, b) && Reaps(b, c)
    ensures Waited(a, c) && c.job.killed == b.job.killed && c.pass.ending == b.pass.ending
  {
  }

  lemma KilledWaited(a: Ledger, b: Ledger)
    requires Waited(a, b)
    ensures Waited(a, b.(job := b.job.(killed := true)))
  {
  }

  lemma WorkerAlone(v: Vars, l: Ledger, kind: nat)
    requires VarsAgree(v, l) && SWEEP <= kind <= CLEANUP && v.slots[kind].pid != 0
    ensures v.slots[SWEEP + CLEANUP - kind].pid == 0
  {
  }

  lemma ClearSlot(v: Vars, l: Ledger, kind: nat)
    requires VarsAgree(v, l) && SWEEP <= kind <= CLEANUP
    ensures VarsAgree(v.(slots := v.slots[kind := EMPTY]), l)
  {
  }

  /** A request no worker was forked for and no end pass was run for. */
  ghost predicate Fresh(l: Ledger) {
    !l.pass.ending && l.job.worker.None? && !l.job.spawned && l.job.got.None? && !l.job.killed && !l.job.refused && l.job.exec.None?
  }

  /** The ledger after the answer to a request that is not an accepted launch. */
  ghost function Answered(l: Ledger): Ledger {
    l.(cur := None, pass := l.pass.(ending := false), permit := l.permit || (l.pass.ending && Attested(l)))
  }

  /** The reply is one the ledger admits, and the supervisor has already recorded its effect. */
  ghost predicate Answerable(v: Vars, l: Ledger, t: map<nat, Proc>, kind: RequestType, gen: nat, id: nat, err: Error, at: nat) {
    && VarsAgree(v.(launchPermitted := l.permit), l) && TableAgrees(l, t)
    && v.slots[SWEEP].pid == 0 && v.slots[CLEANUP].pid == 0
    && v.launchPermitted == (l.permit || (l.pass.ending && Attested(l)))
    && l.notice.None? && l.cur.Some? && !l.cur.value.Unreadable? && !Acceptable(l)
    && (kind, gen, id) == l.cur.value.Head()
    && AnswerOk(l, err, at)
  }

  lemma AnswerAgrees(v: Vars, l: Ledger, t: map<nat, Proc>, kind: RequestType, gen: nat, id: nat, err: Error, at: nat)
    requires Answerable(v, l, t, kind, gen, id, err, at)
    ensures !l.over && !l.doomed && l.notice.None?
    ensures Step(l, Sent(Reply(kind, gen, id, err), at)) == Some(Answered(l))
    ensures VarsAgree(v, Answered(l)) && TableAgrees(Answered(l), t)
    ensures |v.slots| == KINDS && v.slots[SWEEP].pid == 0 && v.slots[CLEANUP].pid == 0
  {
  }

  lemma EndAnswerable(v: Vars, l: Ledger, t: map<nat, Proc>, r: Request, err: Error, at: nat)
    requires VarsAgree(v, l) && TableAgrees(l, t) && l.notice.None? && l.pass.ending
    requires l.cur == Some(Ok(r)) && Serves(l, End) && EndErrorOk(l, err, at)
    ensures Answerable(v.(launchPermitted := v.launchPermitted || err == NoError), l, t, r.kind, r.gen, r.id, err, at)
    ensures !l.over && !l.doomed
  {
  }

  ghost function Spawned(l: Ledger, pid: nat, at: nat): Ledger {
    l.(job := l.job.(worker := Some(pid), spawned := true, forkAt := at))
  }

  lemma SpawnedKeeps(l: Ledger, pid: nat, at: nat)
    ensures var s := Spawned(l, pid, at);
      && s.cur == l.cur && s.gen == l.gen && s.pass.ending == l.pass.ending && s.job.got == l.job.got && s.over == l.over
      && s.doomed == l.doomed && s.stream == l.stream && s.job.killed == l.job.killed && s.job.refused == l.job.refused
      && s.job.forkAt == at && s.job.spawned && BackstopOf(s) == BackstopOf(l)
  {
  }

  /** The ledger once a worker could not be forked. */
  ghost function Unforked(l: Ledger): Ledger {
    l.(job := l.job.(refused := true))
  }

  lemma UnforkedAgrees(v: Vars, l: Ledger, a: map<nat, Proc>, b: map<nat, Proc>, role: Role)
    requires VarsAgree(v, l) && TableAgrees(l, a) && TableEvolves(a, b) && l.notice.None? && MayFork(l, role)
    ensures Step(l, Refused(role)) == Some(Unforked(l)) && VarsAgree(v, Unforked(l)) && TableAgrees(Unforked(l), b)
    ensures Unforked(l).cur == l.cur && Unforked(l).gen == l.gen && Unforked(l).pass.ending == l.pass.ending
    ensures Unforked(l).notice == l.notice && Unforked(l).stream == l.stream && Unforked(l).job.got == l.job.got
    ensures Fresh(l) ==> forall at: nat :: StatusDue(Unforked(l), at)
  {
    EvolvesTableAgrees(l, a, b);
  }

  lemma UnforkedKeeps(l: Ledger)
    ensures var u := Unforked(l);
      && u.cur == l.cur && u.gen == l.gen && u.stream == l.stream && u.job.got == l.job.got && u.pass.ending == l.pass.ending
      && u.over == l.over && u.doomed == l.doomed && u.job.killed == l.job.killed
      && (Fresh(l) ==> forall at: nat :: StatusDue(u, at))
  {
  }

  lemma TermedKeeps(l: Ledger, at: nat)
    ensures var t := Termed(l, at);
      && t.cur == l.cur && t.gen == l.gen && t.job.got == l.job.got && t.pass.ending && t.over == l.over && t.doomed == l.doomed
      && t.job.spawned == l.job.spawned && t.job.killed == l.job.killed && t.stream == l.stream && t.pass.termAt == at && !t.pass.scanned
      && t.job.refused == l.job.refused && t.job.forkAt == l.job.forkAt && GraceOf(t) == GraceOf(l) && BackstopOf(t) == BackstopOf(l)
      && t.pass.passes == 0 && t.pass.firstAt.None? && !t.pass.late
  {
  }

  /** A status that was due stays due as time passes. */
  lemma DueStaysDue(a: Ledger, b: Ledger, at: nat, later: nat)
    requires StatusDue(a, at) && at <= later
    requires b.job.spawned == a.job.spawned && b.job.refused == a.job.refused && b.job.got == a.job.got
    requires b.job.killed == a.job.killed
    requires b.job.forkAt == a.job.forkAt && BackstopOf(b) == BackstopOf(a)
    ensures StatusDue(b, later)
  {
  }

  lemma WaitedKeeps(a: Ledger, b: Ledger)
    requires Waited(a, b)
    ensures b.cur == a.cur && b.gen == a.gen && b.pass.ending == a.pass.ending && b.job.spawned == a.job.spawned
    ensures b.over == a.over && b.doomed == a.doomed && b.stream == a.stream && b.job.refused == a.job.refused
    ensures b.job.forkAt == a.job.forkAt && BackstopOf(b) == BackstopOf(a)
  {
  }

  /** The request a worker slot serves. */
  function TaskOf(kind: nat): RequestType {
    if kind == SWEEP then Sweep else Cleanup
  }

  lemma SpawnAgrees(v: Vars, l: Ledger, a: World, b: World, pid: nat, kind: nat, at: nat)
    requires VarsAgree(v, l) && TableAgrees(l, a.table) && l.notice.None? && Fresh(l) && SWEEP <= kind <= CLEANUP
    requires v.slots[SWEEP].pid == 0 && v.slots[CLEANUP].pid == 0
    requires Serves(l, TaskOf(kind)) && pid > 1 && pid !in a.table
    requires Passes(a.(table := a.table[pid := Proc(true, false, 0, false)]), b)
    ensures Step(l, Forked(pid, Worker(TaskOf(kind)), at)) == Some(Spawned(l, pid, at)) && !v.slots[kind].reaped
    ensures VarsAgree(v.(slots := v.slots[kind := v.slots[kind].(pid := pid)]), Spawned(l, pid, at))
    ensures TableAgrees(Spawned(l, pid, at), b.table)
    ensures ExitedChildren(a.table[pid := Proc(true, false, 0, false)]) == ExitedChildren(a.table)
  {
    EvolvesTableAgrees(Spawned(l, pid, at), a.table[pid := Proc(true, false, 0, false)], b.table);
  }

  lemma SweepAnswerable(v: Vars, l: Ledger, t: map<nat, Proc>, r: Request, endErr: Error, err: Error, at: nat)
    requires VarsAgree(v, l) && TableAgrees(l, t) && l.notice.None? && l.pass.ending
    requires l.cur == Some(Ok(r)) && Serves(l, Sweep) && EndErrorOk(l, endErr, at) && StatusDue(l, at)
    requires err == if SweepResult(l.job.got) == NoError then endErr else SweepResult(l.job.got)
    ensures Answerable(v.(launchPermitted := v.launchPermitted || endErr == NoError), l, t, r.kind, r.gen, r.id, err, at)
  {
  }

  lemma CleanupAnswerable(v: Vars, l: Ledger, t: map<nat, Proc>, r: Request, at: nat)
    requires VarsAgree(v, l) && TableAgrees(l, t) && l.notice.None? && !l.pass.ending
    requires v.slots[SWEEP].pid == 0 && v.slots[CLEANUP].pid == 0
    requires l.cur == Some(Ok(r)) && Serves(l, Cleanup) && StatusDue(l, at)
    ensures Answerable(v, l, t, r.kind, r.gen, r.id, CleanupResult(l.job.got), at)
  {
  }

  /** The ledger once an accepted launch was forked and executed; a negative pid is a failed fork. */
  ghost function Forking(l: Ledger, pid: int, failed: bool): Ledger {
    if pid < 0 then Unforked(l)
    else l.(runtime := Some(Process(pid, l.gen + 1)), announced := false, job := l.job.(exec := Some(!failed)))
  }

  /** The ledger after an accepted launch was answered. */
  ghost function Launched(l: Ledger, r: Request, pid: int, failed: bool): Ledger {
    Forking(l, pid, failed).(cur := None, gen := r.gen, permit := false, announced := true,
                             runtime := if pid < 0 then None else Some(Process(pid, r.gen)))
  }

  lemma LaunchedKeeps(l: Ledger, r: Request, pid: int, failed: bool)
    ensures var a := Launched(l, r, pid, failed);
      a.cur.None? && a.gen == r.gen && a.pass.ending == l.pass.ending && a.notice == l.notice && a.stream == l.stream
  {
    if pid < 0 {
    }
  }

  lemma ForkTable(t: map<nat, Proc>, pid: nat)
    requires Holds(None, None, t) && pid > 1 && pid !in t
    ensures var after := t[pid := Proc(true, false, 0, true)];
      (forall gen :: Holds(Some(Process(pid, gen)), None, after)) && ExitedChildren(after) == ExitedChildren(t)
  {
  }

  lemma LaunchAgrees(v: Vars, l: Ledger, a: World, b: World, r: Request, pid: int, failed: bool, at: nat)
    requires VarsAgree(v, l) && TableAgrees(l, a.table) && l.notice.None? && Fresh(l)
    requires l.cur == Some(Ok(r)) && Acceptable(l)
    requires v.slots[SWEEP].pid == 0 && v.slots[CLEANUP].pid == 0
    requires pid < 0 || (pid > 1 && pid !in a.table)
    requires TableEvolves(if pid < 0 then a.table else a.table[pid := Proc(true, false, 0, true)], b.table)
    ensures pid < 0 ==> Step(l, Refused(RuntimeProcess)) == Some(Forking(l, pid, failed))
    ensures pid > 0 ==> ExitedChildren(a.table[pid := Proc(true, false, 0, true)]) == ExitedChildren(a.table)
    ensures !Forking(l, pid, failed).over && !Forking(l, pid, failed).doomed && !Forking(l, pid, failed).gone
    ensures pid < 0 || failed ==>
      Step(Forking(l, pid, failed), Sent(Reply(r.kind, r.gen, r.id, ExecFailed), at)) == Some(Launched(l, r, pid, failed))
    ensures pid > 0 && !failed ==>
      Step(Forking(l, pid, failed), Sent(Reply(r.kind, r.gen, r.id, NoError), at)) == Some(Launched(l, r, pid, failed))
    ensures var after := v.(gen := r.gen, launchPermitted := false);
            VarsAgree(if pid < 0 then after
                      else after.(slots := v.slots[RUNTIME := v.slots[RUNTIME].(pid := pid)], runtimeGen := r.gen),
                      Launched(l, r, pid, failed))
    ensures TableAgrees(Launched(l, r, pid, failed), b.table)
  {
    if pid > 0 {
      ForkTable(a.table, pid);
      EvolvesTableAgrees(Launched(l, r, pid, failed), a.table[pid := Proc(true, false, 0, true)], b.table);
    } else {
      EvolvesTableAgrees(Launched(l, r, pid, failed), a.table, b.table);
    }
  }

  /** What an observer saw of an accepted launch up to its answer; a stopped run may break off anywhere. */
  ghost predicate LaunchLogged(a: Option<Ledger>, b: Option<Ledger>, pid: int, failed: bool, at: nat, stopped: bool) {
    || (pid < 0 && b == Apply(a, Refused(RuntimeProcess)))
    || (pid > 0 && b == Apply(Apply(a, Forked(pid, RuntimeProcess, at)), Execed(!failed)))
    || (stopped && (b == a || (pid > 0 && b == Apply(a, Forked(pid, RuntimeProcess, at)))))
  }

  /** An accepted launch may be forked, and then its program's fate be read. */
  lemma LaunchLogs(v: Vars, l: Ledger, b: Option<Ledger>, pid: int, failed: bool, at: nat, stopped: bool)
    requires VarsAgree(v, l) && l.notice.None? && Fresh(l) && Acceptable(l)
    requires LaunchLogged(Some(l), b, pid, failed, at, stopped)
    ensures b.Some? && (!stopped ==> b == Some(Forking(l, pid, failed)))
  {
  }

  /** A launch that is refused is refused with the error the ledger admits. */
  lemma LaunchCases(v: Vars, l: Ledger, t: map<nat, Proc>, r: Request, at: nat)
    requires VarsAgree(v, l) && TableAgrees(l, t) && l.notice.None? && Fresh(l)
    requires v.slots[SWEEP].pid == 0 && v.slots[CLEANUP].pid == 0
    requires l.cur == Some(Ok(r)) && r.kind == Launch
    ensures r.gen != v.gen + 1 ==> Answerable(v, l, t, r.kind, r.gen, r.id, GenMismatch, at)
    ensures r.gen == v.gen + 1 && !v.launchPermitted ==> Answerable(v, l, t, r.kind, r.gen, r.id, NotPermitted, at)
    ensures r.gen == v.gen + 1 && v.launchPermitted ==> v.slots[RUNTIME].pid == 0 && Acceptable(l)
  {
  }

  /** Whether a request other than launch names the current generation. */
  function GenOk(gen: nat, r: Request): bool {
    r.kind == Launch || r.gen == gen
  }

  lemma MismatchAnswerable(v: Vars, l: Ledger, t: map<nat, Proc>, r: Request, at: nat)
    requires VarsAgree(v, l) && TableAgrees(l, t) && l.notice.None? && Fresh(l)
    requires v.slots[SWEEP].pid == 0 && v.slots[CLEANUP].pid == 0
    requires l.cur == Some(Ok(r))
    ensures !GenOk(v.gen, r) ==> Answerable(v, l, t, r.kind, r.gen, r.id, GenMismatch, at)
    ensures GenOk(v.gen, r) && r.kind == Ping ==> Answerable(v, l, t, r.kind, r.gen, r.id, NoError, at)
    ensures GenOk(v.gen, r) && r.kind != Launch ==> Serves(l, r.kind)
  {
  }

  lemma MalformedAnswerable(v: Vars, l: Ledger, t: map<nat, Proc>, o: Outcome, at: nat)
    requires VarsAgree(v, l) && TableAgrees(l, t) && l.notice.None? && Fresh(l)
    requires v.slots[SWEEP].pid == 0 && v.slots[CLEANUP].pid == 0
    requires l.cur == Some(o) && o.Malformed?
    ensures Answerable(v, l, t, o.badKind, o.badGen, o.badId, MalformedRequest, at)
  {
  }

  lemma TakeAgrees(v: Vars, l: Ledger, t: map<nat, Proc>, line: seq<byte>)
    requires VarsAgree(v, l) && TableAgrees(l, t) && l.notice.None? && l.cur.None? && !l.pass.ending
    requires v.slots[SWEEP].pid == 0 && v.slots[CLEANUP].pid == 0
    requires HasLine(l.stream) && FirstLine(l.stream) == line
    ensures var after := Step(l, Took(line));
      && after.Some? && after.value.stream == AfterLine(l.stream)
      && !after.value.over && !after.value.gone && !after.value.offered
      && (Recognizer.Parse(line).Unreadable? ==> after.value.doomed)
      && (!Recognizer.Parse(line).Unreadable? ==>
            && VarsAgree(v, after.value) && TableAgrees(after.value, t) && Fresh(after.value)
            && after.value.cur == Some(Recognizer.Parse(line)) && after.value.notice.None?)
  {
    hide Recognizer.Parse, HasLine, FirstLine, AfterLine, Holds;
    assert Step(l, Took(line)) == Take(l, line);
    match Recognizer.Parse(line)
    case Unreadable =>
    case outcome =>
      var after := Take(l, line).value;
      assert after.runtime == l.runtime && after.job.worker.None?;
      WorkerGone(l.runtime, l.job.worker, t);
  }

  lemma WorkerGone(runtime: Option<Process>, worker: Option<nat>, t: map<nat, Proc>)
    requires Holds(runtime, worker, t)
    ensures Holds(runtime, None, t)
  {
  }

  lemma LineAt(stream: seq<byte>, n: nat)
    requires HasLine(stream) && n == FirstNewline(stream)
    ensures n < |stream| && FirstLine(stream) == stream[..n] && AfterLine(stream) == stream[n + 1..]
  {
    hide FirstNewline;
  }

  /** The ledger once the input that was offered was read. */
  ghost function Heard(l: Ledger): Ledger {
    l.(offered := false)
  }

  lemma OfferAllowed(v: Vars, l: Ledger)
    requires VarsAgree(v, l) && l.notice.None? && l.cur.None?
    ensures Step(l, Offered) == Some(l.(offered := true)) && Heard(l.(offered := true)) == l == Heard(l)
  {
  }

  lemma ReceiveAgrees(v: Vars, l: Ledger, t: map<nat, Proc>, bytes: seq<byte>)
    requires VarsAgree(v, Heard(l)) && TableAgrees(Heard(l), t) && l.notice.None? && l.cur.None?
    requires |l.stream| + |bytes| <= MAX_LINE + 1
    ensures var after := Heard(l).(stream := l.stream + bytes);
      && Step(l, Received(bytes)) == Some(after) && VarsAgree(v, after) && TableAgrees(after, t)
  {
  }

  /** A scan that finds nothing finds no launched process, so the ledger holds none. */
  lemma ScanAllowed(l: Ledger, t: map<nat, Proc>)
    requires TableAgrees(l, t) && l.pass.ending && l.pass.struck && l.drained && !l.over && !l.doomed && !l.gone
    requires !l.offered && l.notice.None? && !l.pass.zero
    ensures Step(l, Counted(t.Keys)) ==
      Some(l.(pass := Scanned(l.pass, t.Keys == {})))
    ensures Step(l, CountFailed) == Some(Checked(l, -1, 0))
    ensures t.Keys == {} ==> l.runtime.None?
  {
  }

  lemma PidsAllowed(l: Ledger, pc: int, at: nat)
    requires l.pass.ending && !l.pass.struck && l.pass.scanned && !l.over && !l.doomed && !l.gone
    requires !l.offered && !l.pass.unread
    requires l.notice.None?
    ensures Step(l, PidsRead(pc, at)) == Some(Checked(l, if l.pass.zero && pc <= 1 then 1 else 0, at))
  {
  }

  lemma ScanKeepsAgreement(v: Vars, a: Ledger, b: Ledger, t: map<nat, Proc>)
    requires VarsAgree(v, a) && TableAgrees(a, t)
    requires b == a.(pass := b.pass) && b.pass.ending == a.pass.ending
    requires !b.pass.zero && (b.pass.passes > 0 ==> a.runtime.None?)
    ensures VarsAgree(v, b) && TableAgrees(b, t)
  {
  }

  function Max(a: int, b: int): int {
    if a < b then b else a
  }

  datatype WorkerVerdict = Got | Lost | Again

  /** Another wait is due: neither the backstop nor the window after the kill has passed unused. */
  ghost predicate StillDue(start: nat, backstopMs: nat, killedAt: nat, now: nat, killed: nat) {
    if killed == killedAt
    then (if killed == 0 then now - start < backstopMs else now - killed < WAIT_AFTER_KILL_MS)
    else killedAt == 0 && killed == now && now - start >= backstopMs
  }

  /**
   How long a wait for a worker has idled: up to the backstop, and then the waits after the kill.
   Times without `busy` in them leave out what passed outside ppoll.
   */
  ghost predicate OnTime(
    idle0: int, backstopMs: nat, start: nat, killedAt: nat, idle: int, busy: nat, after: seq<nat>)
  {
    && idle0 <= idle
    && (killedAt == 0 ==> idle <= idle0 + backstopMs && after == [])
    && (killedAt != 0 ==>
          && start + backstopMs <= killedAt <= idle - Elapsed(after) + busy
          && idle - Elapsed(after) <= idle0 + backstopMs
          && Polls(WAIT_AFTER_KILL_MS, WAIT_STEP_MS, after))
  }

  /** The waits after the kill, once the wait after a look is over. */
  ghost function WaitsAfter(killed: nat, after: seq<nat>, ms: nat): seq<nat> {
    if killed == 0 then [] else after + [ms]
  }

  lemma OnTimeStep(idle0: int, backstopMs: nat, start: nat, busy0: nat, killedAt: nat, killed: nat, now: nat,
                   idle: int, busy: nat, busy1: nat, next: nat, idle2: int, busy2: nat, after: seq<nat>)
    requires OnTime(idle0, backstopMs, start, killedAt, idle, busy, after)
    requires start - busy0 == idle0 && busy0 <= busy <= busy1 <= busy2 && backstopMs > 0
    requires idle + busy <= now <= idle + busy1
    requires StillDue(start, backstopMs, killedAt, now, killed)
    requires next <= now + WAIT_STEP_MS && (killed == 0 ==> next <= start + backstopMs)
    requires idle <= idle2 <= Max(idle, next - busy1) && (killedAt == 0 ==> after == [])
    ensures OnTime(idle0, backstopMs, start, killed, idle2, busy2, WaitsAfter(killed, after, idle2 - idle))
  {
    hide Polls, Elapsed;
    ElapsedAppend(after, idle2 - idle);
    PollsAppend(WAIT_AFTER_KILL_MS, WAIT_STEP_MS, after, idle2 - idle);
    NoWaits(WAIT_AFTER_KILL_MS, WAIT_STEP_MS);
  }

  lemma OnTimeStarts(idle0: int, backstopMs: nat, start: nat, busy: nat)
    ensures OnTime(idle0, backstopMs, start, 0, idle0, busy, [])
  {
  }

  lemma OnTimeMeans(
    idle0: int, backstopMs: nat, start: nat, killedAt: nat, idle: int, busy: nat, after: seq<nat>)
    ensures OnTime(idle0, backstopMs, start, killedAt, idle, busy, after) ==>
      && idle <= idle0 + backstopMs + WAIT_AFTER_KILL_MS + WAIT_STEP_MS - 1
      && (killedAt != 0 ==> start + backstopMs <= killedAt <= idle + busy)
      && (killedAt == 0 ==> after == [])
  {
    hide Polls, Elapsed;
    if Polls(WAIT_AFTER_KILL_MS, WAIT_STEP_MS, after) {
      PollsBounded(WAIT_AFTER_KILL_MS, WAIT_STEP_MS, after);
    }
  }

  /** What a look that ends the wait finds. */
  lemma OnTimeEnds(idle0: int, backstopMs: nat, start: nat, busy0: nat, killedAt: nat, idle: int, busy: nat, busy2: nat,
                   after: seq<nat>)
    requires OnTime(idle0, backstopMs, start, killedAt, idle, busy, after)
    requires start - busy0 == idle0 && busy0 <= busy <= busy2
    ensures Lasted(idle0, busy0, backstopMs, killedAt != 0, false, idle, busy2, after)
    ensures killedAt != 0 && idle + busy2 >= killedAt + WAIT_AFTER_KILL_MS ==>
      Lasted(idle0, busy0, backstopMs, true, true, idle, busy2, after)
  {
    hide Polls, Elapsed;
  }

  /**
   How long a whole wait for a worker took: exactly the backstop and the waits after the kill, when
   nothing but waiting took time. A lost worker had its whole window.
   */
  ghost predicate Lasted(
    idle0: int, busy0: nat, backstopMs: nat, killed: bool, lost: bool, idle: int, busy: nat, after: seq<nat>)
  {
    if !killed then idle <= idle0 + backstopMs
    else
      && Polls(WAIT_AFTER_KILL_MS, WAIT_STEP_MS, after)
      && idle <= idle0 + backstopMs + Elapsed(after)
      && (busy == busy0 ==> idle == idle0 + backstopMs + Elapsed(after))
      && (busy == busy0 && lost ==> Elapsed(after) >= WAIT_AFTER_KILL_MS)
  }

  lemma NothingLasted(idle0: int, busy0: nat, backstopMs: nat, busy: nat)
    ensures Lasted(idle0, busy0, backstopMs, false, false, idle0, busy, [])
  {
  }

  lemma LastedSince(idle0: int, busy0: nat, backstopMs: nat, killed: bool, lost: bool, busy1: nat, idle: int, busy: nat,
                    after: seq<nat>)
    requires Lasted(idle0, busy1, backstopMs, killed, lost, idle, busy, after) && busy0 <= busy1 <= busy
    ensures Lasted(idle0, busy0, backstopMs, killed, lost, idle, busy, after)
  {
    hide Polls, Elapsed;
  }

  /** How long SIGKILL passes idled: the pauses between them. */
  ghost predicate Paced(idle0: int, boundMs: nat, idle: int, pauses: seq<nat>) {
    Polls(boundMs, END_PASS_INTERVAL_MS, pauses) && idle == idle0 + Elapsed(pauses)
  }

  lemma PacedStarts(idle0: int, boundMs: nat)
    ensures Paced(idle0, boundMs, idle0, [])
  {
  }

  lemma PacedStep(idle0: int, boundMs: nat, idle: int, pauses: seq<nat>, idle2: int)
    requires Paced(idle0, boundMs, idle, pauses) && idle < idle0 + boundMs && idle <= idle2 <= idle + END_PASS_INTERVAL_MS
    ensures Paced(idle0, boundMs, idle2, pauses + [idle2 - idle])
  {
    hide Polls, Elapsed;
    ElapsedAppend(pauses, idle2 - idle);
    PollsAppend(boundMs, END_PASS_INTERVAL_MS, pauses, idle2 - idle);
  }

  /**
   How long an end pass took: exactly the grace and the pauses, when nothing but waiting took time.
   One that missed its bound had all of it.
   */
  ghost predicate EndLasted(
    idle0: int, busy0: nat, graceMs: nat, late: bool, idle: int, busy: nat, pauses: seq<nat>)
  {
    && Polls(END_KILL_BOUND_MS, END_PASS_INTERVAL_MS, pauses)
    && idle <= idle0 + graceMs + Elapsed(pauses)
    && (busy == busy0 ==> idle == idle0 + graceMs + Elapsed(pauses))
    && (busy == busy0 && late ==> Elapsed(pauses) >= END_KILL_BOUND_MS)
  }

  lemma PacedLasted(idle0: int, busy0: nat, graceMs: nat, late: bool, idle1: int, busy1: nat, idle: int, busy: nat,
                    pauses: seq<nat>)
    requires Paced(idle1, END_KILL_BOUND_MS, idle, pauses) && busy0 <= busy1 <= busy
    requires idle1 <= idle0 + graceMs <= idle1 + busy1 - busy0
    requires late ==> idle + busy >= idle1 + busy1 + END_KILL_BOUND_MS
    ensures EndLasted(idle0, busy0, graceMs, late, idle, busy, pauses)
  {
    hide Polls, Elapsed;
  }

  lemma EndLastedUntil(idle0: int, busy0: nat, graceMs: nat, late: bool, idle: int, busy1: nat, busy: nat, pauses: seq<nat>)
    requires EndLasted(idle0, busy0, graceMs, late, idle, busy1, pauses) && busy0 <= busy1 <= busy
    ensures EndLasted(idle0, busy0, graceMs, late, idle, busy, pauses)
  {
    hide Polls, Elapsed;
  }

  /** The end pass ended neither attested nor for a table it could not read. */
  ghost predicate Missed(l: Ledger) {
    !Attested(l) && !l.pass.unread
  }

  lemma MissedExactly(l: Ledger, err: Error, at: nat)
    requires EndErrorOk(l, err, at)
    ensures Missed(l) <==> err == EndDeadline
    ensures Missed(Answered(l)) == Missed(l) && Answered(l).job == l.job && Answered(l).stream == l.stream
  {
  }

  lemma SweepLasted(idle0: int, busy0: nat, killed: bool, lost: bool, idle1: int, busy1: nat, after: seq<nat>,
                    late: bool, idle: int, busy: nat, pauses: seq<nat>)
    requires Lasted(idle0, busy0, SWEEP_BACKSTOP_MS, killed, lost, idle1, busy1, after)
    requires EndLasted(idle1, busy1, 0, late, idle, busy, pauses) && busy0 <= busy1 <= busy
    ensures busy == busy0 ==> SweepTook(idle - idle0, killed, lost, late, after, pauses)
  {
    hide Polls, Elapsed;
  }

  /** The workers waited for are the same. */
  ghost predicate SameWorkers(a: seq<Slot>, b: seq<Slot>) {
    && |a| == |b| == KINDS
    && a[SWEEP].pid == b[SWEEP].pid && a[CLEANUP].pid == b[CLEANUP].pid
  }

  ghost predicate SameStream(a: Option<Ledger>, b: Option<Ledger>) {
    a.Some? && b.Some? && a.value.stream == b.value.stream
  }

  class Server {
    const k: Sys
    const lb: LineBuffer
    var slots: seq<Slot>
    var echild: bool
    var inEnd: bool
    var exitedPending: bool
    var exitedStatus: nat
    var exitedGen: nat
    var runtimeGen: nat
    var gen: nat
    var launchPermitted: bool
    var closed: bool

    /** The state sv_serve starts in: no launch yet, and a launch is permitted. */
    constructor (sys: Sys, lines: LineBuffer)
      requires lines.Valid() && lines.Contents() == []
      requires sys.Valid() && sys.log == []
      requires sys.w.sigchldFlag || (ExitedChildren(sys.w.table) != {} ==> SIGCHLD in sys.w.pending)
      requires forall p <- sys.w.table :: !sys.w.table[p].launched
      ensures k == sys && lb == lines && Idling() && Fed()
    {
      k := sys;
      lb := lines;
      slots := [EMPTY, EMPTY, EMPTY];
      echild, inEnd, closed := false, false, false;
      exitedPending, exitedStatus, exitedGen, runtimeGen := false, 0, 0, 0;
      gen, launchPermitted := 0, true;
    }

    /** The time spent waiting: the clock without what passed outside ppoll. */
    ghost function Idle(): int
      reads k
    {
      k.w.clock - k.w.busy
    }

    /** Whatever happened, the run so far is accepted. */
    ghost predicate Sound()
      reads this, k
    {
      k.Valid() && k.led.Some?
    }

    ghost function V(): Vars
      reads this
    {
      Vars(slots, exitedPending, exitedStatus, exitedGen, runtimeGen, gen, launchPermitted)
    }

    ghost predicate Agrees()
      reads this, k
    {
      && Sound()
      && !k.w.sigchldFlag
      && VarsAgree(V(), k.led.value)
      && TableAgrees(k.led.value, k.w.table)
    }

    /** A child that exited and was not collected has left SIGCHLD pending. */
    ghost predicate Armed()
      reads k
    {
      ExitedChildren(k.w.table) != {} ==> SIGCHLD in k.w.pending
    }

    /** Nothing is owed but, during a request, its answer. */
    ghost predicate Calm()
      reads this, k
    {
      Agrees() && Armed() && k.led.value.notice.None? && !closed && inEnd == k.led.value.pass.ending
    }

    /** During a request: ready to run or to wait. */
    ghost predicate Steady()
      reads this, k
    {
      Calm() && k.led.value.cur.Some?
    }

    method ReapRecord(pid: nat, status: nat)
      requires |slots| == KINDS
      modifies this`slots, this`exitedPending, this`exitedStatus, this`exitedGen
      ensures V() == Recorded(old(V()), inEnd, pid, status)
    {
      for kind := 0 to KINDS
        invariant V() == old(V())
        invariant Matching(slots, pid) >= kind
      {
        if slots[kind].pid == pid && !slots[kind].reaped {
          if kind == RUNTIME {
            slots := slots[kind := slots[kind].(pid := 0)];
            if !inEnd {
              exitedPending := true;
              exitedStatus := status;
              exitedGen := runtimeGen;
            }
            return;
          }
          slots := slots[kind := slots[kind].(reaped := true, status := status)];
          return;
        }
      }
    }

    /** One turn of the reap loop; it ends the loop when nothing was collected. */
    method ReapOne() returns (done: bool)
      requires Agrees() && !k.stopped && inEnd == k.led.value.pass.ending
      modifies this`slots, this`echild, this`exitedPending, this`exitedStatus, this`exitedGen, k
      ensures Sound() && SameWorkers(old(slots), slots)
      ensures Reaps(old(k.led).value, k.led.value)
      ensures Idle() == old(Idle()) && k.w.busy >= old(k.w.busy)
      ensures old(k.log) <= k.log
      ensures !k.stopped ==> Agrees() && |k.w.script| < |old(k.w.script)|
      ensures !k.stopped && done ==> Armed() && k.led.value.drained && (echild ==> k.led.value.job.worker.None?)
    {
      hide Step, Replay, VarsAgree, TableAgrees, TableEvolves, Recorded;
      ghost var v, l, was := V(), k.led.value, k.w;
      ThreeSlots(V(), k.led.value);
      NoChildren(l, was.table);
      var r, status := k.Wait4();
      if r <= 0 {
        echild := r == -ECHILD;
        DrainAgrees(v, l, was.table);
        EvolvesTableAgrees(l.(drained := true), was.table, k.w.table);
        return true;
      }
      CollectAgrees(v, l, was, k.w, r, status);
      ReapRecord(r, status);
      return false;
    }

    /** The reap loop. The caller cleared the flag first, so a later exit is pending when it ends. */
    method ReapAll()
      requires Agrees() && !k.stopped && inEnd == k.led.value.pass.ending
      modifies this`slots, this`echild, this`exitedPending, this`exitedStatus, this`exitedGen, k
      ensures Sound() && SameWorkers(old(slots), slots)
      ensures Reaps(old(k.led).value, k.led.value)
      ensures Idle() == old(Idle()) && k.w.busy >= old(k.w.busy)
      ensures old(k.log) <= k.log
      ensures !k.stopped ==> Agrees() && Armed() && |k.w.script| < |old(k.w.script)|
      ensures !k.stopped ==> k.led.value.drained && (echild ==> k.led.value.job.worker.None?)
    {
      hide VarsAgree, TableAgrees, TableEvolves, Step, Replay, Reaps;
      ThreeSlots(V(), k.led.value);
      ReapsReflexive(k.led.value);
      var done := false;
      while !done && !k.stopped
        invariant Sound()
        invariant inEnd == k.led.value.pass.ending && SameWorkers(old(slots), slots)
        invariant !k.stopped ==> Agrees() && |k.w.script| <= |old(k.w.script)|
        invariant !k.stopped && done ==>
          && Armed() && k.led.value.drained && (echild ==> k.led.value.job.worker.None?) && |k.w.script| < |old(k.w.script)|
        invariant Reaps(old(k.led).value, k.led.value) && old(k.log) <= k.log
        invariant Idle() == old(Idle()) && k.w.busy >= old(k.w.busy)
        decreases if k.stopped then 0 else 1, |k.w.script|
      {
        ghost var before := k.led.value;
        done := ReapOne();
        ReapsTransitive(old(k.led).value, before, k.led.value);
      }
    }

    /** A failed write is a closed connection. */
    method Send(msg: Message)
      requires Sound() && !k.stopped
      requires Step(k.led.value, Sent(msg, k.w.clock)).Some?
      requires !k.led.value.over && !k.led.value.doomed && !k.led.value.gone
      modifies k
      ensures Sound()
      ensures !k.stopped ==> k.led == Step(old(k.led).value, Sent(msg, old(k.w).clock))
      ensures Passes(old(k.w), k.w) && old(k.log) <= k.log
      ensures !k.stopped ==> |k.w.script| < |old(k.w.script)|
    {
      hide Replay, VarsAgree, TableAgrees, TableEvolves, Templates.Rendered, Templates.Narrowed, Templates.InRange;
      var line := Templates.Format(Templates.Narrowed(msg));
      var ok := k.Write(line, msg);
      if !ok && !k.stopped {
        k.Exit(EXIT_CLOSED);
      }
    }

    /** Reports a runtime exit collected outside an end. */
    method ReportExited()
      requires Agrees() && Armed() && !k.stopped && exitedPending
      modifies this`exitedPending, k
      ensures Sound() && old(k.log) <= k.log
      ensures !k.stopped ==> Agrees() && Armed() && k.led == Some(old(k.led).value.(notice := None))
      ensures Idle() == old(Idle()) && k.w.busy >= old(k.w.busy)
      ensures !k.stopped ==> |k.w.script| < |old(k.w.script)|
    {
      ghost var l, was := k.led.value, k.w;
      exitedPending := false;
      Send(Exited(exitedGen, exitedStatus));
      EvolvesTableAgrees(l, was.table, k.w.table);
    }

    method ServiceChildren()
      requires Sound() && !k.stopped
      requires VarsAgree(V(), k.led.value) && TableAgrees(k.led.value, k.w.table)
      requires k.led.value.notice.None? && inEnd == k.led.value.pass.ending
      modifies this`slots, this`echild, this`exitedPending, this`exitedStatus, this`exitedGen, k
      ensures Sound() && SameWorkers(old(slots), slots) && old(k.log) <= k.log
      ensures Idle() == old(Idle()) && k.w.busy >= old(k.w.busy)
      ensures !k.stopped ==>
        && Agrees() && Armed() && k.led.value.notice.None?
        && Reaps(old(k.led).value, k.led.value)
        && |k.w.script| < |old(k.w.script)|
        && (echild ==> k.led.value.job.worker.None?)
    {
      hide VarsAgree, TableAgrees, TableEvolves, Step, Replay, Reaps;
      k.ClearSigchldFlag();
      ReapAll();
      if k.stopped {
        return;
      }
      ReapsReported(old(k.led).value, k.led.value);
      NoticeShown(V(), k.led.value);
      if exitedPending && !inEnd {
        ReportExited();
      }
    }

    /** The ppoll of the wait primitive; false leaves an exited child only with the flag set. */
    method Poll(deadline: nat) returns (ready: bool)
      requires Steady() && !k.stopped
      modifies k
      ensures Sound() && k.led == (if ready then Some(Hung(old(k.led).value)) else old(k.led))
      ensures old(Idle()) <= Idle() <= Max(old(Idle()), deadline - old(k.w.busy)) && k.w.busy >= old(k.w.busy)
      ensures !k.stopped ==>
        && |k.w.script| < |old(k.w.script)|
        && TableAgrees(k.led.value, k.w.table)
        && (!ready && !k.w.sigchldFlag ==> ExitedChildren(k.w.table) == {})
        && old(k.log) < k.log && BlocksUntil(k.log[|old(k.log)|], old(k.w.clock), deadline)
    {
      hide VarsAgree, TableAgrees, TableEvolves, Step, Replay, TsUntil, TsMillis, BlocksUntil;
      ghost var v, l, was := V(), k.led.value, k.w;
      var now := k.Now();
      if k.stopped {
        return false;
      }
      EvolvesTableAgrees(l, was.table, k.w.table);
      MayWait(v, l, k.w, Some(TsMillis(TsUntil(now, deadline))));
      ghost var before := k.w;
      HangUpAllowed(v, l);
      TsUntilExact(now, deadline);
      WaitBlocks(Waits(ExitedChildren(k.w.table), SIGCHLD in k.w.pending, false, Some(TsMillis(TsUntil(now, deadline))),
        k.w.clock), was.clock, now, deadline);
      ready := k.Ppoll(false, Some(TsMillis(TsUntil(now, deadline))));
      EvolvesTableAgrees(l, before.table, k.w.table);
      HungTable(l, k.w.table);
      if !k.stopped && !ready && !k.w.sigchldFlag {
        QuietWait(before, k.w, Some(TsMillis(TsUntil(now, deadline))));
      }
    }

    /** Waits until the deadline, a signal or a close; true when the connection closed. */
    method WaitUntil(deadline: nat) returns (hup: bool)
      requires Steady() && !k.stopped
      modifies this`slots, this`echild, this`exitedPending, this`exitedStatus, this`exitedGen, this`closed, k
      ensures Sound() && SameWorkers(old(slots), slots)
      ensures old(Idle()) <= Idle() <= Max(old(Idle()), deadline - old(k.w.busy)) && k.w.busy >= old(k.w.busy)
      ensures !k.stopped ==>
        && closed == hup
        && Reaps(old(k.led).value, k.led.value)
        && |k.w.script| < |old(k.w.script)|
        && (if hup then k.led == Some(Hung(old(k.led).value)) else Steady())
        && Blocked(old(k.log), k.log, old(k.w.clock), deadline)
    {
      hide VarsAgree, TableAgrees, BlocksUntil;
      ThreeSlots(V(), k.led.value);
      var ready := Poll(deadline);
      if k.stopped {
        return false;
      }
      if ready {
        closed := true;
        return true;
      }
      if k.w.sigchldFlag {
        ServiceChildren();
      }
      return false;
    }

    /** The grace of the request being served has passed since SIGTERM. */
    ghost predicate GraceOver()
      reads k
    {
      k.led.Some? && k.w.clock >= k.led.value.pass.termAt + GraceOf(k.led.value)
    }

    /** SIGKILL to every other process, then the reap loop. */
    method KillAndReap()
      requires Steady() && !k.stopped && inEnd && GraceOver() && !k.led.value.pass.late
      modifies this`slots, this`echild, this`exitedPending, this`exitedStatus, this`exitedGen, k
      ensures Sound()
      ensures Idle() == old(Idle()) && k.w.busy >= old(k.w.busy)
      ensures !k.stopped ==>
        && Steady() && Reaps(Struck(old(k.led).value, old(k.w.clock)), k.led.value) && k.led.value.drained
        && |k.w.script| < |old(k.w.script)|
    {
      hide Step, Replay, VarsAgree, TableAgrees, TableEvolves, GraceOf, Struck;
      ghost var l, was := k.led.value, k.w;
      KillAllAllowed(V(), l, was.table, was.clock);
      k.SignalAll(SIGKILL);
      EvolvesTableAgrees(Struck(l, was.clock), was.table, k.w.table);
      if k.stopped {
        return;
      }
      k.ClearSigchldFlag();
      ReapAll();
    }

    /** One scan of /proc and one read of pids.current: 1 clean, 0 not clean, -1 unreadable. */
    method Check() returns (r: int, ghost at: nat)
      requires Steady() && !k.stopped && inEnd && k.led.value.pass.struck && k.led.value.drained
      modifies k
      ensures Sound()
      ensures Idle() == old(Idle()) && k.w.busy >= old(k.w.busy) && at <= k.w.clock
      ensures !k.stopped ==>
        && Steady() && |k.w.script| < |old(k.w.script)|
        && k.led == Some(Checked(old(k.led).value, r, at))
        && -1 <= r <= 1
    {
      hide Step, Replay, VarsAgree, TableAgrees, TableEvolves;
      ghost var l, was := k.led.value, k.w;
      ThreeSlots(V(), l);
      ScanAllowed(l, was.table);
      at := 0;
      var n := k.CountOthers();
      EvolvesTableAgrees(l, was.table, k.w.table);
      if k.stopped {
        return -1, at;
      }
      if n < 0 {
        ScanKeepsAgreement(V(), l, k.led.value, k.w.table);
        return -1, at;
      }
      ghost var counted, mid := k.led.value, k.w;
      at := k.w.clock;
      var pc := k.PidsCurrent();
      EvolvesTableAgrees(l, mid.table, k.w.table);
      PidsAllowed(counted, pc, at);
      ScanKeepsAgreement(V(), l, k.led.value, k.w.table);
      r := if n == 0 && (pc < 0 || pc <= 1) then 1 else 0;
    }

    /** One pass: SIGKILL, the reap loop, and the check. */
    method EndCleanPass() returns (r: int)
      requires Steady() && !k.stopped && inEnd && GraceOver() && !k.led.value.pass.late
      modifies this`slots, this`echild, this`exitedPending, this`exitedStatus, this`exitedGen, k
      ensures Sound()
      ensures Idle() == old(Idle()) && k.w.busy >= old(k.w.busy)
      ensures !k.stopped ==>
        && Steady() && |k.w.script| < |old(k.w.script)|
        && Ends(old(k.led).value, k.led.value)
        && -1 <= r <= 1
        && k.led.value.pass.passes == (if r == 1 then old(k.led).value.pass.passes + 1 else 0)
        && k.led.value.pass.unread == (r < 0) && k.led.value.pass.scanned
        && FirstSince(old(k.led).value.pass, k.led.value.pass, old(k.w.clock))
        && (k.led.value.pass.late ==> Overdue(k.led.value.pass, k.w.clock))
    {
      hide Step, Replay, VarsAgree, TableAgrees, TableEvolves, GraceOf, Struck, Reaps, Ends, Checked;
      KillAndReap();
      if k.stopped {
        return -1;
      }
      StruckEnds(old(k.led).value, old(k.w.clock), k.led.value);
      ghost var l := k.led.value;
      ghost var at;
      r, at := Check();
      CheckedEnds(l, r, at);
      EndsTransitive(old(k.led).value, l, Checked(l, r, at));
    }

    method Clock() returns (now: nat)
      requires Steady() && !k.stopped
      modifies k
      ensures Sound() && k.led == old(k.led) && k.log == old(k.log)
      ensures now == old(k.w.clock) && now < CLOCK_LIMIT
      ensures Idle() == old(Idle()) && k.w.busy >= old(k.w.busy)
      ensures !k.stopped ==> Steady() && |k.w.script| < |old(k.w.script)|
    {
      hide Step, Replay, VarsAgree, TableAgrees, TableEvolves;
      ghost var l, was := k.led.value, k.w;
      now := k.Now();
      EvolvesTableAgrees(l, was.table, k.w.table);
    }

    lemma SteadyIsOpen()
      requires Steady()
      ensures Sound() && !closed && VarsAgree(V(), k.led.value)
      ensures k.led.value.notice.None? && inEnd == k.led.value.pass.ending
    {
    }

    /** One turn of the grace: a wait until its end, and the time after it. */
    method GraceTurn(graceEnd: nat) returns (hup: bool, now: nat)
      requires Steady() && !k.stopped
      modifies this`slots, this`echild, this`exitedPending, this`exitedStatus, this`exitedGen, this`closed, k
      ensures Sound() && k.w.busy >= old(k.w.busy)
      ensures old(Idle()) <= Idle() <= Max(old(Idle()), graceEnd - old(k.w.busy))
      ensures !k.stopped ==>
        && closed == hup && |k.w.script| < |old(k.w.script)|
        && Reaps(old(k.led).value, k.led.value)
        && Blocked(old(k.log), k.log, old(k.w.clock), graceEnd)
        && (if hup then k.led.value.gone else Steady() && old(k.w.clock) <= now <= k.w.clock)
    {
      hide Step, Replay, VarsAgree, TableAgrees, TableEvolves, Blocked;
      now := 0;
      hup := WaitUntil(graceEnd);
      if !k.stopped && !hup {
        now := Clock();
      }
    }

    /** The SIGTERM grace; true when the connection closed during it. */
    method GraceWait(graceMs: nat) returns (hup: bool)
      requires Steady() && !k.stopped && inEnd && graceMs <= Grammar.MAX_JSON_INT
      requires graceMs == GraceOf(k.led.value) && k.led.value.pass.termAt <= k.w.clock
      modifies this`slots, this`echild, this`exitedPending, this`exitedStatus, this`exitedGen, this`closed, k
      ensures Sound() && k.w.busy >= old(k.w.busy)
      ensures Idle() <= old(Idle()) + graceMs && k.w.clock >= old(k.w.clock)
      ensures !k.stopped && !hup ==> k.w.clock >= old(k.w.clock) + graceMs
      ensures !k.stopped ==>
        && closed == hup && |k.w.script| < |old(k.w.script)|
        && Reaps(old(k.led).value, k.led.value)
        && (if hup then k.led.value.gone else Steady() && GraceOver())
        && (graceMs > 0 ==> Blocked(old(k.log), k.log, old(k.w.clock), old(k.w.clock) + graceMs))
    {
      hide Step, Replay, VarsAgree, TableAgrees, TableEvolves, Reaps, GraceOf, Blocked, Calm;
      SteadyIsOpen();
      ReapsReflexive(k.led.value);
      hup := false;
      var now := Clock();
      var graceEnd := Wrap(now + graceMs);
      ghost var waited := false;
      while !k.stopped && now < graceEnd
        invariant Sound() && inEnd && !hup && k.w.busy >= old(k.w.busy)
        invariant Idle() <= old(Idle()) + graceMs
        invariant graceEnd - old(k.w.busy) == old(Idle()) + graceMs
        invariant old(k.w.clock) <= now <= k.w.clock && graceEnd >= old(k.led).value.pass.termAt + graceMs
        invariant !k.stopped ==> Steady() && |k.w.script| < |old(k.w.script)| && Reaps(old(k.led).value, k.led.value)
        invariant !k.stopped && !waited ==> k.log == old(k.log) && now == old(k.w.clock)
        invariant !k.stopped && waited ==> Blocked(old(k.log), k.log, old(k.w.clock), graceEnd)
        decreases if k.stopped then 0 else 1, |k.w.script|
      {
        ghost var before, seen, since := k.led.value, k.log, k.w.clock;
        hup, now := GraceTurn(graceEnd);
        if k.stopped {
          return;
        }
        ReapsTransitive(old(k.led).value, before, k.led.value);
        BlockedBefore(old(k.log), seen, k.log, old(k.w.clock), since, graceEnd);
        waited := true;
        if hup {
          return;
        }
      }
      if !k.stopped {
        SteadyIsOpen();
        EndsScanned(old(k.led).value, k.led.value);
      }
    }

    /** The pause between two passes; true when the deadline had passed before it. */
    method Pause(deadline: nat) returns (late: bool)
      requires Steady() && !k.stopped && inEnd
      modifies this`slots, this`echild, this`exitedPending, this`exitedStatus, this`exitedGen, this`closed, k
      ensures Sound() && k.w.busy >= old(k.w.busy)
      ensures Idle() <= Max(old(Idle()), deadline - old(k.w.busy) + END_PASS_INTERVAL_MS - 1) && k.w.clock >= old(k.w.clock)
      ensures old(Idle()) <= Idle() <= old(Idle()) + if late then 0 else END_PASS_INTERVAL_MS
      ensures !k.stopped ==>
        && |k.w.script| < |old(k.w.script)|
        && Reaps(old(k.led).value, k.led.value)
        && (late ==> k.led == old(k.led) && k.w.clock >= deadline)
        && (!late ==> old(k.w.clock) < deadline)
        && (!late ==> old(k.log) < k.log && Pauses(k.log[|old(k.log)|], old(k.w.clock), 10))
        && (if closed then k.led.value.gone else Steady())
    {
      hide Step, Replay, VarsAgree, TableAgrees, TableEvolves, Reaps, Pauses, BlocksUntil, Calm;
      SteadyIsOpen();
      ReapsReflexive(k.led.value);
      var now := Clock();
      if k.stopped || now >= deadline {
        return true;
      }
      now := Clock();
      if k.stopped {
        return false;
      }
      ghost var since := k.w.clock;
      var hup := WaitUntil(Wrap(now + END_PASS_INTERVAL_MS));
      if !k.stopped {
        BlocksPauses(k.log[|old(k.log)|], old(k.w.clock), now, since);
      }
      return false;
    }

    /** One pass after others, and what it would have the answer say; `l0` and `since` are those of the first. */
    method NextPass(clean: nat, ghost l0: Ledger, ghost since: nat) returns (r: int, passes: nat)
      requires Steady() && !k.stopped && inEnd && Ends(l0, k.led.value)
      requires clean == k.led.value.pass.passes && !k.led.value.pass.late
      requires l0.pass.ending && l0.pass.termAt + GraceOf(l0) <= since <= k.w.clock
      requires k.led.value.pass.firstAt.Some? ==> k.led.value.pass.firstAt.value >= since
      modifies this`slots, this`echild, this`exitedPending, this`exitedStatus, this`exitedGen, k
      ensures Sound()
      ensures Idle() == old(Idle()) && k.w.busy >= old(k.w.busy)
      ensures !k.stopped ==>
        && Steady() && |k.w.script| < |old(k.w.script)| && Ends(l0, k.led.value)
        && passes == k.led.value.pass.passes == (if r == 1 then clean + 1 else 0)
        && Judged(k.led.value, r, since)
        && k.led.value.pass.firstAt.Some? && k.led.value.pass.firstAt.value >= since
        && (k.led.value.pass.late ==> Overdue(k.led.value.pass, k.w.clock))
    {
      hide Step, Replay, VarsAgree, TableAgrees, TableEvolves, Ends, Reaps, GraceOf, EndErrorOk, Calm;
      SteadyIsOpen();
      ghost var before := k.led.value;
      EndsKeeps(l0, before);
      r := EndCleanPass();
      passes := if r == 1 then clean + 1 else 0;
      if !k.stopped {
        SteadyIsOpen();
        EndsTransitive(l0, before, k.led.value);
        EndsKeeps(l0, k.led.value);
        PassVerdict(V(), k.led.value, since);
      }
    }

    /** SIGKILL passes until two in a row are clean, /proc is unreadable, or the bound has passed. */
    method KillPasses(boundMs: nat) returns (err: Error, ghost pauses: seq<nat>)
      requires Steady() && !k.stopped && inEnd && k.led.value.pass.passes == 0 && boundMs == END_KILL_BOUND_MS
      requires GraceOver()
      requires !k.led.value.pass.late && k.led.value.pass.firstAt.None?
      modifies this`slots, this`echild, this`exitedPending, this`exitedStatus, this`exitedGen, this`closed, k
      ensures Sound() && k.w.busy >= old(k.w.busy)
      ensures Idle() <= old(Idle()) + boundMs + END_PASS_INTERVAL_MS - 1 && k.w.clock >= old(k.w.clock)
      ensures !k.stopped ==> Paced(old(Idle()), boundMs, Idle(), pauses)
      ensures !k.stopped && err == EndDeadline ==> k.w.clock >= old(k.w.clock) + boundMs
      ensures !k.stopped ==>
        && |k.w.script| < |old(k.w.script)|
        && Ends(old(k.led).value, k.led.value)
        && (if closed then k.led.value.gone else Steady() && EndErrorOk(k.led.value, err, k.w.clock))
    {
      hide Step, Replay, VarsAgree, TableAgrees, TableEvolves, Ends, Reaps, GraceOf, Paced, EndErrorOk, Pauses, Calm, Judged;
      SteadyIsOpen();
      EndsReflexive(k.led.value);
      PacedStarts(Idle(), boundMs);
      err, pauses := NoError, [];
      var now := Clock();
      var deadline := Wrap(now + boundMs);
      var clean := 0;
      while !k.stopped && !closed
        invariant Sound() && inEnd && err == NoError && k.w.busy >= old(k.w.busy)
        invariant Idle() <= old(Idle()) + boundMs + END_PASS_INTERVAL_MS - 1
        invariant !k.stopped ==> Paced(old(Idle()), boundMs, Idle(), pauses)
        invariant deadline - old(k.w.busy) == old(Idle()) + boundMs
        invariant deadline == old(k.w.clock) + boundMs && k.w.clock >= old(k.w.clock)
        invariant !k.stopped ==>
          && |k.w.script| < |old(k.w.script)| && Ends(old(k.led).value, k.led.value)
          && (if closed then k.led.value.gone else Steady() && clean == k.led.value.pass.passes < 2 && !k.led.value.pass.late)
          && (k.led.value.pass.firstAt.Some? ==> k.led.value.pass.firstAt.value >= old(k.w.clock))
        decreases if k.stopped then 0 else 1, |k.w.script|
      {
        var r;
        r, clean := NextPass(clean, old(k.led).value, old(k.w.clock));
        if k.stopped {
          return;
        }
        SteadyIsOpen();
        JudgedMeans(k.led.value, r, old(k.w.clock), k.w.clock);
        if r < 0 {
          return ProcRead, pauses;
        }
        if clean >= 2 {
          return;
        }
        ghost var before, idle := k.led.value, Idle();
        var late := Pause(deadline);
        if k.stopped {
          return;
        }
        if late {
          JudgedMeans(k.led.value, r, old(k.w.clock), k.w.clock);
          return EndDeadline, pauses;
        }
        PacedStep(old(Idle()), boundMs, idle, pauses, Idle());
        pauses := pauses + [Idle() - idle];
        EndsScanned(before, k.led.value);
        ReapsEnds(before, k.led.value);
        EndsTransitive(old(k.led).value, before, k.led.value);
      }
    }

    /** Nothing is owed but the answer, and any end pass is over. */
    ghost predicate Settled()
      reads this, k
    {
      && Agrees() && Armed() && k.led.value.notice.None? && !closed && !inEnd
      && slots[SWEEP].pid == 0 && slots[CLEANUP].pid == 0
    }

    method Terminate()
      requires Steady() && Settled() && !k.stopped
      requires Serves(k.led.value, End) || Serves(k.led.value, Sweep)
      modifies this`inEnd, k
      ensures Sound() && k.led == Some(Termed(old(k.led).value, old(k.w.clock))) && inEnd
      ensures Idle() == old(Idle()) && k.w.busy >= old(k.w.busy)
      ensures !k.stopped ==> Steady() && |k.w.script| < |old(k.w.script)|
    {
      hide Step, Replay, VarsAgree, TableAgrees, TableEvolves;
      ghost var l, was := k.led.value, k.w;
      TermAllowed(V(), l, was.clock);
      inEnd := true;
      k.SignalAll(SIGTERM);
      EvolvesTableAgrees(l, was.table, k.w.table);
      TermTable(l, k.w.table, was.clock);
    }

    /** SIGTERM and the grace; true when the connection closed during it. */
    method AskToEnd(graceMs: nat) returns (hup: bool)
      requires Steady() && Settled() && !k.stopped
      requires Serves(k.led.value, End) || Serves(k.led.value, Sweep)
      requires graceMs == GraceOf(k.led.value) <= Grammar.MAX_JSON_INT
      modifies this`slots, this`echild, this`exitedPending, this`exitedStatus, this`exitedGen, this`closed, this`inEnd, k
      ensures Sound() && inEnd && k.w.busy >= old(k.w.busy)
      ensures Idle() <= old(Idle()) + graceMs && k.w.clock >= old(k.w.clock)
      ensures !k.stopped && !hup ==> k.w.clock >= old(k.w.clock) + graceMs
      ensures !k.stopped ==>
        && closed == hup && |k.w.script| < |old(k.w.script)|
        && Ends(Termed(old(k.led).value, old(k.w.clock)), k.led.value)
        && (if hup then k.led.value.gone
            else
              && Steady() && GraceOver()
              && k.led.value.pass.passes == 0 && !k.led.value.pass.late && k.led.value.pass.firstAt.None?)
    {
      hide Step, Replay, VarsAgree, TableAgrees, TableEvolves, Ends, Reaps, GraceOf, Termed, Serves, Blocked;
      ghost var termed := Termed(k.led.value, k.w.clock);
      TermedKeeps(k.led.value, k.w.clock);
      hup := false;
      Terminate();
      if k.stopped {
        return;
      }
      hup := GraceWait(graceMs);
      if !k.stopped {
        ReapsEnds(termed, k.led.value);
      }
    }

    /**
     Ends every other process: SIGTERM, the grace, then SIGKILL passes. It succeeds exactly when
     two passes in a row were clean. It takes the grace and the pauses between its passes, plus the
     time the supervisor itself was busy.
     */
    method EndPass(graceMs: nat, boundMs: nat) returns (err: Error, ghost pauses: seq<nat>)
      requires Steady() && Settled() && !k.stopped
      requires Serves(k.led.value, End) || Serves(k.led.value, Sweep)
      requires graceMs == GraceOf(k.led.value) <= Grammar.MAX_JSON_INT && boundMs == END_KILL_BOUND_MS
      modifies this`slots, this`echild, this`exitedPending, this`exitedStatus, this`exitedGen, this`closed, this`inEnd, k
      ensures Sound() && k.w.busy >= old(k.w.busy)
      ensures Idle() <= old(Idle()) + graceMs + boundMs + END_PASS_INTERVAL_MS - 1 && k.w.clock >= old(k.w.clock)
      ensures !k.stopped && !closed ==>
        EndLasted(old(Idle()), old(k.w.busy), graceMs, err == EndDeadline, Idle(), k.w.busy, pauses)
      ensures !k.stopped ==>
        && |k.w.script| < |old(k.w.script)|
        && Ends(Termed(old(k.led).value, old(k.w.clock)), k.led.value)
        && (if closed then k.led.value.gone else Settled() && EndErrorOk(k.led.value, err, k.w.clock))
    {
      hide Step, Replay, VarsAgree, TableAgrees, TableEvolves, Ends, Reaps, GraceOf, Termed, EndErrorOk, Serves, Paced,
        EndLasted;
      ghost var termed := Termed(k.led.value, k.w.clock);
      TermedKeeps(k.led.value, k.w.clock);
      err, pauses := NoError, [];
      var hup := AskToEnd(graceMs);
      if k.stopped {
        return;
      }
      if !hup {
        ghost var before := k.led.value;
        ghost var idle, busy := Idle(), k.w.busy;
        err, pauses := KillPasses(boundMs);
        if k.stopped {
          return;
        }
        PacedLasted(old(Idle()), old(k.w.busy), graceMs, err == EndDeadline, idle, busy, Idle(), k.w.busy, pauses);
        EndsTransitive(termed, before, k.led.value);
      }
      inEnd := false;
      if !closed {
        EndsKeeps(termed, k.led.value);
        EndingSlots(V(), k.led.value);
      }
    }

    /** The backstop SIGKILL, which goes to a worker no status was collected for. */
    method Backstop(kind: nat)
      requires Steady() && !k.stopped && !inEnd
      requires !k.led.value.job.killed && k.w.clock >= k.led.value.job.forkAt + BackstopOf(k.led.value)
      requires SWEEP <= kind <= CLEANUP && slots[kind].pid != 0 && !slots[kind].reaped
      modifies k
      ensures Sound() && k.led == Some(old(k.led).value.(job := old(k.led).value.job.(killed := true))) && old(k.log) <= k.log
      ensures Idle() == old(Idle()) && k.w.busy >= old(k.w.busy)
      ensures !k.stopped ==> Steady() && |k.w.script| < |old(k.w.script)|
    {
      ghost var l, was := k.led.value, k.w;
      KillAllowed(V(), l, was.table, kind, was.clock);
      k.Kill(slots[kind].pid, SIGKILL);
      EvolvesTableAgrees(l, was.table, k.w.table);
    }

    /** Collects what exited; true when the status of the worker in the slot is there. */
    method Arrived(kind: nat) returns (there: bool)
      requires Steady() && !k.stopped && !inEnd
      requires SWEEP <= kind <= CLEANUP && slots[kind].pid != 0
      modifies this`slots, this`echild, this`exitedPending, this`exitedStatus, this`exitedGen, k
      ensures Sound() && Idle() == old(Idle()) && k.w.busy >= old(k.w.busy)
      ensures SameWorkers(old(slots), slots) && old(k.log) <= k.log
      ensures !k.stopped ==>
        && Steady() && |k.w.script| < |old(k.w.script)|
        && Reaps(old(k.led).value, k.led.value)
        && there == slots[kind].reaped
        && (if there then k.led.value.job.got == Some(slots[kind].status) else !echild && k.led.value.job.got.None?)
    {
      ServiceChildren();
      there := slots[kind].reaped;
    }

    /**
     One look at the worker: its status, the verdict that none will come, or another wait. The
     backstop SIGKILL is sent here, once.
     */
    method Look(kind: nat, start: nat, backstopMs: nat, killedAt: nat)
      returns (verdict: WorkerVerdict, status: nat, now: nat, killed: nat)
      requires Steady() && !k.stopped && !inEnd
      requires SWEEP <= kind <= CLEANUP && slots[kind].pid != 0 && backstopMs > 0
      requires start <= k.w.clock && killedAt <= k.w.clock && (killedAt != 0 <==> k.led.value.job.killed)
      requires k.led.value.job.forkAt <= start && backstopMs == BackstopOf(k.led.value)
      modifies this`slots, this`echild, this`exitedPending, this`exitedStatus, this`exitedGen, k
      ensures Sound() && Idle() == old(Idle()) && k.w.busy >= old(k.w.busy) && old(k.log) <= k.log
      ensures !k.stopped ==>
        && Steady() && |k.w.script| < |old(k.w.script)|
        && Waited(old(k.led).value, k.led.value)
        && now < CLOCK_LIMIT && old(k.w.clock) <= now <= k.w.clock
        && now - Idle() <= k.w.busy
        && match verdict
           case Got =>
             && slots[SWEEP].pid == 0 == slots[CLEANUP].pid && k.led.value.job.got == Some(status)
             && (killedAt != 0 <==> k.led.value.job.killed)
           case Lost =>
             && slots[SWEEP].pid == 0 == slots[CLEANUP].pid && k.led.value.job.got.None?
             && killedAt != 0 && k.led.value.job.killed && now - killedAt >= WAIT_AFTER_KILL_MS
           case Again =>
             && SameWorkers(old(slots), slots)
             && (killed != 0 <==> k.led.value.job.killed)
             && StillDue(start, backstopMs, killedAt, now, killed)
    {
      hide Step, Replay, VarsAgree, TableAgrees, TableEvolves, Reaps, Waited;
      ThreeSlots(V(), k.led.value);
      WorkerAlone(V(), k.led.value, kind);
      verdict, status, now, killed := Again, 0, 0, killedAt;
      WaitedReflexive(k.led.value);
      var there := Arrived(kind);
      if k.stopped {
        return;
      }
      ReapsWaited(old(k.led).value, old(k.led).value, k.led.value);
      if there {
        status := slots[kind].status;
        Vacate(kind);
        return Got, status, k.w.clock, killedAt;
      }
      now := Clock();
      if k.stopped {
        return;
      }
      if echild || (killedAt != 0 && now - killedAt >= WAIT_AFTER_KILL_MS) {
        Vacate(kind);
        return Lost, 0, now, killedAt;
      }
      if backstopMs != 0 && killedAt == 0 && now - start >= backstopMs {
        KilledWaited(old(k.led).value, k.led.value);
        Backstop(kind);
        killed := now;
      }
    }

    method Vacate(kind: nat)
      requires Steady() && SWEEP <= kind <= CLEANUP
      modifies this`slots
      ensures slots == old(slots)[kind := EMPTY] && Steady()
    {
      hide VarsAgree, TableAgrees;
      ThreeSlots(V(), k.led.value);
      ClearSlot(V(), k.led.value, kind);
      slots := slots[kind := EMPTY];
    }

    /** The instant the next look at the worker is due: the backstop when that comes first. */
    static function NextLook(now: nat, start: nat, backstopMs: nat, killed: bool): (next: nat)
      requires now < CLOCK_LIMIT && start <= now && backstopMs <= Grammar.MAX_JSON_INT + CLEANUP_BACKSTOP_SLACK_MS
      ensures next <= now + WAIT_STEP_MS
      ensures backstopMs > 0 && !killed ==> next <= start + backstopMs
      ensures next == now + WAIT_STEP_MS || (!killed && next == start + backstopMs)
    {
      var next := Wrap(now + WAIT_STEP_MS);
      if backstopMs != 0 && !killed && Wrap(start + backstopMs) < next then Wrap(start + backstopMs) else next
    }

    /** The wait until the next look is due; `since` and `seen` are the time and the log before the look that is over. */
    method RestUntilNext(now: nat, start: nat, backstopMs: nat, killed: bool, ghost since: nat, ghost seen: seq<Event>)
      returns (hup: bool, next: nat)
      requires Steady() && !k.stopped && seen <= k.log
      requires now < CLOCK_LIMIT && start <= now <= k.w.clock && since <= now
      requires backstopMs <= Grammar.MAX_JSON_INT + CLEANUP_BACKSTOP_SLACK_MS
      modifies this`slots, this`echild, this`exitedPending, this`exitedStatus, this`exitedGen, this`closed, k
      ensures next == NextLook(now, start, backstopMs, killed)
      ensures Sound() && SameWorkers(old(slots), slots)
      ensures old(Idle()) <= Idle() <= Max(old(Idle()), next - old(k.w.busy)) && k.w.busy >= old(k.w.busy)
      ensures !k.stopped ==>
        && closed == hup
        && Reaps(old(k.led).value, k.led.value)
        && |k.w.script| < |old(k.w.script)|
        && (if hup then k.led == Some(Hung(old(k.led).value)) else Steady())
        && Rested(seen, k.log, since, start + backstopMs, killed)
    {
      hide Step, Replay, VarsAgree, TableAgrees, TableEvolves, Reaps, Rested, Blocked, Calm;
      next := NextLook(now, start, backstopMs, killed);
      ghost var before, from := k.log, k.w.clock;
      hup := WaitUntil(next);
      if !k.stopped {
        BlockedRests(seen, before, k.log, since, now, from, next, start + backstopMs, killed);
      }
    }

    /**
     One look at the worker, and a wait when there is nothing to see yet. `res` is 2 while the
     wait goes on and the result of the whole wait otherwise.
     */
    method LookAndWait(kind: nat, start: nat, backstopMs: nat, killedAt: nat, ghost idle0: int, ghost busy0: nat,
                       ghost past: seq<nat>)
      returns (res: int, status: nat, killed: nat, ghost after: seq<nat>)
      requires Steady() && !k.stopped && !inEnd
      requires SWEEP <= kind <= CLEANUP && slots[kind].pid != 0
      requires 0 < backstopMs <= Grammar.MAX_JSON_INT + CLEANUP_BACKSTOP_SLACK_MS
      requires start <= k.w.clock && (killedAt != 0 <==> k.led.value.job.killed)
      requires k.led.value.job.forkAt <= start && backstopMs == BackstopOf(k.led.value)
      requires start - busy0 == idle0 && busy0 <= k.w.busy
      requires OnTime(idle0, backstopMs, start, killedAt, Idle(), k.w.busy, past)
      modifies this`slots, this`echild, this`exitedPending, this`exitedStatus, this`exitedGen, this`closed, k
      ensures Sound() && k.w.busy >= old(k.w.busy)
      ensures Idle() >= old(Idle()) && Idle() <= idle0 + backstopMs + WAIT_AFTER_KILL_MS + WAIT_STEP_MS - 1
      ensures !k.stopped ==>
        && |k.w.script| < |old(k.w.script)|
        && Waited(old(k.led).value, k.led.value)
        && (res == 0 || res == 1 || res == -1 || res == 2)
        && closed == (res == 1) && (res == 1 ==> k.led.value.gone)
        && (res == 0 || res == -1 ==> Steady() && |slots| == KINDS && slots[SWEEP].pid == 0 && slots[CLEANUP].pid == 0)
        && (res == 0 ==> k.led.value.job.got == Some(status))
        && (res == -1 ==>
              && k.led.value.job.got.None? && k.led.value.job.killed
              && k.w.clock >= start + backstopMs + WAIT_AFTER_KILL_MS)
        && (res == 0 || res == -1 ==>
              Lasted(idle0, busy0, backstopMs, k.led.value.job.killed, res == -1, Idle(), k.w.busy, after))
        && (res == 2 ==>
              && Steady() && SameWorkers(old(slots), slots) && (killed != 0 <==> k.led.value.job.killed)
              && OnTime(idle0, backstopMs, start, killed, Idle(), k.w.busy, after)
              && Rested(old(k.log), k.log, old(k.w.clock), start + backstopMs, killed != 0))
    {
      hide Step, Replay, VarsAgree, TableAgrees, TableEvolves, Reaps, Waited, NextLook, StillDue, BackstopOf, OnTime,
        Lasted, WaitsAfter, Rested;
      ThreeSlots(V(), k.led.value);
      ghost var before, idle, busy := k.led.value, Idle(), k.w.busy;
      OnTimeMeans(idle0, backstopMs, start, killedAt, Idle(), k.w.busy, past);
      res, status, killed, after := -1, 0, killedAt, past;
      var verdict, st, now, kill := Look(kind, start, backstopMs, killedAt);
      if k.stopped {
        return;
      }
      OnTimeEnds(idle0, backstopMs, start, busy0, killedAt, idle, busy, k.w.busy, past);
      ThreeSlots(V(), k.led.value);
      if verdict.Lost? {
        return;
      }
      if verdict.Got? {
        return 0, st, killed, past;
      }
      killed := kill;
      ghost var middle, busy1 := k.led.value, k.w.busy;
      var hup, next := RestUntilNext(now, start, backstopMs, killed != 0, old(k.w.clock), old(k.log));
      OnTimeStep(idle0, backstopMs, start, busy0, killedAt, killed, now, idle, busy, busy1, next, Idle(), k.w.busy,
        past);
      after := WaitsAfter(killed, past, Idle() - idle);
      OnTimeMeans(idle0, backstopMs, start, killed, Idle(), k.w.busy, after);
      if k.stopped {
        return;
      }
      ReapsWaited(before, middle, k.led.value);
      res := if hup then 1 else 2;
    }

    /**
     Waits for the status of the worker in a slot. 0: the status is the first one collected for
     it. 1: the connection closed. -1: the worker was sent the backstop SIGKILL and no status
     came in the window after it; that is the only way to miss a status.
     */
    method WaitChild(kind: nat, backstopMs: nat) returns (res: int, status: nat, ghost after: seq<nat>)
      requires Steady() && !k.stopped && !inEnd
      requires SWEEP <= kind <= CLEANUP && slots[kind].pid != 0 && !slots[kind].reaped
      requires 0 < backstopMs <= Grammar.MAX_JSON_INT + CLEANUP_BACKSTOP_SLACK_MS
      requires backstopMs == BackstopOf(k.led.value) && !k.led.value.job.killed && k.led.value.job.forkAt <= k.w.clock
      modifies this`slots, this`echild, this`exitedPending, this`exitedStatus, this`exitedGen, this`closed, k
      ensures Sound() && k.w.busy >= old(k.w.busy)
      ensures Idle() <= old(Idle()) + backstopMs + WAIT_AFTER_KILL_MS + WAIT_STEP_MS - 1
      ensures !k.stopped ==>
        && |k.w.script| < |old(k.w.script)|
        && Waited(old(k.led).value, k.led.value)
        && (res == 0 || res == 1 || res == -1)
        && closed == (res == 1) && (res == 1 ==> k.led.value.gone)
        && (res != 1 ==> Steady() && slots[SWEEP].pid == 0 && slots[CLEANUP].pid == 0)
        && (res == 0 ==> k.led.value.job.got == Some(status))
        && (res == -1 ==>
              && k.led.value.job.got.None? && k.led.value.job.killed
              && k.w.clock >= old(k.w.clock) + backstopMs + WAIT_AFTER_KILL_MS)
        && (res != 1 ==>
              Lasted(old(Idle()), old(k.w.busy), backstopMs, k.led.value.job.killed, res == -1, Idle(), k.w.busy, after))
    {
      hide Step, Replay, VarsAgree, TableAgrees, TableEvolves, Reaps, Waited, BackstopOf, OnTime, Lasted;
      WaitedReflexive(k.led.value);
      ThreeSlots(V(), k.led.value);
      var start := Clock();
      var killedAt := 0;
      res, status, after := 2, 0, [];
      OnTimeStarts(old(Idle()), backstopMs, start, k.w.busy);
      while !k.stopped && res == 2
        invariant Sound() && k.w.busy >= old(k.w.busy) && Idle() >= old(Idle())
        invariant Idle() <= old(Idle()) + backstopMs + WAIT_AFTER_KILL_MS + WAIT_STEP_MS - 1
        invariant start == old(k.w.clock)
        invariant !k.stopped ==>
          && |k.w.script| < |old(k.w.script)|
          && Waited(old(k.led).value, k.led.value)
          && (res == 0 || res == 1 || res == -1 || res == 2)
          && closed == (res == 1) && (res == 1 ==> k.led.value.gone)
          && (res == 0 || res == -1 ==> Steady() && |slots| == KINDS && slots[SWEEP].pid == 0 && slots[CLEANUP].pid == 0)
          && (res == 0 ==> k.led.value.job.got == Some(status))
          && (res == -1 ==>
                && k.led.value.job.got.None? && k.led.value.job.killed
                && k.w.clock >= start + backstopMs + WAIT_AFTER_KILL_MS)
          && (res == 0 || res == -1 ==>
                Lasted(old(Idle()), old(k.w.busy), backstopMs, k.led.value.job.killed, res == -1, Idle(), k.w.busy, after))
          && (res == 2 ==>
                && Steady() && SameWorkers(old(slots), slots) && (killedAt != 0 <==> k.led.value.job.killed)
                && OnTime(old(Idle()), backstopMs, start, killedAt, Idle(), k.w.busy, after))
        decreases if k.stopped || res != 2 then 0 else 1, |k.w.script|
      {
        ghost var before := k.led.value;
        WaitedKeeps(old(k.led).value, before);
        res, status, killedAt, after :=
          LookAndWait(kind, start, backstopMs, killedAt, old(Idle()), old(k.w.busy), after);
        if !k.stopped {
          WaitedTransitive(old(k.led).value, before, k.led.value);
        }
      }
    }

    /** The line buffer holds exactly the bytes no line was made of yet. */
    ghost predicate Fed()
      reads this, k, lb, lb.buf
    {
      lb.Valid() && k.led.Some? && lb.Contents() == k.led.value.stream
    }

    /** Between two requests. */
    ghost predicate Between()
      reads this, k
    {
      Calm() && Settled() && k.led.value.cur.None? && !k.led.value.pass.ending && gen <= Grammar.MAX_JSON_INT
    }

    /** A valid request was taken and nothing was done about it yet. */
    ghost predicate Taken(r: Request)
      reads this, k
    {
      && Steady() && Settled() && gen <= Grammar.MAX_JSON_INT
      && k.led.value.cur == Some(Ok(r)) && Fresh(k.led.value)
      && r.gen <= Grammar.MAX_JSON_INT && r.graceMs <= Grammar.MAX_JSON_INT && r.timeoutMs <= Grammar.MAX_JSON_INT
    }

    /** Writes the one reply to the request being served. */
    method Answer(kind: RequestType, g: nat, id: nat, err: Error)
      requires Sound() && !k.stopped && !closed && !inEnd && Armed() && !k.w.sigchldFlag && gen <= Grammar.MAX_JSON_INT
      requires Answerable(V(), k.led.value, k.w.table, kind, g, id, err, k.w.clock)
      modifies k
      ensures Sound() && Idle() == old(Idle()) && k.w.busy >= old(k.w.busy)
      ensures !k.stopped ==> Between() && k.led == Some(Answered(old(k.led).value)) && |k.w.script| < |old(k.w.script)|
    {
      hide Step, Replay, VarsAgree, TableAgrees, TableEvolves, Answerable;
      ghost var l, was := k.led.value, k.w;
      AnswerAgrees(V(), l, was.table, kind, g, id, err, was.clock);
      Send(Reply(kind, g, id, err));
      EvolvesTableAgrees(Answered(l), was.table, k.w.table);
    }

    /** As the namespace init, the exit ends every remaining process. */
    method ExitClosed()
      requires Sound() && !k.stopped && k.led.value.gone && !k.led.value.over
      modifies k
      ensures Sound() && k.stopped && k.w == old(k.w)
    {
      k.Exit(EXIT_CLOSED);
    }

    method HandleEnd(r: Request) returns (ghost pauses: seq<nat>)
      requires Taken(r) && !k.stopped && Serves(k.led.value, End)
      modifies this, k
      ensures Sound()
      ensures Idle() <= old(Idle()) + r.graceMs + END_KILL_BOUND_MS + END_PASS_INTERVAL_MS - 1
      ensures !k.stopped ==>
        && Between() && SameStream(old(k.led), k.led) && |k.w.script| < |old(k.w.script)|
        && EndLasted(old(Idle()), old(k.w.busy), r.graceMs, Missed(k.led.value), Idle(), k.w.busy, pauses)
    {
      hide Step, Replay, VarsAgree, TableAgrees, TableEvolves, Answerable, Ends, EndLasted, Missed, EndErrorOk, Answered;
      ghost var termed := Termed(k.led.value, k.w.clock);
      ThreeSlots(V(), k.led.value);
      var err;
      err, pauses := EndPass(r.graceMs, END_KILL_BOUND_MS);
      if k.stopped {
        return;
      }
      EndsKeeps(termed, k.led.value);
      if closed {
        ExitClosed();
        return;
      }
      MissedExactly(k.led.value, err, k.w.clock);
      ghost var late, busy := err == EndDeadline, k.w.busy;
      EndAnswerable(V(), k.led.value, k.w.table, r, err, k.w.clock);
      if err == NoError {
        launchPermitted := true;
      }
      Answer(r.kind, r.gen, r.id, err);
      EndLastedUntil(old(Idle()), old(k.w.busy), r.graceMs, late, Idle(), busy, k.w.busy, pauses);
    }

    /** Forks a worker and files it in its slot; a failed fork leaves everything as it was. */
    method Spawn(kind: nat, ghost r: Request) returns (pid: int)
      requires Taken(r) && !k.stopped && SWEEP <= kind <= CLEANUP
      requires Serves(k.led.value, TaskOf(kind))
      modifies this`slots, k
      ensures Sound() && Idle() == old(Idle()) && k.w.busy >= old(k.w.busy)
      ensures |slots| == KINDS && slots[SWEEP + CLEANUP - kind].pid == 0
      ensures pid < 0 ==> slots[kind].pid == 0 && k.led == Some(Unforked(old(k.led).value))
      ensures pid >= 0 ==>
        && k.led == Some(Spawned(old(k.led).value, pid, old(k.w.clock)))
        && slots[kind].pid == pid > 0 && !slots[kind].reaped
      ensures !k.stopped ==> Steady() && |k.w.script| < |old(k.w.script)|
    {
      hide Step, Replay, VarsAgree, TableAgrees, TableEvolves;
      ghost var v, l, was := V(), k.led.value, k.w;
      ThreeSlots(v, l);
      pid := k.Fork(Worker(TaskOf(kind)));
      if pid > 0 {
        SpawnAgrees(v, l, was, k.w, pid, kind, was.clock);
        slots := slots[kind := slots[kind].(pid := pid)];
      } else {
        UnforkedAgrees(v, l, was.table, k.w.table, Worker(TaskOf(kind)));
      }
    }

    /** Forks a worker and waits for its status, which is what the ledger then holds. */
    method RunWorker(kind: nat, backstopMs: nat, ghost r: Request) returns (got: Option<nat>, ghost after: seq<nat>)
      requires Taken(r) && !k.stopped && SWEEP <= kind <= CLEANUP
      requires Serves(k.led.value, TaskOf(kind))
      requires 0 < backstopMs <= Grammar.MAX_JSON_INT + CLEANUP_BACKSTOP_SLACK_MS
      requires backstopMs == BackstopOf(k.led.value)
      modifies this`slots, this`echild, this`exitedPending, this`exitedStatus, this`exitedGen, this`closed, k
      ensures Sound() && k.w.busy >= old(k.w.busy)
      ensures Idle() <= old(Idle()) + backstopMs + WAIT_AFTER_KILL_MS + WAIT_STEP_MS - 1
      ensures !k.stopped ==>
        && Steady() && Settled() && |k.w.script| < |old(k.w.script)|
        && k.led.value.cur == old(k.led).value.cur && k.led.value.gen == old(k.led).value.gen
        && k.led.value.stream == old(k.led).value.stream
        && got == k.led.value.job.got && StatusDue(k.led.value, k.w.clock)
        && Lasted(old(Idle()), old(k.w.busy), backstopMs, k.led.value.job.killed,
                  k.led.value.job.killed && got.None?, Idle(), k.w.busy, after)
    {
      hide Step, Replay, VarsAgree, TableAgrees, TableEvolves, Waited, Spawned, Unforked, BackstopOf, Lasted;
      ghost var l, at := k.led.value, k.w.clock;
      ThreeSlots(V(), l);
      var pid := Spawn(kind, r);
      if k.stopped {
        return None, [];
      }
      got, after := None, [];
      UnforkedKeeps(l);
      NothingLasted(Idle(), old(k.w.busy), backstopMs, k.w.busy);
      if pid > 0 {
        SpawnedKeeps(l, pid, at);
        ghost var busy := k.w.busy;
        var res, status;
        res, status, after := WaitChild(kind, backstopMs);
        if k.stopped {
          return None, [];
        }
        WaitedKeeps(Spawned(l, pid, at), k.led.value);
        if closed {
          ExitClosed();
          return None, [];
        }
        LastedSince(old(Idle()), old(k.w.busy), backstopMs, k.led.value.job.killed, res == -1, busy, Idle(), k.w.busy, after);
        if res == 0 {
          got := Some(status);
        }
      }
    }

    /** The answer to a sweep: the worker's error first, then that of the end pass. */
    method AnswerSweep(r: Request, got: Option<nat>, endErr: Error)
      requires Settled() && !k.stopped && gen <= Grammar.MAX_JSON_INT
      requires k.led.value.cur == Some(Ok(r)) && Serves(k.led.value, Sweep) && k.led.value.pass.ending
      requires got == k.led.value.job.got && StatusDue(k.led.value, k.w.clock)
      requires EndErrorOk(k.led.value, endErr, k.w.clock)
      modifies this`launchPermitted, k
      ensures Sound() && Idle() == old(Idle()) && k.w.busy >= old(k.w.busy)
      ensures !k.stopped ==> Between() && k.led == Some(Answered(old(k.led).value)) && |k.w.script| < |old(k.w.script)|
    {
      hide Step, Replay, VarsAgree, TableAgrees, TableEvolves, Answerable, StatusDue, EndErrorOk;
      var err := SweepResult(got);
      if err == NoError {
        err := endErr;
      }
      SweepAnswerable(V(), k.led.value, k.w.table, r, endErr, err, k.w.clock);
      if endErr == NoError {
        launchPermitted := true;
      }
      Answer(r.kind, r.gen, r.id, err);
    }

    /** The end pass of a sweep, and the answer. */
    method FinishSweep(r: Request, got: Option<nat>) returns (ghost pauses: seq<nat>)
      requires Steady() && Settled() && !k.stopped && gen <= Grammar.MAX_JSON_INT
      requires k.led.value.cur == Some(Ok(r)) && Serves(k.led.value, Sweep)
      requires got == k.led.value.job.got && StatusDue(k.led.value, k.w.clock)
      modifies this, k
      ensures Sound() && k.w.busy >= old(k.w.busy)
      ensures Idle() <= old(Idle()) + END_KILL_BOUND_MS + END_PASS_INTERVAL_MS - 1
      ensures !k.stopped ==>
        && Between() && SameStream(old(k.led), k.led) && |k.w.script| < |old(k.w.script)|
        && k.led.value.job.killed == old(k.led).value.job.killed && k.led.value.job.got == got
        && EndLasted(old(Idle()), old(k.w.busy), 0, Missed(k.led.value), Idle(), k.w.busy, pauses)
    {
      hide Step, Replay, VarsAgree, TableAgrees, TableEvolves, Ends, Termed, EndLasted, Missed, StatusDue, EndErrorOk,
        Answered;
      ghost var before, at := k.led.value, k.w.clock;
      ThreeSlots(V(), before);
      TermedKeeps(before, at);
      var endErr;
      endErr, pauses := EndPass(0, END_KILL_BOUND_MS);
      if k.stopped {
        return;
      }
      EndsKeeps(Termed(before, at), k.led.value);
      DueStaysDue(before, k.led.value, at, k.w.clock);
      if closed {
        ExitClosed();
        return;
      }
      MissedExactly(k.led.value, endErr, k.w.clock);
      ghost var late, busy := endErr == EndDeadline, k.w.busy;
      AnswerSweep(r, got, endErr);
      EndLastedUntil(old(Idle()), old(k.w.busy), 0, late, Idle(), busy, k.w.busy, pauses);
    }

    /**
     A sweep: the worker, then an end pass. When nothing but waiting takes time the answer comes
     exactly after the waits of the two.
     */
    method HandleSweep(r: Request) returns (ghost after: seq<nat>, ghost pauses: seq<nat>)
      requires Taken(r) && !k.stopped && Serves(k.led.value, Sweep)
      modifies this, k
      ensures Sound()
      ensures Idle() <= old(Idle()) + SWEEP_BACKSTOP_MS + WAIT_AFTER_KILL_MS + WAIT_STEP_MS - 1
                        + END_KILL_BOUND_MS + END_PASS_INTERVAL_MS - 1
      ensures !k.stopped && k.w.busy == old(k.w.busy) ==>
        var job := k.led.value.job;
        SweepTook(k.w.clock - old(k.w.clock), job.killed, job.killed && job.got.None?, Missed(k.led.value), after, pauses)
      ensures !k.stopped ==> Between() && SameStream(old(k.led), k.led) && |k.w.script| < |old(k.w.script)|
    {
      hide Step, Replay, VarsAgree, TableAgrees, TableEvolves, SweepTook, Lasted, EndLasted, Missed, StatusDue;
      pauses := [];
      var got;
      got, after := RunWorker(SWEEP, SWEEP_BACKSTOP_MS, r);
      if k.stopped {
        return;
      }
      ghost var idle, busy, killed := Idle(), k.w.busy, k.led.value.job.killed;
      pauses := FinishSweep(r, got);
      if !k.stopped {
        SweepLasted(old(Idle()), old(k.w.busy), killed, killed && got.None?, idle, busy, after, Missed(k.led.value), Idle(),
          k.w.busy, pauses);
      }
    }

    method HandleCleanup(r: Request)
      requires Taken(r) && !k.stopped && Serves(k.led.value, Cleanup)
      modifies this, k
      ensures Sound()
      ensures Idle() <= old(Idle()) + r.timeoutMs + CLEANUP_BACKSTOP_SLACK_MS + WAIT_AFTER_KILL_MS + WAIT_STEP_MS - 1
      ensures !k.stopped ==> Between() && SameStream(old(k.led), k.led) && |k.w.script| < |old(k.w.script)|
    {
      hide Step, Replay, VarsAgree, TableAgrees, TableEvolves, Answerable;
      var got, after := RunWorker(CLEANUP, Wrap(r.timeoutMs + CLEANUP_BACKSTOP_SLACK_MS), r);
      if k.stopped {
        return;
      }
      CleanupAnswerable(V(), k.led.value, k.w.table, r, k.w.clock);
      Answer(r.kind, r.gen, r.id, CleanupResult(got));
    }

    /** The launch child: no process without a pipe, and the exec result read from the pipe. */
    method LaunchChild() returns (pid: int, execFailed: bool, ghost mid: World)
      requires k.Valid() && !k.stopped
      modifies k
      ensures k.Valid() && Idle() == old(Idle()) && k.w.busy >= old(k.w.busy)
      ensures Evolves(old(k.w), mid) && (pid < 0 || (pid > 1 && pid !in mid.table))
      ensures Evolves(if pid < 0 then mid else mid.(table := mid.table[pid := Proc(true, false, 0, true)]), k.w)
      ensures LaunchLogged(old(k.led), k.led, pid, execFailed, mid.clock, k.stopped)
      ensures !k.stopped ==> |k.w.script| < |old(k.w.script)|
    {
      hide Step, Replay, Apply, TableEvolves;
      pid, execFailed := -1, false;
      var piped := k.Pipe();
      mid := k.w;
      EvolvesReflexive(k.w);
      if !piped || k.stopped {
        return;
      }
      pid := k.Fork(RuntimeProcess);
      if pid < 0 || k.stopped {
        return;
      }
      ghost var forked := k.w;
      execFailed := k.ReadExec();
      EvolvesTransitive(mid.(table := mid.table[pid as nat := Proc(true, false, 0, true)]), forked, k.w);
    }

    /** The launch is accepted: the generation advances and the permit is spent, whatever fork and exec do. */
    method AcceptLaunch(r: Request)
      requires Taken(r) && !k.stopped && Acceptable(k.led.value)
      modifies this`gen, this`launchPermitted, this`slots, this`runtimeGen, k
      ensures Sound() && Idle() == old(Idle())
      ensures !k.stopped ==> Between() && SameStream(old(k.led), k.led) && |k.w.script| < |old(k.w.script)|
    {
      hide Step, Replay, VarsAgree, TableAgrees, TableEvolves, Acceptable, Forking, Launched, LaunchLogged, Apply;
      ghost var v, l, was := V(), k.led.value, k.w;
      ThreeSlots(v, l);
      gen := r.gen;
      launchPermitted := false;
      var pid, execFailed;
      ghost var mid;
      pid, execFailed, mid := LaunchChild();
      EvolvesTableAgrees(l, was.table, mid.table);
      LaunchLogs(v, l, k.led, pid, execFailed, mid.clock, k.stopped);
      if k.stopped {
        return;
      }
      LaunchedKeeps(l, r, pid, execFailed);
      LaunchAgrees(v, l, mid, k.w, r, pid, execFailed, k.w.clock);
      if pid > 0 {
        slots := slots[RUNTIME := slots[RUNTIME].(pid := pid)];
        runtimeGen := r.gen;
      }
      ghost var now := k.w;
      Send(Reply(r.kind, r.gen, r.id, if pid < 0 || execFailed then ExecFailed else NoError));
      EvolvesTableAgrees(Launched(l, r, pid, execFailed), now.table, k.w.table);
    }

    method HandleLaunch(r: Request)
      requires Taken(r) && !k.stopped && r.kind == Launch
      modifies this, k
      ensures Sound() && Idle() == old(Idle())
      ensures !k.stopped ==> Between() && SameStream(old(k.led), k.led) && |k.w.script| < |old(k.w.script)|
    {
      hide Step, Replay, VarsAgree, TableAgrees, TableEvolves, Answerable, Acceptable;
      ThreeSlots(V(), k.led.value);
      LaunchCases(V(), k.led.value, k.w.table, r, k.w.clock);
      if r.gen != Wrap(gen + 1) {
        Answer(r.kind, r.gen, r.id, GenMismatch);
        return;
      }
      if !launchPermitted || slots[RUNTIME].pid != 0 {
        Answer(r.kind, r.gen, r.id, NotPermitted);
        return;
      }
      AcceptLaunch(r);
    }

    method Dispatch(r: Request)
      requires Taken(r) && !k.stopped
      modifies this, k
      ensures Sound()
      ensures !k.stopped ==> Between() && SameStream(old(k.led), k.led) && |k.w.script| < |old(k.w.script)|
    {
      hide Step, Replay, VarsAgree, TableAgrees, TableEvolves, Answerable;
      MismatchAnswerable(V(), k.led.value, k.w.table, r, k.w.clock);
      if !GenOk(gen, r) {
        Answer(r.kind, r.gen, r.id, GenMismatch);
        return;
      }
      match r.kind
      case Launch => HandleLaunch(r);
      case End => var _ := HandleEnd(r);
      case Sweep => var _, _ := HandleSweep(r);
      case Cleanup => HandleCleanup(r);
      case Ping => Answer(r.kind, r.gen, r.id, NoError);
    }

    /** A line that cannot be attributed to a request, or that never ends, ends the supervisor. */
    method ExitProtocol()
      requires Sound() && !k.stopped && !k.led.value.over && !k.led.value.gone && !k.led.value.offered
      requires k.led.value.doomed || (TooLong(k.led.value.stream) && k.led.value.notice.None?)
      modifies k
      ensures Sound() && k.stopped
    {
      k.Exit(EXIT_PROTOCOL);
    }

    /** Hands the first line of the stream to the parser. */
    ghost method TookLine(line: seq<byte>)
      requires Between() && !k.stopped && HasLine(k.led.value.stream) && FirstLine(k.led.value.stream) == line
      modifies k`log, k`led
      ensures Sound() && k.led.value.stream == AfterLine(old(k.led).value.stream)
      ensures !k.led.value.over && !k.led.value.gone && !k.led.value.offered
      ensures Recognizer.Parse(line).Unreadable? ==> k.led.value.doomed
      ensures !Recognizer.Parse(line).Unreadable? ==>
        && Steady() && Settled() && k.led.value.cur == Some(Recognizer.Parse(line)) && Fresh(k.led.value)
    {
      hide Step, Replay, VarsAgree, TableAgrees, TableEvolves, Recognizer.Parse, HasLine, FirstLine, AfterLine;
      ThreeSlots(V(), k.led.value);
      TakeAgrees(V(), k.led.value, k.w.table, line);
      k.Record(Took(line));
    }

    /** Takes the line of n bytes out of the buffer and parses it. */
    method TakeLine(n: nat) returns (outcome: Outcome)
      requires Between() && Fed() && !k.stopped
      requires HasLine(k.led.value.stream) && n == FirstNewline(k.led.value.stream)
      modifies k`log, k`led, lb`len, lb.buf
      ensures Sound() && Fed() && !k.led.value.over && !k.led.value.gone && !k.led.value.offered
      ensures outcome.Unreadable? ==> k.led.value.doomed
      ensures !outcome.Unreadable? ==>
        && Steady() && Settled() && k.led.value.cur == Some(outcome) && Fresh(k.led.value)
      ensures outcome.Ok? ==> Taken(outcome.req)
    {
      hide Step, Replay, VarsAgree, TableAgrees, TableEvolves, Recognizer.Parse, HasLine, FirstLine, AfterLine;
      ghost var stream := k.led.value.stream;
      var line := lb.buf[..n];
      LineAt(stream, n);
      assert line == stream[..n];
      outcome := Parser.ParseLine(line);
      Recognizer.ParseBounds(line);
      TookLine(line);
      lb.Consume(n);
    }

    /** Handles every complete line in the buffer. */
    method DrainLines()
      requires Between() && Fed() && !k.stopped
      modifies this, k, lb`len, lb.buf
      ensures Sound()
      ensures !k.stopped ==>
        && Between() && Fed() && |k.w.script| <= |old(k.w.script)|
        && !HasLine(k.led.value.stream) && !TooLong(k.led.value.stream)
    {
      hide Step, Replay, VarsAgree, TableAgrees, TableEvolves, Answerable;
      while true
        invariant Between() && Fed() && !k.stopped && |k.w.script| <= |old(k.w.script)|
        decreases |k.w.script|
      {
        var n := lb.Take();
        if n == -1 {
          return;
        }
        if n < 0 {
          ThreeSlots(V(), k.led.value);
          ExitProtocol();
          return;
        }
        var outcome := TakeLine(n);
        if outcome.Unreadable? {
          ExitProtocol();
          return;
        }
        if outcome.Malformed? {
          MalformedAnswerable(V(), k.led.value, k.w.table, outcome, k.w.clock);
          Answer(outcome.badKind, outcome.badGen, outcome.badId, MalformedRequest);
        } else {
          Dispatch(outcome.req);
        }
        if k.stopped {
          return;
        }
      }
    }

    /** Reads once into the room left, which a drained buffer always has; false when nothing came. */
    method Fill() returns (more: bool)
      requires Offering() && Fed() && !k.stopped
      modifies k, lb, lb.buf
      ensures Sound() && Fed()
      ensures !k.stopped && more ==> Idling() && |k.w.script| < |old(k.w.script)|
      ensures !more ==> !k.led.value.over && (k.led.value.gone || |old(lb.Contents())| == MAX_LINE + 1)
      ensures lb.overflow == (old(lb.overflow) || |old(lb.Contents())| == MAX_LINE + 1)
    {
      hide Replay, VarsAgree, TableAgrees, TableEvolves;
      var room := lb.buf.Length - lb.len;
      ghost var v, l, was := V(), k.led.value, k.w;
      ThreeSlots(v, Heard(l));
      if room == 0 {
        lb.overflow := true;
        return false;
      }
      var bytes := k.Read(room);
      if bytes == [] {
        return false;
      }
      ReceiveAgrees(v, l, was.table, bytes);
      EvolvesTableAgrees(k.led.value, was.table, k.w.table);
      lb.Append(bytes);
      return true;
    }

    /** The top of the serve loop: as between two requests, but the flag may be set. */
    ghost predicate Idling()
      reads this, k
    {
      Resting() && !k.led.value.offered
    }

    /** The same with input found and not yet read. */
    ghost predicate Offering()
      reads this, k
    {
      Resting() && k.led.value.offered
    }

    ghost predicate Resting()
      reads this, k
    {
      && Sound() && VarsAgree(V(), Heard(k.led.value)) && TableAgrees(Heard(k.led.value), k.w.table)
      && (k.w.sigchldFlag || Armed())
      && k.led.value.notice.None? && k.led.value.cur.None? && !k.led.value.pass.ending
      && !closed && !inEnd && |slots| == KINDS && slots[SWEEP].pid == 0 && slots[CLEANUP].pid == 0
      && gen <= Grammar.MAX_JSON_INT
    }

    /** Waits for input or a signal, and reads what is offered; the end of the stream ends the supervisor. */
    method Listen()
      requires Between() && Fed() && !k.stopped && !HasLine(k.led.value.stream) && !TooLong(k.led.value.stream)
      modifies k, lb, lb.buf
      ensures Sound() && lb.overflow == old(lb.overflow)
      ensures !k.stopped ==> Idling() && Fed() && |k.w.script| < |old(k.w.script)|
    {
      hide Step, Replay, VarsAgree, TableAgrees, TableEvolves;
      ghost var l, was := k.led.value, k.w;
      ThreeSlots(V(), l);
      MayWait(V(), l, was, None);
      OfferAllowed(V(), l);
      var ready := k.Ppoll(true, None);
      if k.stopped {
        return;
      }
      EvolvesTableAgrees(l, was.table, k.w.table);
      if ready {
        var more := Fill();
        if !k.stopped && !more {
          ExitClosed();
        }
      }
    }

    /** The serve loop. It leaves only by an exit, or with the observed script. */
    method Serve()
      requires Idling() && Fed() && !k.stopped
      modifies this, k, lb, lb.buf
      ensures k.stopped && Accepted(k.log)
      ensures lb.overflow == old(lb.overflow)
    {
      hide Step, Replay, VarsAgree, TableAgrees, TableEvolves;
      ThreeSlots(V(), k.led.value);
      while !k.stopped
        invariant Sound() && lb.overflow == old(lb.overflow)
        invariant !k.stopped ==> Idling() && Fed()
        decreases if k.stopped then 0 else 1, |k.w.script|
      {
        if k.w.sigchldFlag {
          ServiceChildren();
          if k.stopped {
            return;
          }
        }
        DrainLines();
        if k.stopped {
          return;
        }
        Listen();
      }
    }
  }

  /**
   The supervisor over a namespace in any state it may be started in, and for any script of what
   the rest of the world does: the run that is observed is accepted.
   */
  method Observe(world: World) returns (k: Sys)
    requires WellFormed(world) && world.blocked == Handled() + FaultMask()
    requires world.sigchldFlag || (ExitedChildren(world.table) != {} ==> SIGCHLD in world.pending)
    requires forall p <- world.table :: !world.table[p].launched
    ensures fresh(k) && k.stopped && Accepted(k.log)
  {
    k := new Sys(world);
    var lines := new LineBuffer();
    var server := new Server(k, lines);
    server.Serve();
  }
}
