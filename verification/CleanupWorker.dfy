/**
 The cleanup worker: it runs the commands of one cleanup request in order, under one deadline.
 Its kernel is modelled as the supervisor's is: every call takes effect and then lets one batch
 of a script run, in which its commands exit and time passes.
 */
module CleanupWorker {
  import opened Base
  import opened WaitStatus
  import opened Signals
  import Grammar

  const CLOCK_LIMIT: nat := 0x8000_0000_0000_0000
  const ECHILD := 10
  const EINTR := 4

  // ------------------------------------------------------------------ what an observer sees

  datatype WorkerEvent =
    | Forked(index: nat, pid: nat)
    | ForkFailed(index: nat)
    | Collected(pid: nat, status: nat)
    | Gone(pid: nat)                        // wait4 found no such child
    | Asked(pid: nat)                       // wait4 had no status for it
    | Clock(now: nat)
    | Killed(target: int, sig: int)         // kill(target, sig); a negative target is a process group
    | Waits(unreaped: bool, armed: bool, timeout: nat) // about to block: it exited, SIGCHLD is pending

  /** How far the commands have come: how many ended well, and what is known of the next one. */
  datatype Progress =
    | Between(done: nat)
    | Running(done: nat, pid: nat)
    | Alive(done: nat, pid: nat)            // it had not ended when asked
    | Looked(done: nat, pid: nat, now: nat) // it was running at a time before the deadline
    | Ended(done: nat, pid: nat, status: nat)
    | Vanished(done: nat, pid: nat)
    | Expired(done: nat, pid: nat)
    | Struck(done: nat, pid: nat)           // its process group was sent SIGKILL
    | Dying(done: nat, pid: nat)
    | Finished(done: nat, result: nat)

  predicate Clean(status: nat) {
    !Signaled(status) && ExitStatus(status) == 0
  }

  /** The progress after one more event, or None when the worker must not do that now. */
  function Watch(p: Progress, e: WorkerEvent, deadline: nat): Option<Progress> {
    match p
    case Between(d) =>
      if e.Forked? && e.index == d && e.pid > 1 then Some(Running(d, e.pid))
      else if e.ForkFailed? && e.index == d then Some(Finished(d, WORKER_FAILED))
      else None
    case Running(d, pid) =>
      if e == Asked(pid) then Some(Alive(d, pid))
      else if e.Collected? && e.pid == pid then Some(Ended(d, pid, e.status))
      else if e.Gone? && e.pid == pid then Some(Vanished(d, pid))
      else None
    case Alive(d, pid) =>
      if e.Clock? then Some(if e.now < deadline then Looked(d, pid, e.now) else Expired(d, pid)) else None
    case Looked(d, pid, now) =>
      if e.Waits? && (e.unreaped ==> e.armed) && e.timeout == deadline - now then Some(Running(d, pid)) else None
    case Ended(d, pid, status) =>
      if !e.Clock? then None
      else if e.now >= deadline then Some(Finished(d, WORKER_DEADLINE))
      else if Clean(status) then Some(Between(d + 1))
      else Some(Finished(d, WORKER_FAILED))
    case Vanished(d, pid) =>
      if e.Clock? then Some(if e.now >= deadline then Expired(d, pid) else Finished(d, WORKER_FAILED)) else None
    case Expired(d, pid) =>
      if e == Killed(0 - pid, 9) then Some(Struck(d, pid)) else None
    case Struck(d, pid) =>
      if e == Killed(pid, 9) then Some(Dying(d, pid)) else None
    case Dying(d, pid) =>
      if (e.Collected? || e.Gone?) && e.pid == pid then Some(Finished(d, WORKER_DEADLINE)) else None
    case Finished(_, _) => None
  }

  function Watched(log: seq<WorkerEvent>, deadline: nat): Option<Progress> {
    if log == [] then Some(Between(0))
    else
      match Watched(log[..|log| - 1], deadline)
      case None => None
      case Some(p) => Watch(p, log[|log| - 1], deadline)
  }

  lemma WatchedAppend(log: seq<WorkerEvent>, e: WorkerEvent, deadline: nat)
    ensures Watched(log + [e], deadline) ==
      match Watched(log, deadline) { case None => None case Some(p) => Watch(p, e, deadline) }
  {
    assert (log + [e])[..|log|] == log;
  }

  // ------------------------------------------------------------------ the decision

  /** The verdict on a command from one wait and one clock reading, or -1 to go on waiting. */
  function Decide(reaped: bool, status: nat, now: nat, deadline: nat): (d: int)
    ensures d == WORKER_DEADLINE <==> now >= deadline
    ensures d == WORKER_OK <==> reaped && Clean(status) && now < deadline
    ensures d == -1 <==> !reaped && now < deadline
  {
    if now >= deadline then WORKER_DEADLINE
    else if !reaped then -1
    else if Signaled(status) || ExitStatus(status) != 0 then WORKER_FAILED
    else WORKER_OK
  }

  // ------------------------------------------------------------------ the worker's kernel

  datatype WorkerStep = Exits(pid: nat, status: nat) | Ticks(ms: nat)

  /** Children by process ID, with the status of those that exited. */
  datatype WorkerWorld = WorkerWorld(
    children: map<nat, Option<nat>>, pending: bool, flag: bool, clock: nat, busy: nat, script: seq<seq<WorkerStep>>)

  function StepOf(w: WorkerWorld, s: WorkerStep): WorkerWorld {
    match s
    case Exits(pid, status) =>
      if pid in w.children && w.children[pid].None?
      then w.(children := w.children[pid := Some(status)], pending := true) else w
    case Ticks(ms) => if w.clock + ms < CLOCK_LIMIT then w.(clock := w.clock + ms) else w
  }

  function Batch(w: WorkerWorld, steps: seq<WorkerStep>): WorkerWorld
    decreases |steps|
  {
    if steps == [] then w else Batch(StepOf(w, steps[0]), steps[1..])
  }

  ghost predicate AnyExited(w: WorkerWorld) {
    exists p <- w.children :: w.children[p].Some?
  }

  /** What time and the children can do: exit, once, leaving SIGCHLD pending. */
  ghost predicate Evolves(a: WorkerWorld, b: WorkerWorld) {
    && b.children.Keys == a.children.Keys
    && (forall p <- a.children :: a.children[p].Some? ==> b.children[p] == a.children[p])
    && (a.pending ==> b.pending) && b.flag == a.flag
    && (AnyExited(b) ==> AnyExited(a) || b.pending)
    && a.clock <= b.clock && (a.clock < CLOCK_LIMIT ==> b.clock < CLOCK_LIMIT)
    && b.script == a.script && b.busy == a.busy
  }

  lemma {:induction false} BatchEvolves(w: WorkerWorld, steps: seq<WorkerStep>)
    ensures Evolves(w, Batch(w, steps))
    decreases |steps|
  {
    if steps != [] {
      BatchEvolves(StepOf(w, steps[0]), steps[1..]);
    }
  }

  ghost function Idle(w: WorkerWorld): int {
    w.clock - w.busy
  }

  class CleanupRunner {
    var w: WorkerWorld
    var stopped: bool
    ghost var log: seq<WorkerEvent>
    ghost var deadline: nat
    ghost var seen: Option<Progress>

    ghost predicate Valid()
      reads this
    {
      w.clock < CLOCK_LIMIT && seen == Watched(log, deadline) && seen.Some?
    }

    /** An exit that was not collected is still to be noticed. */
    ghost predicate Armed()
      reads this
    {
      AnyExited(w) ==> w.pending
    }

    /** Nothing but the command in progress is a child. */
    ghost predicate Only(pids: set<nat>)
      reads this
    {
      w.children.Keys == pids
    }

    ghost method Record(e: WorkerEvent)
      requires seen == Watched(log, deadline) && seen.Some? && Watch(seen.value, e, deadline).Some?
      modifies this`log, this`seen
      ensures seen == Watched(log, deadline) == Watch(old(seen).value, e, deadline)
      ensures log == old(log) + [e]
    {
      WatchedAppend(log, e, deadline);
      seen := Watch(seen.value, e, deadline);
      log := log + [e];
    }

    method Interleave()
      requires Valid() && !stopped
      modifies this`w, this`stopped
      ensures Valid() && Idle(w) == Idle(old(w)) && w.busy >= old(w).busy && (old(Armed()) ==> Armed())
      ensures w.children.Keys == old(w).children.Keys && w.flag == old(w).flag && w.clock >= old(w).clock
      ensures forall p <- old(w).children :: old(w).children[p].Some? ==> w.children[p] == old(w).children[p]
      ensures !stopped ==> |w.script| < |old(w).script|
    {
      if w.script == [] {
        stopped := true;
      } else {
        var rest := w.(script := w.script[1..]);
        BatchEvolves(rest, w.script[0]);
        var b := Batch(rest, w.script[0]);
        w := b.(busy := b.busy + (b.clock - w.clock));
      }
    }

    method Now() returns (now: nat)
      requires Valid() && !stopped && Watch(seen.value, Clock(w.clock), deadline).Some?
      modifies this
      ensures Valid() && now == old(w).clock && deadline == old(deadline) && (old(Armed()) ==> Armed())
      ensures seen == Watch(old(seen).value, Clock(now), deadline)
      ensures Idle(w) == Idle(old(w)) && w.busy >= old(w).busy && w.children.Keys == old(w).children.Keys
      ensures !stopped ==> |w.script| < |old(w).script|
    {
      now := w.clock;
      Record(Clock(now));
      Interleave();
    }

    method Fork(index: nat) returns (pid: int)
      requires Valid() && !stopped && seen == Some(Between(index)) && Only({})
      modifies this
      ensures Valid() && deadline == old(deadline)
      ensures pid < 0 ==> seen == Some(Finished(index, WORKER_FAILED)) && Only({})
      ensures pid >= 0 ==> pid > 1 && seen == Some(Running(index, pid)) && Only({pid})
      ensures Idle(w) == Idle(old(w)) && w.busy >= old(w).busy
      ensures !stopped ==> |w.script| < |old(w).script|
    {
      hide Watched;
      var possible: bool := *;
      if possible {
        var p: nat :| p > 1;
        w := w.(children := map[p := None]);
        pid := p;
        Record(Forked(index, p));
      } else {
        pid := -1;
        Record(ForkFailed(index));
      }
      Interleave();
    }

    method ClearFlag()
      requires Valid()
      modifies this`w
      ensures Valid() && w == old(w).(flag := false)
    {
      w := w.(flag := false);
    }

    /** wait4(pid, WNOHANG). The kernel may have discarded the status, or the call may fail with nothing to collect. */
    method Wait4(pid: nat) returns (r: int, status: nat)
      requires Valid() && !stopped && pid > 1 && seen.value.Running? && seen.value.pid == pid && Only({pid})
      modifies this
      ensures Valid() && deadline == old(deadline) && Armed()
      ensures r == pid ==> seen == Some(Ended(old(seen).value.done, pid, status)) && Only({})
      ensures r == -ECHILD ==> seen == Some(Vanished(old(seen).value.done, pid)) && Only({})
      ensures r != pid && r != -ECHILD ==> r <= 0 && seen == Some(Alive(old(seen).value.done, pid)) && Only({pid})
      ensures Idle(w) == Idle(old(w)) && w.busy >= old(w).busy
      ensures !stopped ==> |w.script| < |old(w).script|
    {
      var failed: bool, discarded: bool := *, *;
      status := 0;
      if w.children[pid].None? {
        r := if failed then -EINTR else 0;
        Record(Asked(pid));
      } else {
        if discarded {
          r := -ECHILD;
          Record(Gone(pid));
        } else {
          r := pid;
          status := w.children[pid].value;
          Record(Collected(pid, status));
        }
        w := w.(children := map[]);
      }
      Interleave();
    }

    /** kill(target, sig). */
    method Kill(target: int, sig: int)
      requires Valid() && !stopped && Watch(seen.value, Killed(target, sig), deadline).Some?
      modifies this
      ensures Valid() && deadline == old(deadline) && seen == Watch(old(seen).value, Killed(target, sig), deadline)
      ensures w.children.Keys == old(w).children.Keys && Idle(w) == Idle(old(w)) && w.busy >= old(w).busy
      ensures !stopped ==> |w.script| < |old(w).script|
    {
      Record(Killed(target, sig));
      Interleave();
    }

    /** SIGKILL to the command's process group, and to the command, which may not be in it yet. */
    method KillCommand(pid: nat)
      requires Valid() && !stopped && seen.value.Expired? && seen.value.pid == pid
      modifies this
      ensures Valid() && deadline == old(deadline)
      ensures !stopped ==> seen == Some(Dying(old(seen).value.done, pid)) && |w.script| < |old(w).script|
      ensures w.children.Keys == old(w).children.Keys && Idle(w) == Idle(old(w)) && w.busy >= old(w).busy
    {
      Kill(0 - pid, SIGKILL);
      if !stopped {
        Kill(pid, SIGKILL);
      }
    }

    /** wait4(pid, 0): returns when the command is gone, which a command sent SIGKILL becomes. */
    method WaitKilled(pid: nat)
      requires Valid() && !stopped && seen.value.Dying? && seen.value.pid == pid && w.children.Keys <= {pid}
      modifies this
      ensures Valid() && deadline == old(deadline) && Only({})
      ensures seen == Some(Finished(old(seen).value.done, WORKER_DEADLINE))
      ensures Idle(w) == Idle(old(w)) && w.busy >= old(w).busy
      ensures !stopped ==> |w.script| < |old(w).script|
    {
      if pid in w.children {
        var status: nat := *;
        if w.children[pid].Some? {
          status := w.children[pid].value;
        }
        Record(Collected(pid, status));
      } else {
        Record(Gone(pid));
      }
      w := w.(children := map[]);
      Interleave();
    }

    /** SIGCHLD is unblocked only here, so one that arrived since the flag was cleared ends the wait at once. */
    method Ppoll(timeout: nat, pid: nat)
      requires Valid() && !stopped && seen.value.Looked? && seen.value.pid == pid && Only({pid}) && Armed()
      requires timeout == deadline - seen.value.now
      modifies this
      ensures Valid() && deadline == old(deadline) && seen == Some(Running(old(seen).value.done, pid)) && Only({pid})
      ensures w.busy == old(w).busy && old(w).clock <= w.clock <= old(w).clock + timeout
      ensures !stopped ==> |w.script| < |old(w).script|
    {
      Record(Waits(w.children[pid].Some?, w.pending, timeout));
      if w.script == [] {
        stopped := true;
        return;
      }
      var rest := w.(script := w.script[1..]);
      BatchEvolves(rest, w.script[0]);
      var b := Batch(rest, w.script[0]);
      w := b.(pending := false, flag := b.flag || b.pending,
              clock := if w.pending then w.clock else if b.clock > w.clock + timeout then w.clock + timeout else b.clock);
    }

    /** Runs one command to its end or the deadline. */
    method RunCommand(index: nat, limit: nat) returns (d: int)
      requires Valid() && !stopped && seen == Some(Between(index)) && Only({}) && limit == deadline
      modifies this
      ensures Valid() && deadline == old(deadline) && w.busy >= old(w).busy
      ensures Idle(w) <= Later(Idle(old(w)), deadline - old(w).busy)
      ensures !stopped ==>
        && Only({}) && |w.script| < |old(w).script|
        && d >= 0 && seen == Some(if d == WORKER_OK then Between(index + 1) else Finished(index, d))
    {
      d := -1;
      var pid := Fork(index);
      if pid < 0 {
        return WORKER_FAILED;
      }
      while !stopped
        invariant Valid() && deadline == old(deadline) == limit && w.busy >= old(w).busy
        invariant Idle(w) <= Later(Idle(old(w)), deadline - old(w).busy)
        invariant !stopped ==> seen == Some(Running(index, pid)) && Only({pid}) && |w.script| < |old(w).script|
        decreases !stopped, |w.script|
      {
        ClearFlag();
        var r, status := Wait4(pid);
        if stopped {
          return;
        }
        if r < 0 && r != -ECHILD {
          r := 0;
        }
        ghost var busy := w.busy;
        var now := Now();
        if stopped {
          return;
        }
        d := Decide(r == pid, status, now, limit);
        if d == WORKER_DEADLINE {
          if r != pid {
            KillCommand(pid);
            if stopped {
              return;
            }
            WaitKilled(pid);
          }
          return;
        }
        if d >= 0 {
          return;
        }
        if r == -ECHILD {
          return WORKER_FAILED;
        }
        Ppoll(limit - now, pid);
      }
    }

    /** Runs the commands in order until one does not end well or the deadline comes. */
    method Run(ncommands: nat, timeoutMs: nat) returns (result: int)
      requires Valid() && !stopped && log == [] && w.children == map[] && timeoutMs <= Grammar.MAX_JSON_INT
      modifies this
      ensures Valid() && w.busy >= old(w).busy
      ensures !stopped ==>
        && deadline == old(w).clock + timeoutMs && Only({})
        && result >= 0 && seen == Some(if result == WORKER_OK then Between(ncommands) else Finished(seen.value.done, result))
        && (result != WORKER_OK ==> seen.value.done < ncommands)
        && Idle(w) <= Idle(old(w)) + timeoutMs
        && (result == WORKER_OK <==> forall i :: 0 <= i < ncommands ==> Succeeded(log, i, deadline))
    {
      hide Succeeded;
      var start := w.clock;
      var limit := Wrap(start + timeoutMs);
      deadline := limit;
      Interleave();
      result := 0;
      for i := 0 to ncommands
        invariant Valid() && w.busy >= old(w).busy && deadline == limit
        invariant Idle(w) <= Idle(old(w)) + timeoutMs
        invariant !stopped ==> seen == Some(Between(i)) && Only({}) && result == WORKER_OK
      {
        if stopped {
          return;
        }
        result := RunCommand(i, limit);
        if result != WORKER_OK {
          if !stopped {
            OkExactly(log, ncommands, result, deadline);
          }
          return;
        }
      }
      if !stopped {
        OkExactly(log, ncommands, result, deadline);
      }
    }
  }

  function Later(a: int, b: int): int {
    if a < b then b else a
  }

  // ------------------------------------------------------------------ what every log of a worker shows

  ghost function At(log: seq<WorkerEvent>, j: nat, deadline: nat): Progress
    requires Watched(log, deadline).Some? && j <= |log|
  {
    WatchedPrefix(log, j, deadline);
    Watched(log[..j], deadline).value
  }

  lemma {:induction false} WatchedPrefix(log: seq<WorkerEvent>, j: nat, deadline: nat)
    requires Watched(log, deadline).Some? && j <= |log|
    ensures Watched(log[..j], deadline).Some?
    decreases |log|
  {
    hide Watch;
    if j < |log| {
      var front := log[..|log| - 1];
      WatchedPrefix(front, j, deadline);
      assert front[..j] == log[..j];
    } else {
      assert log[..j] == log;
    }
  }

  lemma Next(log: seq<WorkerEvent>, j: nat, deadline: nat)
    requires Watched(log, deadline).Some? && j < |log|
    ensures Watch(At(log, j, deadline), log[j], deadline) == Some(At(log, j + 1, deadline))
  {
    hide Watch;
    WatchedPrefix(log, j + 1, deadline);
    assert log[..j + 1][..j] == log[..j];
  }

  lemma AtEnd(log: seq<WorkerEvent>, deadline: nat)
    requires Watched(log, deadline).Some?
    ensures At(log, |log|, deadline) == Watched(log, deadline).value
  {
    assert log[..|log|] == log;
  }

  lemma {:induction false} DoneGrows(log: seq<WorkerEvent>, i: nat, j: nat, deadline: nat)
    requires Watched(log, deadline).Some? && i <= j <= |log|
    ensures At(log, i, deadline).done <= At(log, j, deadline).done
    decreases j
  {
    hide Watched;
    if i < j {
      Next(log, j - 1, deadline);
      DoneGrows(log, i, j - 1, deadline);
    }
  }

  /** The command of an index was forked, collected later with exit status 0, and before the deadline at that. */
  ghost predicate EndedWell(log: seq<WorkerEvent>, f: nat, c: nat, index: nat, deadline: nat) {
    && f < c && c + 1 < |log|
    && log[f].Forked? && log[f].index == index
    && log[c].Collected? && log[c].pid == log[f].pid && Clean(log[c].status)
    && log[c + 1].Clock? && log[c + 1].now < deadline
  }

  ghost predicate Succeeded(log: seq<WorkerEvent>, index: nat, deadline: nat) {
    exists f: nat, c: nat :: EndedWell(log, f, c, index, deadline)
  }

  /** A command in progress was forked for its index. */
  lemma {:induction false} ForkedBefore(log: seq<WorkerEvent>, j: nat, deadline: nat) returns (f: nat)
    requires Watched(log, deadline).Some? && j <= |log|
    requires var p := At(log, j, deadline); p.Running? || p.Alive? || p.Looked? || p.Ended? || p.Vanished? || p.Expired? || p.Struck? || p.Dying?
    ensures f < j && log[f] == Forked(At(log, j, deadline).done, At(log, j, deadline).pid)
    decreases j
  {
    hide Watched;
    AtStart(log, deadline);
    Next(log, j - 1, deadline);
    if At(log, j - 1, deadline).Between? {
      f := j - 1;
    } else {
      f := ForkedBefore(log, j - 1, deadline);
    }
  }

  lemma AtStart(log: seq<WorkerEvent>, deadline: nat)
    requires Watched(log, deadline).Some?
    ensures At(log, 0, deadline) == Between(0)
  {
    assert log[..0] == [];
  }

  /** Every command counted as done ended well. */
  lemma {:induction false} DoneEndedWell(log: seq<WorkerEvent>, j: nat, index: nat, deadline: nat) returns (f: nat, c: nat)
    requires Watched(log, deadline).Some? && j <= |log| && index < At(log, j, deadline).done
    ensures EndedWell(log, f, c, index, deadline) && c + 1 < j
    decreases j
  {
    hide Watched;
    AtStart(log, deadline);
    Next(log, j - 1, deadline);
    if index < At(log, j - 1, deadline).done {
      f, c := DoneEndedWell(log, j - 1, index, deadline);
    } else {
      f := ForkedBefore(log, j - 1, deadline);
      AtStart(log, deadline);
      Next(log, j - 2, deadline);
      c := j - 2;
    }
  }

  /** A command is forked only after every earlier one was collected and ended well before the deadline. */
  lemma ForkedInOrder(log: seq<WorkerEvent>, j: nat, index: nat, deadline: nat) returns (f: nat, c: nat)
    requires Watched(log, deadline).Some? && j < |log| && log[j].Forked? && index < log[j].index
    ensures EndedWell(log, f, c, index, deadline) && c + 1 < j
  {
    hide Watched;
    Next(log, j, deadline);
    f, c := DoneEndedWell(log, j, index, deadline);
  }

  /** A command that ended well is counted. */
  lemma EndedWellIsDone(log: seq<WorkerEvent>, f: nat, c: nat, index: nat, deadline: nat)
    requires Watched(log, deadline).Some? && EndedWell(log, f, c, index, deadline)
    ensures index < At(log, |log|, deadline).done
  {
    hide Watched;
    Next(log, f, deadline);
    Next(log, c, deadline);
    Next(log, c + 1, deadline);
    DoneGrows(log, f, c, deadline);
    DoneGrows(log, c + 2, |log|, deadline);
  }

  /** The worker's verdict is OK exactly when every command ended well. */
  lemma OkExactly(log: seq<WorkerEvent>, ncommands: nat, result: nat, deadline: nat)
    requires Watched(log, deadline).Some?
    requires var p := Watched(log, deadline).value;
      if result == WORKER_OK then p == Between(ncommands) else p.Finished? && p.result == result && p.done < ncommands
    ensures result == WORKER_OK <==> forall i :: 0 <= i < ncommands ==> Succeeded(log, i, deadline)
  {
    hide Watched, EndedWell;
    AtEnd(log, deadline);
    var p := Watched(log, deadline).value;
    if result == WORKER_OK {
      forall i | 0 <= i < ncommands
        ensures Succeeded(log, i, deadline)
      {
        var f, c := DoneEndedWell(log, |log|, i, deadline);
      }
    } else if Succeeded(log, p.done, deadline) {
      var f: nat, c: nat :| EndedWell(log, f, c, p.done, deadline);
      EndedWellIsDone(log, f, c, p.done, deadline);
    }
  }

  /** Nothing is forked after the first command that did not end well: its verdict is the last event. */
  lemma NothingAfterFailure(log: seq<WorkerEvent>, j: nat, deadline: nat)
    requires Watched(log, deadline).Some? && j <= |log| && At(log, j, deadline).Finished?
    ensures j == |log|
  {
    hide Watched;
    if j < |log| {
      Next(log, j, deadline);
    }
  }

  /** At the deadline a status that came with it does not count. */
  lemma DeadlinePrevails(log: seq<WorkerEvent>, j: nat, deadline: nat)
    requires Watched(log, deadline).Some? && j + 1 < |log|
    requires log[j].Collected? && log[j + 1].Clock? && log[j + 1].now >= deadline
    ensures j + 2 == |log| && Watched(log, deadline) == Some(Finished(At(log, j, deadline).done, WORKER_DEADLINE))
  {
    hide Watched;
    Next(log, j, deadline);
    Next(log, j + 1, deadline);
    NothingAfterFailure(log, j + 2, deadline);
    AtEnd(log, deadline);
  }

  /** The deadline has been read, by a command that is done for or by the last verdict. */
  predicate PastDeadline(p: Progress) {
    p.Expired? || p.Struck? || p.Dying? || (p.Finished? && p.result == WORKER_DEADLINE)
  }

  /** The verdict names the deadline exactly when the worker read a time at or past it; otherwise it is OK or a failure. */
  lemma {:induction false} DeadlineExactly(log: seq<WorkerEvent>, deadline: nat)
    requires Watched(log, deadline).Some?
    ensures PastDeadline(Watched(log, deadline).value) <==>
      exists j :: 0 <= j < |log| && log[j].Clock? && log[j].now >= deadline
    ensures var p := Watched(log, deadline).value; p.Finished? ==> p.result == WORKER_DEADLINE || p.result == WORKER_FAILED
    decreases |log|
  {
    hide Watched;
    AtEnd(log, deadline);
    AtStart(log, deadline);
    if log != [] {
      var n := |log| - 1;
      var front := log[..n];
      WatchedPrefix(log, n, deadline);
      Next(log, n, deadline);
      DeadlineExactly(front, deadline);
      if exists j :: 0 <= j < n && front[j].Clock? && front[j].now >= deadline {
        var j :| 0 <= j < n && front[j].Clock? && front[j].now >= deadline;
        assert log[j] == front[j];
      }
      if exists j :: 0 <= j < |log| && log[j].Clock? && log[j].now >= deadline {
        var j :| 0 <= j < |log| && log[j].Clock? && log[j].now >= deadline;
        assert j < n ==> log[j] == front[j];
      }
    }
  }

  /**
   Signals of the worker: 9 and no other, only to a command in progress, and only once the deadline
   was read; first to its process group and right after that to itself.
   */
  lemma KillsAtTheDeadline(log: seq<WorkerEvent>, j: nat, deadline: nat) returns (f: nat)
    requires Watched(log, deadline).Some? && j < |log| && log[j].Killed?
    ensures log[j].sig == 9 && f < j && log[f].Forked?
    ensures exists c :: 0 <= c < j && log[c].Clock? && log[c].now >= deadline
    ensures log[j].target < 0 ==> log[j].target == 0 - log[f].pid && (j + 1 < |log| ==> log[j + 1] == Killed(log[f].pid, 9))
    ensures log[j].target >= 0 ==> log[j].target == log[f].pid && log[j - 1] == Killed(0 - log[f].pid, 9)
  {
    hide Watched;
    Next(log, j, deadline);
    f := ForkedBefore(log, j, deadline);
    WatchedPrefix(log, j, deadline);
    DeadlineExactly(log[..j], deadline);
    var c :| 0 <= c < |log[..j]| && log[..j][c].Clock? && log[..j][c].now >= deadline;
    assert log[c] == log[..j][c];
    if At(log, j, deadline).Struck? {
      AtStart(log, deadline);
      Next(log, j - 1, deadline);
    }
    if j + 1 < |log| {
      Next(log, j + 1, deadline);
    }
    Next(log, f, deadline);
  }

  /**
   The worker neither spins nor waits blindly: it asks for the command's status, then reads the clock, and
   a wait follows these two and nothing else, for exactly what is left until the deadline.
   */
  lemma WaitsForTheRest(log: seq<WorkerEvent>, j: nat, deadline: nat)
    requires Watched(log, deadline).Some? && 1 < j < |log|
    ensures log[j].Waits? <==> log[j - 2].Asked? && log[j - 1].Clock? && log[j - 1].now < deadline
    ensures log[j].Waits? ==> log[j - 1].now + log[j].timeout == deadline && (log[j].unreaped ==> log[j].armed)
  {
    hide Watched;
    Next(log, j - 2, deadline);
    Next(log, j - 1, deadline);
    Next(log, j, deadline);
  }

  /** A forked command is in progress until its status, or word that it has none, was received. */
  lemma {:induction false} InProgress(log: seq<WorkerEvent>, f: nat, j: nat, deadline: nat)
    requires Watched(log, deadline).Some? && f < j <= |log| && log[f].Forked?
    ensures
      || (exists c :: f < c < j && (log[c].Collected? || log[c].Gone?) && log[c].pid == log[f].pid)
      || (var p := At(log, j, deadline); (p.Running? || p.Alive? || p.Looked? || p.Expired? || p.Struck? || p.Dying?) && p.pid == log[f].pid)
    decreases j
  {
    hide Watched;
    Next(log, j - 1, deadline);
    if f < j - 1 {
      InProgress(log, f, j - 1, deadline);
    }
  }

  /** When the worker is between commands or has its verdict, every command it forked was collected. */
  lemma AllCollected(log: seq<WorkerEvent>, f: nat, deadline: nat)
    requires Watched(log, deadline).Some? && f < |log| && log[f].Forked?
    requires Watched(log, deadline).value.Between? || Watched(log, deadline).value.Finished?
    ensures exists c :: f < c < |log| && (log[c].Collected? || log[c].Gone?) && log[c].pid == log[f].pid
  {
    hide Watched;
    AtEnd(log, deadline);
    InProgress(log, f, |log|, deadline);
  }
}
