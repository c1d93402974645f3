/** What holds of the instants of an accepted run: graces, bounds and backstops are waited out in full. */
module Deadlines {
  import opened Base
  import opened Messages
  import opened Protocol
  import opened Recognizer
  import opened LineReader
  import opened Runs
  import opened Traffic
  import opened Workers

  // ------------------------------------------------------------------ what the request asks for

  /** The grace it leaves between SIGTERM and SIGKILL; a sweep leaves none. */
  function GraceAsked(run: seq<Event>): nat {
    var c := Current(run);
    if c.Some? && c.value.kind == End then c.value.graceMs else 0
  }

  /** How long it leaves its worker alone. */
  function BackstopAsked(run: seq<Event>): nat {
    var c := Current(run);
    if c.Some? && c.value.kind == Sweep then 240000
    else if c.Some? && c.value.kind == Cleanup then c.value.timeoutMs + 5000
    else 0
  }

  lemma GraceIsAsked(run: seq<Event>)
    requires Accepted(run) && Replay(run).value.pass.ending
    ensures GraceOf(Replay(run).value) == GraceAsked(run)
  {
    hide Step, Replay, Parse, Current;
    EndingIsServed(run);
    CurrentIsServed(run);
  }

  lemma BackstopIsAsked(run: seq<Event>)
    requires Accepted(run) && (Serves(Replay(run).value, Sweep) || Serves(Replay(run).value, Cleanup))
    ensures BackstopOf(Replay(run).value) == BackstopAsked(run)
  {
    hide Step, Replay, Parse, Current;
    CurrentIsServed(run);
  }

  // ------------------------------------------------------------------ the grace and the end bound

  /** The end pass in progress at i began with the SIGTERM at t. */
  ghost predicate EndPassSince(run: seq<Event>, t: nat, i: nat)
    requires i <= |run|
  {
    && t < i && IsTermAll(run[t])
    && forall m :: t < m < i ==> !IsTermAll(run[m]) && !run[m].Took? && !(run[m].Sent? && run[m].msg.Reply?)
  }

  lemma StepTerm(l: Ledger, e: Event)
    requires Step(l, e).Some? && EndingServed(l) && Step(l, e).value.pass.ending
    ensures var after := Step(l, e).value;
      if IsTermAll(e) then after.pass.termAt == e.at && !after.pass.struck && !after.pass.scanned
      else l.pass.ending && after.pass.termAt == l.pass.termAt && !e.Took? && !(e.Sent? && e.msg.Reply?)
  {
    hide Take, AnswerOk, Acceptable, MayFork;
    if e.Took? {
      TakeShape(l, e.line);
    }
  }

  lemma {:induction false} TermSource(run: seq<Event>, i: nat) returns (t: nat)
    requires Accepted(run) && i <= |run| && At(run, i).pass.ending
    ensures EndPassSince(run, t, i) && run[t].at == At(run, i).pass.termAt
  {
    hide Step, Replay;
    if i == 0 {
      assert run[..0] == [];
      StartEmpty();
    } else {
      AtStep(run, i - 1);
      ReplayPrefix(run, i - 1);
      EndingIsServed(run[..i - 1]);
      StepTerm(At(run, i - 1), run[i - 1]);
      if IsTermAll(run[i - 1]) {
        t := i - 1;
      } else {
        t := TermSource(run, i - 1);
      }
    }
  }

  lemma KillAllWhen(l: Ledger, e: Event)
    requires Step(l, e).Some? && IsKillAll(e)
    ensures l.pass.ending && !l.pass.late && e.at >= l.pass.termAt + GraceOf(l)
  {
  }

  lemma StepSignal(l: Ledger, e: Event)
    requires Step(l, e).Some? && e.SignaledAll?
    ensures if e.sig == 15 then !l.pass.ending else e.sig == 9 && l.pass.ending
  {
  }

  /**
   Signals to all are 15 and 9 and no other: 15 opens an end pass and is not sent again in it, and
   every 9 belongs to an end pass that was opened with a 15, all signals to all since then being 9.
   */
  lemma SignalsOfAnEndPass(run: seq<Event>, i: nat) returns (t: nat)
    requires Accepted(run) && i < |run| && run[i].SignaledAll?
    ensures run[i].sig == 15 || run[i].sig == 9
    ensures run[i].sig == 15 ==> !InEndPass(run[..i])
    ensures run[i].sig == 9 ==>
      && EndPassSince(run, t, i) && run[t].sig == 15 && !InEndPass(run[..t])
      && forall m :: t < m <= i && run[m].SignaledAll? ==> run[m].sig == 9
  {
    hide Step, Replay, InEndPass;
    AtStep(run, i);
    ReplayPrefix(run, i);
    StepSignal(At(run, i), run[i]);
    EndingIsInEndPass(run[..i]);
    t := i;
    if run[i].sig == 9 {
      t := TermSource(run, i);
      AtStep(run, t);
      ReplayPrefix(run, t);
      StepSignal(At(run, t), run[t]);
      EndingIsInEndPass(run[..t]);
      forall m | t < m <= i && run[m].SignaledAll?
        ensures run[m].sig == 9
      {
        AtStep(run, m);
        StepSignal(At(run, m), run[m]);
      }
    }
  }

  /** SIGKILL goes to all only when the whole grace has passed since the SIGTERM of the same end pass. */
  lemma GraceIsHonoured(run: seq<Event>, i: nat) returns (t: nat)
    requires Accepted(run) && i < |run| && IsKillAll(run[i])
    ensures EndPassSince(run, t, i) && run[i].at >= run[t].at + GraceAsked(run[..i])
  {
    hide Step, Replay, GraceOf, GraceAsked;
    AtStep(run, i);
    KillAllWhen(At(run, i), run[i]);
    t := TermSource(run, i);
    ReplayPrefix(run, i);
    GraceIsAsked(run[..i]);
  }

  predicate IsTableScan(e: Event) {
    e.Counted? || e.CountFailed?
  }

  lemma StepStruck(l: Ledger, e: Event)
    requires Step(l, e).Some? && EndingServed(l)
    ensures var after := Step(l, e).value;
      && (after.pass.ending && after.pass.struck ==> IsKillAll(e) || (l.pass.ending && l.pass.struck && !IsTableScan(e)))
      && (IsTableScan(e) ==> l.pass.ending && l.pass.struck)
  {
    hide Take, AnswerOk, Acceptable, MayFork;
    if e.Took? {
      TakeShape(l, e.line);
    }
  }

  lemma {:induction false} StruckSource(run: seq<Event>, i: nat) returns (k: nat)
    requires Accepted(run) && i <= |run| && At(run, i).pass.ending && At(run, i).pass.struck
    ensures k < i && IsKillAll(run[k]) && forall m :: k < m < i ==> !IsTableScan(run[m])
  {
    hide Step, Replay;
    if i == 0 {
      assert run[..0] == [];
      StartEmpty();
    } else {
      AtStep(run, i - 1);
      ReplayPrefix(run, i - 1);
      EndingIsServed(run[..i - 1]);
      StepStruck(At(run, i - 1), run[i - 1]);
      if IsKillAll(run[i - 1]) {
        k := i - 1;
      } else {
        k := StruckSource(run, i - 1);
      }
    }
  }

  lemma StepDrained(l: Ledger, e: Event)
    requires Step(l, e).Some?
    ensures Step(l, e).value.drained ==> e.Drained? || (l.drained && !IsKillAll(e))
    ensures IsTableScan(e) ==> l.drained
  {
    hide Take, AnswerOk, Acceptable, MayFork, GraceOf;
    if e.Took? {
      TakeShape(l, e.line);
    }
  }

  /** A drained ledger has seen wait4 run dry after every SIGKILL to all so far. */
  lemma {:induction false} DrainSource(run: seq<Event>, i: nat, k: nat) returns (d: nat)
    requires Accepted(run) && k < i <= |run| && IsKillAll(run[k]) && At(run, i).drained
    ensures k < d < i && run[d].Drained?
    decreases i
  {
    hide Step, Replay;
    AtStep(run, i - 1);
    StepDrained(At(run, i - 1), run[i - 1]);
    if run[i - 1].Drained? {
      d := i - 1;
    } else {
      d := DrainSource(run, i - 1, k);
    }
  }

  /**
   Every scan of the process table has its own SIGKILL to all before it, sent after the grace, and
   between the two the reap loop went on until no status was left to collect.
   */
  lemma ScansFollowKills(run: seq<Event>, i: nat) returns (t: nat, k: nat, d: nat)
    requires Accepted(run) && i < |run| && IsTableScan(run[i])
    ensures k < i && IsKillAll(run[k]) && forall m :: k < m < i ==> !IsTableScan(run[m])
    ensures EndPassSince(run, t, k) && run[k].at >= run[t].at + GraceAsked(run[..k])
    ensures k < d < i && run[d].Drained?
  {
    hide Step, Replay, GraceAsked;
    AtStep(run, i);
    ReplayPrefix(run, i);
    EndingIsServed(run[..i]);
    StepStruck(At(run, i), run[i]);
    StepDrained(At(run, i), run[i]);
    k := StruckSource(run, i);
    d := DrainSource(run, i, k);
    t := GraceIsHonoured(run, k);
  }

  /** The first SIGKILL to all of the end pass that began at t. */
  ghost predicate FirstKill(run: seq<Event>, t: nat, k: nat)
    requires k < |run|
  {
    t < k && IsKillAll(run[k]) && forall m :: t < m < k ==> !IsKillAll(run[m])
  }

  lemma StepBound(l: Ledger, e: Event)
    requires Step(l, e).Some? && EndingServed(l) && Step(l, e).value.pass.ending
    ensures var p, q := l.pass, Step(l, e).value.pass;
      && (IsTermAll(e) ==> q.firstAt.None?)
      && (!IsTermAll(e) ==>
            && (p.late ==> q.late) && (p.firstAt.Some? ==> q.firstAt == p.firstAt)
            && (!IsKillAll(e) ==> q.firstAt == p.firstAt))
      && (IsKillAll(e) ==> !p.late && q.firstAt.Some? && (p.firstAt.None? ==> q.firstAt == Some(e.at)))
      && (e.PidsRead? && Overdue(p, e.at) ==> q.late)
  {
    hide Take, AnswerOk, Acceptable, MayFork, GraceOf;
    if e.Took? {
      TakeShape(l, e.line);
    }
  }

  lemma StillEnding(run: seq<Event>, t: nat, j: nat, i: nat)
    requires Accepted(run) && i <= |run| && t < j <= i && At(run, i).pass.ending && EndPassSince(run, t, i)
    ensures At(run, j).pass.ending
  {
    hide Step, Replay;
    ReplayPrefix(run, j);
    EndingIsInEndPass(run[..j]);
    PassContinues(run, t, j);
  }

  lemma {:induction false} PassContinues(run: seq<Event>, t: nat, j: nat)
    requires t < j <= |run| && IsTermAll(run[t])
    requires forall m :: t < m < j ==> !IsTermAll(run[m]) && !run[m].Took? && !(run[m].Sent? && run[m].msg.Reply?)
    ensures InEndPass(run[..j])
    decreases j
  {
    assert run[..j][..j - 1] == run[..j - 1];
    if t < j - 1 {
      PassContinues(run, t, j - 1);
    }
  }

  lemma {:induction false} BoundStarts(run: seq<Event>, t: nat, k: nat, j: nat)
    requires Accepted(run) && j <= |run| && EndPassSince(run, t, j) && At(run, j).pass.ending
    requires k < |run| && FirstKill(run, t, k)
    ensures At(run, j).pass.firstAt == if j <= k then None else Some(run[k].at)
    decreases j
  {
    hide Step, Replay;
    AtStep(run, j - 1);
    ReplayPrefix(run, j - 1);
    EndingIsServed(run[..j - 1]);
    StepBound(At(run, j - 1), run[j - 1]);
    if t < j - 1 {
      StillEnding(run, t, j - 1, j);
      BoundStarts(run, t, k, j - 1);
    }
  }

  lemma {:induction false} LateStays(run: seq<Event>, t: nat, m: nat, j: nat)
    requires Accepted(run) && j <= |run| && EndPassSince(run, t, j) && At(run, j).pass.ending
    requires t < m <= j && At(run, m).pass.late
    ensures At(run, j).pass.late
    decreases j
  {
    hide Step, Replay;
    if m < j {
      AtStep(run, j - 1);
      ReplayPrefix(run, j - 1);
      EndingIsServed(run[..j - 1]);
      StepBound(At(run, j - 1), run[j - 1]);
      StillEnding(run, t, j - 1, j);
      LateStays(run, t, m, j - 1);
    }
  }

  /** No further SIGKILL is sent to all once a pass was checked after the bound that the first one started. */
  lemma BoundIsKept(run: seq<Event>, t: nat, k: nat, m: nat, i: nat)
    requires Accepted(run) && i < |run| && IsKillAll(run[i]) && EndPassSince(run, t, i)
    requires k < m < i && FirstKill(run, t, k) && run[m].PidsRead?
    ensures run[m].at < run[k].at + 5000
  {
    hide Step, Replay;
    AtStep(run, i);
    KillAllWhen(At(run, i), run[i]);
    StillEnding(run, t, m, i);
    StillEnding(run, t, m + 1, i);
    BoundStarts(run, t, k, m);
    AtStep(run, m);
    ReplayPrefix(run, m);
    EndingIsServed(run[..m]);
    StepBound(At(run, m), run[m]);
    if Overdue(At(run, m).pass, run[m].at) {
      LateStays(run, t, m + 1, i);
    }
  }

  predicate LastFailed(scans: seq<Event>) {
    scans != [] && scans[|scans| - 1].CountFailed?
  }

  ghost predicate FailureKnown(l: Ledger, scans: seq<Event>) {
    l.pass.ending ==> l.pass.unread == LastFailed(scans) && l.pass.scanned == (scans != [])
  }

  lemma ForkKeepsPass(l: Ledger, pid: nat, role: Role, at: nat)
    requires Fork(l, pid, role, at).Some?
    ensures Fork(l, pid, role, at).value.pass == l.pass
  {
    hide MayFork;
  }

  lemma CollectKeepsPass(l: Ledger, pid: nat, status: nat)
    requires Collect(l, pid, status).Some?
    ensures Collect(l, pid, status).value.pass == l.pass
  {
    hide MidLaunch;
  }

  lemma SendEndsPass(l: Ledger, msg: Message, at: nat)
    requires Send(l, msg, at).Some?
    ensures Send(l, msg, at).value.pass == if msg.Reply? then l.pass.(ending := false) else l.pass
  {
    hide AnswerOk;
  }

  lemma StepUnread(l: Ledger, e: Event)
    requires Step(l, e).Some? && Step(l, e).value.pass.ending
    ensures var p, q := l.pass, Step(l, e).value.pass;
      if IsTermAll(e) then !q.unread && !q.scanned
      else
        && p.ending
        && q.unread == (if IsTableScan(e) then e.CountFailed? else p.unread)
        && q.scanned == (p.scanned || IsTableScan(e))
        && (e.PidsRead? ==> p.scanned && !p.unread)
  {
    hide Take, Fork, Collect, Send, Acceptable, MayFork, GraceOf, BackstopOf, Serves, TooLong, HasLine, MidLaunch;
    match e
    case Took(line) => TakeShape(l, line);
    case Forked(pid, role, at) => ForkKeepsPass(l, pid, role, at);
    case Collected(pid, status) => CollectKeepsPass(l, pid, status);
    case Sent(msg, at) => SendEndsPass(l, msg, at);
    case _ =>
  }

  lemma StepFailure(l: Ledger, e: Event, scans: seq<Event>)
    requires Step(l, e).Some? && EndingServed(l) && FailureKnown(l, scans)
    ensures FailureKnown(Step(l, e).value, if IsTermAll(e) then [] else if IsScan(e) then scans + [e] else scans)
  {
    hide Step;
    if Step(l, e).value.pass.ending {
      StepUnread(l, e);
    }
  }

  lemma {:induction false} FailureIsKnown(run: seq<Event>)
    requires Accepted(run)
    ensures FailureKnown(Replay(run).value, Scans(run))
  {
    hide Step;
    if run != [] {
      AtFront(run);
      FailureIsKnown(run[..|run| - 1]);
      EndingIsServed(run[..|run| - 1]);
      StepFailure(Replay(run[..|run| - 1]).value, run[|run| - 1], Scans(run[..|run| - 1]));
    }
  }

  /**
   The result of the end pass in progress at i, reported then: no error exactly for two clean
   passes in a row, a read error exactly when the latest scan failed, and the deadline only
   after some scan and the whole bound beyond the grace.
   */
  ghost predicate EndResult(run: seq<Event>, i: nat, t: nat, err: Error)
    requires i < |run| && run[i].Sent?
  {
    && EndPassSince(run, t, i)
    && err in {NoError, ProcRead, EndDeadline}
    && (err == NoError <==> CleanCount(Scans(run[..i])) >= 2)
    && (err == ProcRead <==> LastFailed(Scans(run[..i])))
    && (err == EndDeadline ==>
          Scans(run[..i]) != [] && run[i].at >= run[t].at + GraceAsked(run[..i]) + 5000)
  }

  lemma EndResultAt(run: seq<Event>, i: nat, err: Error) returns (t: nat)
    requires Accepted(run) && i < |run| && run[i].Sent? && At(run, i).pass.ending
    requires EndErrorOk(At(run, i), err, run[i].at)
    ensures EndResult(run, i, t, err)
  {
    hide Step, Replay, GraceAsked, GraceOf, Attested;
    t := TermSource(run, i);
    EndFacts(run, i);
    ReplayPrefix(run, i);
    FailureIsKnown(run[..i]);
    GraceIsAsked(run[..i]);
  }

  lemma EndReplied(l: Ledger, e: Event)
    requires Step(l, e).Some? && IsReply(e, End)
    ensures if Serves(l, End) then l.pass.ending && EndErrorOk(l, e.msg.err, e.at)
            else e.msg.err in {GenMismatch, MalformedRequest}
  {
    hide Attested, GraceOf, EndErrorOk;
  }

  /** An end of the current generation is answered with the result of its end pass. */
  lemma EndRepliesTell(run: seq<Event>, i: nat) returns (t: nat)
    requires Accepted(run) && i < |run| && IsReply(run[i], End)
    ensures run[i].msg.err in {GenMismatch, MalformedRequest} || EndResult(run, i, t, run[i].msg.err)
  {
    hide Step, Replay, EndErrorOk, EndResult;
    AtStep(run, i);
    EndReplied(At(run, i), run[i]);
    t := 0;
    if Serves(At(run, i), End) {
      t := EndResultAt(run, i, run[i].msg.err);
    }
  }

  // ------------------------------------------------------------------ the backstop

  /** A worker that was not sent SIGKILL is that of the request being served. */
  ghost predicate WorkerServed(l: Ledger) {
    && (l.job.worker.Some? && !l.job.killed && !l.doomed ==> Serves(l, Sweep) || Serves(l, Cleanup))
    && (l.cur.Some? && l.job.spawned ==> Serves(l, Sweep) || Serves(l, Cleanup))
    && (l.job.worker.Some? || l.job.killed ==> l.job.spawned)
  }

  lemma SendServed(l: Ledger, msg: Message, at: nat)
    requires Send(l, msg, at).Some? && WorkerServed(l) && StatusOfSpawned(l)
    ensures WorkerServed(Send(l, msg, at).value)
  {
    hide Attested, GraceOf, EndErrorOk, LaunchErrorOk;
  }

  lemma TakeServed(l: Ledger, line: seq<byte>)
    requires Take(l, line).Some? && WorkerServed(l)
    ensures WorkerServed(Take(l, line).value)
  {
    hide Take, Serves;
    TakeShape(l, line);
    ServesSame(l, Take(l, line).value);
  }

  lemma ServesSame(a: Ledger, b: Ledger)
    ensures a.cur == b.cur && a.gen == b.gen ==> forall kind :: Serves(a, kind) == Serves(b, kind)
  {
  }

  lemma ForkServed(l: Ledger, pid: nat, role: Role, at: nat)
    requires Fork(l, pid, role, at).Some? && WorkerServed(l) && StatusOfSpawned(l)
    ensures WorkerServed(Fork(l, pid, role, at).value)
  {
  }

  lemma StepServed(l: Ledger, e: Event)
    requires Step(l, e).Some? && WorkerServed(l) && StatusOfSpawned(l)
    ensures WorkerServed(Step(l, e).value)
  {
    hide Take, Fork, Send, Attested, GraceOf, BackstopOf;
    match e
    case Sent(msg, at) => SendServed(l, msg, at);
    case Took(line) => TakeServed(l, line);
    case Forked(pid, role, at) => ForkServed(l, pid, role, at);
    case _ =>
  }

  lemma {:induction false} WorkerIsServed(run: seq<Event>)
    requires Accepted(run)
    ensures WorkerServed(Replay(run).value)
  {
    hide Step;
    if run != [] {
      AtFront(run);
      WorkerIsServed(run[..|run| - 1]);
      StatusIsOfSpawned(run[..|run| - 1]);
      StepServed(Replay(run[..|run| - 1]).value, run[|run| - 1]);
    }
  }

  lemma StepJob(l: Ledger, e: Event)
    requires Step(l, e).Some?
    ensures var job := Step(l, e).value.job;
      match e
      case Took(_) => Step(l, e).value.doomed || job == NO_JOB
      case Forked(pid, role, at) =>
        if role.Worker? then !l.job.spawned && job == l.job.(worker := Some(pid), spawned := true, forkAt := at)
        else job == l.job
      case Killed(pid, sig, at) =>
        && sig == 9 && l.job.worker == Some(pid) && !l.job.killed && job == l.job.(killed := true)
        && !l.doomed && at >= l.job.forkAt + BackstopOf(l)
      case Refused(role) => MayFork(l, role) && job == l.job.(refused := true)
      case Execed(ok) => MidLaunch(l) && job == l.job.(exec := Some(ok))
      case Collected(_, _) => job == l.job.(worker := job.worker, got := job.got)
      case _ => job == l.job
  {
    hide Take, AnswerOk, Acceptable, BackstopOf, MidLaunch;
    if e.Took? {
      TakeShape(l, e.line);
    }
    match e
    case Sent(_, _) =>
    case Took(_) =>
    case _ =>
  }

  ghost predicate NoTookIn(run: seq<Event>, a: nat, b: nat)
    requires b <= |run|
  {
    forall m :: a < m < b ==> !run[m].Took?
  }

  /** The worker of the request being served was forked at f; while no status was collected it is the ledger's. */
  lemma {:induction false} SpawnSource(run: seq<Event>, i: nat) returns (f: nat)
    requires Accepted(run) && i <= |run| && At(run, i).job.spawned && !At(run, i).doomed
    ensures f < i && run[f].Forked? && run[f].role.Worker? && run[f].at == At(run, i).job.forkAt
    ensures NoTookIn(run, f, i)
    ensures At(run, i).job.worker.Some? ==> Unreaped(run, f, i) && run[f].pid == At(run, i).job.worker.value
    decreases i
  {
    hide Step, Replay;
    if i == 0 {
      assert run[..0] == [];
      StartEmpty();
    } else {
      AtStep(run, i - 1);
      ReplayPrefix(run, i - 1);
      WorkerIsDistinct(run[..i - 1]);
      StepWorker(At(run, i - 1), run[i - 1]);
      StepJob(At(run, i - 1), run[i - 1]);
      NotDoomed(At(run, i - 1), run[i - 1]);
      if run[i - 1].Forked? && run[i - 1].role.Worker? {
        f := i - 1;
      } else {
        f := SpawnSource(run, i - 1);
      }
    }
  }

  /** A worker forked at f was sent SIGKILL at k, no sooner than its backstop after the fork. */
  ghost predicate KilledLate(run: seq<Event>, f: nat, k: nat)
    requires k < |run|
  {
    && Unreaped(run, f, k) && run[k].Killed? && run[k].sig == 9 && run[k].pid == run[f].pid
    && run[k].at >= run[f].at + BackstopAsked(run[..k])
  }

  /** The backstop SIGKILL goes only to the current request's worker, still uncollected and past its backstop. */
  lemma BackstopIsHonoured(run: seq<Event>, i: nat) returns (f: nat)
    requires Accepted(run) && i < |run| && run[i].Killed?
    ensures KilledLate(run, f, i) && run[f].at == At(run, i).job.forkAt
  {
    hide Step, Replay, BackstopAsked, BackstopOf;
    AtStep(run, i);
    StepJob(At(run, i), run[i]);
    ReplayPrefix(run, i);
    WorkerIsServed(run[..i]);
    BackstopIsAsked(run[..i]);
    f := SpawnSource(run, i);
  }

  lemma {:induction false} KillSource(run: seq<Event>, i: nat) returns (f: nat, k: nat)
    requires Accepted(run) && i <= |run| && At(run, i).job.killed && !At(run, i).doomed
    ensures k < i && KilledLate(run, f, k) && run[f].at == At(run, i).job.forkAt && NoTookIn(run, k, i)
    decreases i
  {
    hide Step, Replay, KilledLate;
    if i == 0 {
      assert run[..0] == [];
      StartEmpty();
    } else {
      AtStep(run, i - 1);
      StepJob(At(run, i - 1), run[i - 1]);
      NotDoomed(At(run, i - 1), run[i - 1]);
      if run[i - 1].Killed? {
        k := i - 1;
        f := BackstopIsHonoured(run, k);
      } else {
        ReplayPrefix(run, i - 1);
        WorkerIsServed(run[..i - 1]);
        f, k := KillSource(run, i - 1);
      }
    }
  }
}
