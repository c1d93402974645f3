/** What holds of the sweep and cleanup workers of an accepted run, and of the replies that report them. */
module Workers {
  import opened Base
  import opened Messages
  import opened WaitStatus
  import opened Protocol
  import opened Recognizer
  import opened LineReader
  import opened Runs

  /** A worker forked at f for the request still being served at i, with no status collected since. */
  ghost predicate Unreaped(run: seq<Event>, f: nat, i: nat)
    requires i <= |run|
  {
    && f < i && run[f].Forked? && run[f].role.Worker?
    && forall m :: f < m < i ==> !run[m].Took? && !(run[m].Collected? && run[m].pid == run[f].pid)
  }

  /** The first status collected for the worker forked at f came at c, before any end pass; the request is served at i. */
  ghost predicate Finished(run: seq<Event>, f: nat, c: nat, i: nat)
    requires i <= |run|
  {
    && c < i && Unreaped(run, f, c) && run[c].Collected? && run[c].pid == run[f].pid
    && !InEndPass(run[..c])
    && forall m :: c < m < i ==> !run[m].Took?
  }

  /** A worker is not the launched process, and no launch is served beside it. */
  ghost predicate WorkerDistinct(l: Ledger) {
    l.job.worker.Some? ==>
      && (l.runtime.Some? ==> l.runtime.value.pid != l.job.worker.value)
      && (l.cur.Some? && l.cur.value.Ok? ==> l.cur.value.req.kind != Launch)
  }

  lemma TakeDistinct(l: Ledger, line: seq<byte>)
    requires Take(l, line).Some? && WorkerDistinct(l)
    ensures WorkerDistinct(Take(l, line).value)
  {
    hide Take;
    TakeShape(l, line);
  }

  lemma ForkDistinct(l: Ledger, pid: nat, role: Role, at: nat)
    requires Fork(l, pid, role, at).Some? && WorkerDistinct(l)
    ensures WorkerDistinct(Fork(l, pid, role, at).value)
  {
  }

  lemma SendDistinct(l: Ledger, msg: Message, at: nat)
    requires Send(l, msg, at).Some? && WorkerDistinct(l)
    ensures WorkerDistinct(Send(l, msg, at).value)
    ensures var after := Send(l, msg, at).value;
      after.job.worker == l.job.worker && after.job.got == l.job.got && after.job.spawned == l.job.spawned
  {
    hide AnswerOk;
  }

  lemma StepDistinct(l: Ledger, e: Event)
    requires Step(l, e).Some? && WorkerDistinct(l)
    ensures WorkerDistinct(Step(l, e).value)
  {
    hide Take, Fork, Send, Serves, HasLine;
    match e
    case Took(line) => TakeDistinct(l, line);
    case Forked(pid, role, at) => ForkDistinct(l, pid, role, at);
    case Sent(msg, at) => SendDistinct(l, msg, at);
    case _ =>
  }

  lemma {:induction false} WorkerIsDistinct(run: seq<Event>)
    requires Accepted(run)
    ensures WorkerDistinct(Replay(run).value)
  {
    hide Step;
    if run != [] {
      AtFront(run);
      WorkerIsDistinct(run[..|run| - 1]);
      StepDistinct(Replay(run[..|run| - 1]).value, run[|run| - 1]);
    }
  }

  lemma StepWorker(l: Ledger, e: Event)
    requires Step(l, e).Some? && WorkerDistinct(l)
    ensures var after := Step(l, e).value;
      if e.Forked? && e.role.Worker? then
        after.job.worker == Some(e.pid) && after.job.got == l.job.got && !l.job.spawned && !l.pass.ending
      else if e.Took? then after.doomed || (after.job.worker.None? && after.job.got.None?)
      else if e.Collected? && l.job.worker == Some(e.pid) then
        after.job.worker.None? && after.job.got == if l.pass.ending then l.job.got else Some(e.status)
      else after.job.worker == l.job.worker && after.job.got == l.job.got
  {
    hide Send, Serves, HasLine, Acceptable;
    if e.Sent? {
      SendDistinct(l, e.msg, e.at);
    }
  }

  lemma {:induction false} UnreapedIsWorker(run: seq<Event>, f: nat, i: nat)
    requires Accepted(run) && i <= |run| && Unreaped(run, f, i)
    ensures At(run, i).job.worker == Some(run[f].pid) && At(run, i).job.got.None?
    decreases i
  {
    hide Step, Replay;
    AtStep(run, i - 1);
    ReplayPrefix(run, i - 1);
    WorkerIsDistinct(run[..i - 1]);
    StepWorker(At(run, i - 1), run[i - 1]);
    StatusIsOfSpawned(run[..i - 1]);
    if i - 1 == f {
      NoStatusYet(run, f);
    } else {
      UnreapedIsWorker(run, f, i - 1);
    }
  }

  lemma {:induction false} WorkerIsUnreaped(run: seq<Event>, i: nat) returns (f: nat)
    requires Accepted(run) && i <= |run| && At(run, i).job.worker.Some? && !At(run, i).doomed
    ensures Unreaped(run, f, i) && run[f].pid == At(run, i).job.worker.value
    decreases i
  {
    hide Step, Replay;
    if i == 0 {
      assert run[..0] == [];
      StartEmpty();
    } else {
      AtStep(run, i - 1);
      ReplayPrefix(run, i - 1);
      WorkerIsDistinct(run[..i - 1]);
      StepWorker(At(run, i - 1), run[i - 1]);
      NotDoomed(At(run, i - 1), run[i - 1]);
      if run[i - 1].Forked? && run[i - 1].role.Worker? {
        f := i - 1;
      } else {
        f := WorkerIsUnreaped(run, i - 1);
      }
    }
  }

  lemma NotDoomed(l: Ledger, e: Event)
    requires Step(l, e).Some? && !Step(l, e).value.doomed
    ensures !l.doomed
  {
  }

  /** A status is held only for a worker that was forked. */
  ghost predicate StatusOfSpawned(l: Ledger) {
    (l.job.got.Some? || l.job.worker.Some? ==> l.job.spawned) && (l.job.worker.Some? ==> l.job.got.None?)
  }

  lemma StepSpawned(l: Ledger, e: Event)
    requires Step(l, e).Some? && StatusOfSpawned(l) && WorkerDistinct(l)
    ensures StatusOfSpawned(Step(l, e).value)
  {
    hide Take, Send, Serves, HasLine, Acceptable;
    if e.Sent? {
      SendDistinct(l, e.msg, e.at);
    } else if e.Took? {
      TakeSpawned(l, e.line);
    }
  }

  lemma TakeSpawned(l: Ledger, line: seq<byte>)
    requires Take(l, line).Some? && StatusOfSpawned(l)
    ensures StatusOfSpawned(Take(l, line).value)
  {
    hide HasLine, FirstLine, AfterLine, Parse;
  }

  lemma {:induction false} StatusIsOfSpawned(run: seq<Event>)
    requires Accepted(run)
    ensures StatusOfSpawned(Replay(run).value)
  {
    hide Step;
    if run != [] {
      AtFront(run);
      StatusIsOfSpawned(run[..|run| - 1]);
      WorkerIsDistinct(run[..|run| - 1]);
      StepSpawned(Replay(run[..|run| - 1]).value, run[|run| - 1]);
    }
  }

  lemma NoStatusYet(run: seq<Event>, f: nat)
    requires Accepted(run) && f < |run| && run[f].Forked? && run[f].role.Worker?
    ensures At(run, f).job.got.None?
  {
    hide Step, Replay;
    AtStep(run, f);
    ReplayPrefix(run, f);
    StatusIsOfSpawned(run[..f]);
    WorkerIsDistinct(run[..f]);
    StepWorker(At(run, f), run[f]);
  }

  /** The status an answer uses is the first one collected for the worker it forked, before any end pass. */
  lemma {:induction false} StatusIsTheFirst(run: seq<Event>, f: nat, c: nat, i: nat)
    requires Accepted(run) && i <= |run| && Finished(run, f, c, i)
    ensures At(run, i).job.got == Some(run[c].status) && At(run, i).job.worker.None?
    decreases i
  {
    hide Step, Replay;
    AtStep(run, i - 1);
    ReplayPrefix(run, i - 1);
    WorkerIsDistinct(run[..i - 1]);
    StepWorker(At(run, i - 1), run[i - 1]);
    if i - 1 == c {
      UnreapedIsWorker(run, f, c);
      EndingIsInEndPass(run[..c]);
    } else {
      StatusIsTheFirst(run, f, c, i - 1);
      StatusIsOfSpawned(run[..i - 1]);
    }
  }

  lemma {:induction false} StatusHasSource(run: seq<Event>, i: nat) returns (f: nat, c: nat)
    requires Accepted(run) && i <= |run| && At(run, i).job.got.Some? && !At(run, i).doomed
    ensures Finished(run, f, c, i) && At(run, i).job.got == Some(run[c].status)
    decreases i
  {
    hide Step, Replay;
    if i == 0 {
      assert run[..0] == [];
      StartEmpty();
    } else {
      AtStep(run, i - 1);
      ReplayPrefix(run, i - 1);
      WorkerIsDistinct(run[..i - 1]);
      StepWorker(At(run, i - 1), run[i - 1]);
      NotDoomed(At(run, i - 1), run[i - 1]);
      if At(run, i - 1).job.got.Some? {
        StatusIsOfSpawned(run[..i - 1]);
        f, c := StatusHasSource(run, i - 1);
      } else {
        c := i - 1;
        f := WorkerIsUnreaped(run, c);
        EndingIsInEndPass(run[..c]);
      }
    }
  }

  predicate IsReply(e: Event, kind: RequestType) {
    e.Sent? && e.msg.Reply? && e.msg.kind == kind
  }

  lemma SweepAnswer(l: Ledger, msg: Message, at: nat)
    requires Step(l, Sent(msg, at)).Some? && msg.Reply? && msg.kind == Sweep
    ensures !l.doomed
    ensures msg.err == NoError <==> Serves(l, Sweep) && SweepResult(l.job.got) == NoError && Attested(l)
    ensures msg.err == NoError ==> l.pass.ending
    ensures EndingServed(l) && l.pass.ending ==> Serves(l, Sweep)
  {
  }

  lemma EndAnswer(l: Ledger, msg: Message, at: nat)
    requires Step(l, Sent(msg, at)).Some? && msg.Reply? && msg.kind == End
    ensures !l.doomed
    ensures msg.err == NoError <==> Serves(l, End) && Attested(l)
    ensures msg.err == NoError ==> l.pass.ending
    ensures EndingServed(l) && l.pass.ending ==> Serves(l, End)
  {
  }

  /** The ledger's view of the end pass in progress is that of the events. */
  lemma EndFacts(run: seq<Event>, i: nat)
    requires Accepted(run) && i <= |run|
    ensures At(run, i).pass.ending == InEndPass(run[..i]) && EndingServed(At(run, i))
    ensures At(run, i).pass.ending ==> (Attested(At(run, i)) <==> CleanCount(Scans(run[..i])) >= 2)
  {
    hide Step, Replay;
    ReplayPrefix(run, i);
    EndingIsInEndPass(run[..i]);
    EndingIsServed(run[..i]);
    ScansAreKnown(run[..i]);
  }

  /**
   The reply to a sweep carries no error exactly when the first status collected for the worker
   it forked, before the end pass, is an exit with status 0 and the end pass ended with two
   clean passes in a row.
   */
  lemma SweptWithoutError(run: seq<Event>, i: nat)
    requires Accepted(run) && i < |run| && IsReply(run[i], Sweep)
    ensures run[i].msg.err == NoError <==>
      && (exists f: nat, c: nat :: Finished(run, f, c, i) && SweepResult(Some(run[c].status)) == NoError)
      && InEndPass(run[..i]) && CleanCount(Scans(run[..i])) >= 2
  {
    hide Step, Replay;
    AtStep(run, i);
    SweepAnswer(At(run, i), run[i].msg, run[i].at);
    EndFacts(run, i);
    if run[i].msg.err == NoError {
      var f, c := StatusHasSource(run, i);
    }
    if exists f: nat, c: nat :: Finished(run, f, c, i) && SweepResult(Some(run[c].status)) == NoError {
      var f: nat, c: nat :| Finished(run, f, c, i) && SweepResult(Some(run[c].status)) == NoError;
      StatusIsTheFirst(run, f, c, i);
    }
  }

  /** The reply to an end carries no error exactly when its end pass ended with two clean passes in a row. */
  lemma EndedWithoutError(run: seq<Event>, i: nat)
    requires Accepted(run) && i < |run| && IsReply(run[i], End)
    ensures run[i].msg.err == NoError <==> InEndPass(run[..i]) && CleanCount(Scans(run[..i])) >= 2
  {
    hide Step, Replay;
    AtStep(run, i);
    EndAnswer(At(run, i), run[i].msg, run[i].at);
    EndFacts(run, i);
  }
}
