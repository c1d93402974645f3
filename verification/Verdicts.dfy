/** What every reply of an accepted run rests on: which earlier events decided its error. */
module Verdicts {
  import opened Base
  import opened Messages
  import opened WaitStatus
  import opened Protocol
  import opened Recognizer
  import opened LineReader
  import opened Runs
  import opened Traffic
  import opened Workers
  import opened Deadlines

  // ------------------------------------------------------------------ admission

  /** A reply that closes an end pass with two clean passes in a row. */
  predicate ClosesClean(before: seq<Event>, e: Event) {
    e.Sent? && e.msg.Reply? && InEndPass(before) && CleanCount(Scans(before)) >= 2
  }

  /** Whether a launch may be accepted: none was since the latest clean end pass, or ever. */
  function Permits(run: seq<Event>): bool {
    if run == [] then true
    else
      var before, e := run[..|run| - 1], run[|run| - 1];
      if LaunchAccepted(e) then false else Permits(before) || ClosesClean(before, e)
  }

  lemma StepPermits(l: Ledger, e: Event)
    requires Step(l, e).Some? && EndingServed(l)
    ensures Step(l, e).value.permit ==
      if LaunchAccepted(e) then false
      else l.permit || (e.Sent? && e.msg.Reply? && l.pass.ending && Attested(l))
  {
    hide Take, AnswerOk, Attested, MayFork;
    if e.Took? {
      TakeShape(l, e.line);
    }
    if e.Sent? && e.msg.Reply? {
      ReplyGen(l, e.msg, e.at);
    }
  }

  lemma {:induction false} PermitIsEarned(run: seq<Event>)
    requires Accepted(run)
    ensures Replay(run).value.permit == Permits(run)
  {
    hide Step, Replay, Attested, CleanCount, Scans;
    if run == [] {
      StartEmpty();
    } else {
      var n := |run| - 1;
      AtFront(run);
      PermitIsEarned(run[..n]);
      EndFacts(run, n);
      StepPermits(Replay(run[..n]).value, run[n]);
    }
  }

  lemma LaunchReplied(l: Ledger, e: Event)
    requires Step(l, e).Some? && IsReply(e, Launch)
    ensures l.cur.Some? && !l.cur.value.Unreadable?
    ensures if l.cur.value.Malformed? then e.msg.err == MalformedRequest
            else
              && l.cur.value.Ok? && l.cur.value.req.gen == e.msg.gen
              && (e.msg.err == GenMismatch <==> e.msg.gen != l.gen + 1)
              && (e.msg.err == NotPermitted <==> e.msg.gen == l.gen + 1 && !l.permit)
              && (LaunchAccepted(e) <==> e.msg.gen == l.gen + 1 && l.permit)
  {
  }

  /**
   A launch is accepted exactly when its generation is one more than the launches accepted so
   far and the namespace was ended cleanly since the latest one. Otherwise the reply says which
   of the two failed.
   */
  lemma LaunchesAreAdmittedExactly(run: seq<Event>, i: nat)
    requires Accepted(run) && i < |run| && IsReply(run[i], Launch) && run[i].msg.err != MalformedRequest
    ensures var next, permitted := Launches(run[..i]) + 1, Permits(run[..i]);
      && (run[i].msg.err == GenMismatch <==> run[i].msg.gen != next)
      && (run[i].msg.err == NotPermitted <==> run[i].msg.gen == next && !permitted)
      && (LaunchAccepted(run[i]) <==> run[i].msg.gen == next && permitted)
  {
    hide Step, Replay, Permits, Launches;
    AtStep(run, i);
    LaunchReplied(At(run, i), run[i]);
    ReplayPrefix(run, i);
    GenIsLaunches(run[..i]);
    PermitIsEarned(run[..i]);
  }

  lemma OtherReplied(l: Ledger, e: Event)
    requires Step(l, e).Some? && e.Sent? && e.msg.Reply? && e.msg.kind != Launch
    ensures l.cur.Some? && !l.cur.value.Unreadable?
    ensures e.msg.err == MalformedRequest <==> l.cur.value.Malformed?
    ensures l.cur.value.Ok? ==> (e.msg.err == GenMismatch <==> e.msg.gen != l.gen)
    ensures e.msg.kind == Ping && l.cur.value.Ok? ==> e.msg.err in {NoError, GenMismatch}
  {
    hide Attested, GraceOf, StatusDue;
  }

  /** Any other request is turned away for its generation exactly when that is not the number of launches accepted. */
  lemma StaleRequestsAreRefused(run: seq<Event>, i: nat)
    requires Accepted(run) && i < |run| && run[i].Sent? && run[i].msg.Reply? && run[i].msg.kind != Launch
    ensures |Takes(run[..i])| == |Replies(run[..i])| + 1
    ensures var line := Takes(run[..i])[|Replies(run[..i])|];
      && (run[i].msg.err == MalformedRequest <==> Parse(line).Malformed?)
      && (Parse(line).Ok? ==> (run[i].msg.err == GenMismatch <==> run[i].msg.gen != Launches(run[..i])))
      && (Parse(line).Ok? && run[i].msg.kind == Ping ==> run[i].msg.err in {NoError, GenMismatch})
  {
    hide Step, Replay, Launches, Parse;
    AtStep(run, i);
    OtherReplied(At(run, i), run[i]);
    ReplayPrefix(run, i);
    GenIsLaunches(run[..i]);
    RunAnswers(run[..i]);
  }

  // ------------------------------------------------------------------ launches

  /** Why an accepted launch was answered as it was. */
  datatype LaunchSource = Executed(f: nat, x: nat) | NotForked(r: nat)

  ghost predicate LaunchRestsOn(run: seq<Event>, src: LaunchSource, i: nat)
    requires i <= |run|
  {
    match src
    case Executed(f, x) =>
      && f < x < i && run[f].Forked? && run[f].role == RuntimeProcess && run[x].Execed? && NoTookIn(run, f, i)
    case NotForked(r) => r < i && run[r] == Event.Refused(RuntimeProcess) && NoTookIn(run, r, i)
  }

  /** The program's exec is known only of the process a launch being served has forked. */
  ghost predicate ExecFits(l: Ledger) {
    l.job.exec.Some? && l.cur.Some? ==> MidLaunch(l)
  }

  /** A launch is under way only from its fork on, and then nothing is taken or forked. */
  lemma StepMidLaunch(l: Ledger, e: Event)
    requires Step(l, e).Some? && RuntimeFits(l)
    ensures MidLaunch(Step(l, e).value) ==>
      (e.Forked? && e.role == RuntimeProcess) || (MidLaunch(l) && !e.Took? && !e.Forked?)
  {
    hide Take, AnswerOk, Attested, GraceOf, BackstopOf, Scanned, Completed, Stricken;
    if e.Took? {
      TakeShape(l, e.line);
    }
  }

  lemma StepExec(l: Ledger, e: Event)
    requires Step(l, e).Some? && ExecFits(l) && RuntimeFits(l)
    ensures ExecFits(Step(l, e).value)
  {
    hide Take, AnswerOk, Attested, GraceOf, BackstopOf, Scanned, Completed, Stricken;
    if e.Took? {
      TakeShape(l, e.line);
    }
  }

  lemma {:induction false} ExecAlwaysFits(run: seq<Event>)
    requires Accepted(run)
    ensures ExecFits(Replay(run).value)
  {
    hide Step;
    if run != [] {
      AtFront(run);
      ExecAlwaysFits(run[..|run| - 1]);
      RuntimeAlwaysFits(run[..|run| - 1]);
      StepExec(Replay(run[..|run| - 1]).value, run[|run| - 1]);
    }
  }

  lemma {:induction false} MidLaunchSource(run: seq<Event>, i: nat) returns (f: nat)
    requires Accepted(run) && i <= |run| && MidLaunch(At(run, i))
    ensures f < i && run[f].Forked? && run[f].role == RuntimeProcess && NoTookIn(run, f, i)
    decreases i
  {
    hide Step, Replay;
    if i == 0 {
      assert run[..0] == [];
      StartEmpty();
    } else {
      AtStep(run, i - 1);
      ReplayPrefix(run, i - 1);
      ExecAlwaysFits(run[..i - 1]);
      RuntimeAlwaysFits(run[..i - 1]);
      StepMidLaunch(At(run, i - 1), run[i - 1]);
      if run[i - 1].Forked? {
        f := i - 1;
      } else {
        f := MidLaunchSource(run, i - 1);
      }
    }
  }

  lemma {:induction false} ExecSource(run: seq<Event>, i: nat) returns (f: nat, x: nat)
    requires Accepted(run) && i <= |run| && At(run, i).job.exec.Some? && MidLaunch(At(run, i))
    ensures LaunchRestsOn(run, Executed(f, x), i) && At(run, i).job.exec == Some(run[x].ok)
    decreases i
  {
    hide Step, Replay;
    if i == 0 {
      assert run[..0] == [];
      StartEmpty();
    } else {
      AtStep(run, i - 1);
      ReplayPrefix(run, i - 1);
      ExecAlwaysFits(run[..i - 1]);
      RuntimeAlwaysFits(run[..i - 1]);
      StepMidLaunch(At(run, i - 1), run[i - 1]);
      StepJob(At(run, i - 1), run[i - 1]);
      StepRuntime(At(run, i - 1), run[i - 1]);
      if run[i - 1].Execed? {
        x := i - 1;
        f := MidLaunchSource(run, x);
      } else {
        f, x := ExecSource(run, i - 1);
      }
    }
  }

  lemma StepRequest(l: Ledger, e: Event)
    requires Step(l, e).Some? && Step(l, e).value.cur.Some? && !e.Took?
    ensures Step(l, e).value.cur == l.cur && Step(l, e).value.gen == l.gen
  {
    hide AnswerOk, Acceptable, MayFork, Attested, Take, Serves, GraceOf, BackstopOf, Scanned, Completed, Stricken, TooLong, HasLine;
  }

  /** A refused fork was for the request being served. */
  lemma {:induction false} RefusalSource(run: seq<Event>, i: nat) returns (r: nat)
    requires Accepted(run) && i <= |run| && At(run, i).job.refused && At(run, i).cur.Some? && !At(run, i).doomed
    ensures r < i && run[r].Refused? && NoTookIn(run, r, i)
    ensures At(run, r).cur == At(run, i).cur && MayFork(At(run, r), run[r].role)
    decreases i
  {
    hide Step, Replay, MayFork;
    if i == 0 {
      assert run[..0] == [];
      StartEmpty();
    } else {
      AtStep(run, i - 1);
      StepJob(At(run, i - 1), run[i - 1]);
      NotDoomed(At(run, i - 1), run[i - 1]);
      if !run[i - 1].Took? {
        StepRequest(At(run, i - 1), run[i - 1]);
      }
      if run[i - 1].Refused? {
        r := i - 1;
      } else {
        r := RefusalSource(run, i - 1);
      }
    }
  }

  lemma LaunchedReply(l: Ledger, e: Event)
    requires Step(l, e).Some? && LaunchAccepted(e) && RuntimeFits(l)
    ensures Acceptable(l) && !l.doomed
    ensures if l.runtime.Some? then MidLaunch(l) && l.job.exec == Some(e.msg.err == NoError)
            else l.job.refused && e.msg.err == ExecFailed
  {
    ReplyGen(l, e.msg, e.at);
  }

  /** An accepted launch succeeds exactly when its process was forked and the pipe reported no exec error. */
  lemma LaunchRepliesTell(run: seq<Event>, i: nat) returns (src: LaunchSource)
    requires Accepted(run) && i < |run| && LaunchAccepted(run[i])
    ensures LaunchRestsOn(run, src, i)
    ensures run[i].msg.err == NoError <==> src.Executed? && run[src.x].ok
  {
    hide Step, Replay;
    AtStep(run, i);
    ReplayPrefix(run, i);
    RuntimeAlwaysFits(run[..i]);
    LaunchedReply(At(run, i), run[i]);
    if At(run, i).runtime.Some? {
      var f, x := ExecSource(run, i);
      src := Executed(f, x);
    } else {
      var r := RefusalSource(run, i);
      src := NotForked(r);
    }
  }

  // ------------------------------------------------------------------ workers

  /** Where the status in the answer to a sweep or a cleanup comes from. */
  datatype StatusSource = FromWorker(f: nat, c: nat) | NoFork(r: nat) | LostWorker(f: nat, k: nat)

  ghost predicate HasStatus(run: seq<Event>, i: nat)
    requires i <= |run|
  {
    exists f: nat, c: nat :: Finished(run, f, c, i)
  }

  /**
   The status is the first one collected for the worker; or there is none, because the worker
   was not forked, or was sent SIGKILL after its backstop and waited for in vain.
   */
  ghost predicate RestsOn(run: seq<Event>, src: StatusSource, i: nat)
    requires i < |run| && run[i].Sent?
  {
    match src
    case FromWorker(f, c) => Finished(run, f, c, i)
    case NoFork(r) => r < i && run[r].Refused? && run[r].role.Worker? && NoTookIn(run, r, i) && !HasStatus(run, i)
    case LostWorker(f, k) =>
      && k < i && KilledLate(run, f, k) && NoTookIn(run, k, i) && !HasStatus(run, i)
      && run[i].at >= run[f].at + BackstopAsked(run[..i]) + 5000
  }

  ghost function StatusOf(run: seq<Event>, src: StatusSource): Option<nat> {
    if src.FromWorker? && src.c < |run| && run[src.c].Collected? then Some(run[src.c].status) else None
  }

  lemma NoStatus(run: seq<Event>, i: nat)
    requires Accepted(run) && i <= |run| && At(run, i).job.got.None?
    ensures !HasStatus(run, i)
  {
    hide Step, Replay, Finished;
    if HasStatus(run, i) {
      var f: nat, c: nat :| Finished(run, f, c, i);
      StatusIsTheFirst(run, f, c, i);
    }
  }

  lemma StatusSourceAt(run: seq<Event>, i: nat) returns (src: StatusSource)
    requires Accepted(run) && i < |run| && run[i].Sent? && !At(run, i).doomed
    requires Serves(At(run, i), Sweep) || Serves(At(run, i), Cleanup)
    requires StatusDue(At(run, i), run[i].at)
    ensures RestsOn(run, src, i) && StatusOf(run, src) == At(run, i).job.got
  {
    hide Step, Replay, KilledLate, BackstopAsked, BackstopOf, Finished;
    ReplayPrefix(run, i);
    BackstopIsAsked(run[..i]);
    if At(run, i).job.got.Some? {
      var f, c := StatusHasSource(run, i);
      FinishedCollects(run, f, c, i);
      src := FromWorker(f, c);
    } else {
      NoStatus(run, i);
      if At(run, i).job.spawned {
        var f, k := KillSource(run, i);
        src := LostWorker(f, k);
      } else {
        var r := RefusalSource(run, i);
        src := NoFork(r);
      }
    }
  }

  lemma FinishedCollects(run: seq<Event>, f: nat, c: nat, i: nat)
    requires i <= |run| && Finished(run, f, c, i)
    ensures c < |run| && run[c].Collected?
  {
  }

  lemma CleanupReplied(l: Ledger, e: Event)
    requires Step(l, e).Some? && IsReply(e, Cleanup)
    ensures !l.doomed
    ensures if Serves(l, Cleanup) then StatusDue(l, e.at) && e.msg.err == CleanupResult(l.job.got)
            else e.msg.err in {GenMismatch, MalformedRequest}
  {
    hide StatusDue, CleanupResult;
  }

  /** A cleanup of the current generation is answered with what its worker's status says. */
  lemma CleanupRepliesTell(run: seq<Event>, i: nat) returns (src: StatusSource)
    requires Accepted(run) && i < |run| && IsReply(run[i], Cleanup)
    ensures run[i].msg.err in {GenMismatch, MalformedRequest}
         || (RestsOn(run, src, i) && run[i].msg.err == CleanupResult(StatusOf(run, src)))
  {
    hide Step, Replay, StatusDue, CleanupResult, RestsOn, StatusOf;
    src := NoFork(0);
    AtStep(run, i);
    CleanupReplied(At(run, i), run[i]);
    if Serves(At(run, i), Cleanup) {
      src := StatusSourceAt(run, i);
    }
  }

  lemma SweepReplied(l: Ledger, e: Event)
    requires Step(l, e).Some? && IsReply(e, Sweep)
    ensures !l.doomed
    ensures if Serves(l, Sweep)
            then
              && l.pass.ending && StatusDue(l, e.at)
              && (if SweepResult(l.job.got) != NoError then e.msg.err == SweepResult(l.job.got)
                  else EndErrorOk(l, e.msg.err, e.at))
            else e.msg.err in {GenMismatch, MalformedRequest}
  {
    hide StatusDue, SweepResult, EndErrorOk;
  }

  /** A sweep is answered with its worker's failure if it failed, and with the result of its end pass otherwise. */
  lemma SweepRepliesTell(run: seq<Event>, i: nat) returns (src: StatusSource, t: nat)
    requires Accepted(run) && i < |run| && IsReply(run[i], Sweep)
    ensures run[i].msg.err in {GenMismatch, MalformedRequest}
         || (&& RestsOn(run, src, i)
             && (if SweepResult(StatusOf(run, src)) != NoError
                 then run[i].msg.err == SweepResult(StatusOf(run, src))
                 else EndResult(run, i, t, run[i].msg.err)))
  {
    hide Step, Replay, StatusDue, SweepResult, RestsOn, StatusOf, EndResult, EndErrorOk;
    src, t := NoFork(0), 0;
    AtStep(run, i);
    SweepReplied(At(run, i), run[i]);
    if Serves(At(run, i), Sweep) {
      src := StatusSourceAt(run, i);
      if SweepResult(StatusOf(run, src)) == NoError {
        t := EndResultAt(run, i, run[i].msg.err);
      }
    }
  }
}
