/**
 What holds of every accepted run, and so of every run of the serve loop. Each theorem
 speaks only of the events of the run.
 */
module Runs {
  import opened Base
  import opened Messages
  import opened WaitStatus
  import opened Protocol
  import opened Recognizer
  import opened LineReader

  /** The ledger after the first i events. */
  ghost function At(run: seq<Event>, i: nat): Ledger
    requires Accepted(run) && i <= |run|
  {
    ReplayPrefix(run, i);
    Replay(run[..i]).value
  }

  lemma AtStep(run: seq<Event>, i: nat)
    requires Accepted(run) && i < |run|
    ensures Step(At(run, i), run[i]) == Some(At(run, i + 1))
  {
    ReplayPrefix(run, i + 1);
    assert run[..i + 1][..i] == run[..i];
  }

  lemma AtFront(run: seq<Event>)
    requires Accepted(run) && run != []
    ensures Accepted(run[..|run| - 1])
    ensures Step(Replay(run[..|run| - 1]).value, run[|run| - 1]) == Replay(run)
  {
  }

  // ------------------------------------------------------------------ launches

  /** The reply to a launch that was accepted: its process was forked, or fork or exec failed. */
  predicate LaunchAccepted(e: Event) {
    e.Sent? && e.msg.Reply? && e.msg.kind == Launch && e.msg.err in {NoError, ExecFailed}
  }

  function Launches(run: seq<Event>): nat {
    if run == [] then 0
    else Launches(run[..|run| - 1]) + (if LaunchAccepted(run[|run| - 1]) then 1 else 0)
  }

  lemma ReplyGen(l: Ledger, msg: Message, at: nat)
    requires msg.Reply? && Send(l, msg, at).Some?
    ensures Send(l, msg, at).value.gen == l.gen + (if LaunchAccepted(Sent(msg, at)) then 1 else 0)
    ensures LaunchAccepted(Sent(msg, at)) <==> Acceptable(l)
    ensures LaunchAccepted(Sent(msg, at)) ==> msg.gen == l.gen + 1
  {
  }

  lemma StepGen(l: Ledger, e: Event)
    requires Step(l, e).Some?
    ensures Step(l, e).value.gen == l.gen + (if LaunchAccepted(e) then 1 else 0)
    ensures LaunchAccepted(e) ==> e.msg.gen == l.gen + 1 && l.permit
  {
    hide Take, AnswerOk, Serves, HasLine;
    if e.Took? {
      TakeShape(l, e.line);
    }
    if e.Sent? && e.msg.Reply? {
      ReplyGen(l, e.msg, e.at);
    }
  }

  lemma {:induction false} GenIsLaunches(run: seq<Event>)
    requires Accepted(run)
    ensures Replay(run).value.gen == Launches(run)
  {
    hide Step;
    if run != [] {
      AtFront(run);
      GenIsLaunches(run[..|run| - 1]);
      StepGen(Replay(run[..|run| - 1]).value, run[|run| - 1]);
    }
  }

  /** Accepted launches carry the generations 1, 2, 3 and so on, without a gap. */
  lemma LaunchesAreNumbered(run: seq<Event>, i: nat)
    requires Accepted(run) && i < |run| && LaunchAccepted(run[i])
    ensures run[i].msg.gen == Launches(run[..i]) + 1
  {
    hide Step;
    ReplayPrefix(run, i);
    AtStep(run, i);
    GenIsLaunches(run[..i]);
    StepGen(At(run, i), run[i]);
  }

  // ------------------------------------------------------------------ attested ends

  predicate IsScan(e: Event) {
    e.Counted? || e.CountFailed? || e.PidsRead?
  }

  /** The scans made since the latest SIGTERM to all, which is how every end pass begins. */
  function Scans(run: seq<Event>): seq<Event> {
    if run == [] then []
    else
      var before := Scans(run[..|run| - 1]);
      var e := run[|run| - 1];
      if IsTermAll(e) then [] else if IsScan(e) then before + [e] else before
  }

  /** How many passes at the end were clean: the scan found no process, and pids.current no more than one. */
  function CleanCount(scans: seq<Event>): nat {
    var m := |scans|;
    if m >= 2 && scans[m - 2] == Counted({}) && scans[m - 1].PidsRead? && scans[m - 1].value <= 1
    then 1 + CleanCount(scans[..m - 2])
    else 0
  }

  predicate LastFoundNone(scans: seq<Event>) {
    scans != [] && scans[|scans| - 1] == Counted({})
  }

  /** The ledger's count is the number of clean passes. */
  ghost predicate ScansKnown(l: Ledger, scans: seq<Event>) {
    l.pass.ending ==>
      && l.pass.zero == LastFoundNone(scans)
      && l.pass.passes == CleanCount(if l.pass.zero then scans[..|scans| - 1] else scans)
  }

  lemma StepQuiet(l: Ledger, e: Event)
    requires Step(l, e).Some? && !IsScan(e) && !IsTermAll(e)
    ensures var after := Step(l, e).value;
      after.pass.ending ==> l.pass.ending && after.pass.zero == l.pass.zero && after.pass.passes == l.pass.passes
  {
    hide Take, AnswerOk, Serves, HasLine, Acceptable;
    if e.Took? {
      TakeShape(l, e.line);
    }
  }

  /** What a scan, or the SIGTERM that starts an end pass, makes of the pass. */
  lemma StepPass(l: Ledger, e: Event)
    requires Step(l, e).Some? && (IsScan(e) || IsTermAll(e))
    ensures var after := Step(l, e).value.pass;
      match e
      case SignaledAll(_, at) => after == NO_PASS.(ending := true, termAt := at)
      case Counted(others) => l.pass.ending && after == Scanned(l.pass, others == {})
      case PidsRead(value, at) => l.pass.ending && after == Completed(l.pass, value, at)
      case _ => l.pass.ending && after.ending && !after.zero && after.passes == 0
  {
    hide Scanned, Completed, Serves, GraceOf;
  }

  lemma StepScans(l: Ledger, e: Event, scans: seq<Event>)
    requires Step(l, e).Some? && ScansKnown(l, scans)
    ensures ScansKnown(Step(l, e).value, if IsTermAll(e) then [] else if IsScan(e) then scans + [e] else scans)
  {
    hide Step, Overdue;
    if !IsScan(e) && !IsTermAll(e) {
      StepQuiet(l, e);
    } else {
      StepPass(l, e);
      assert (scans + [e])[..|scans|] == scans;
      if |scans| >= 1 {
        assert (scans + [e])[..|scans| - 1] == scans[..|scans| - 1];
      }
    }
  }

  lemma {:induction false} ScansAreKnown(run: seq<Event>)
    requires Accepted(run)
    ensures ScansKnown(Replay(run).value, Scans(run))
  {
    hide Step;
    if run != [] {
      AtFront(run);
      ScansAreKnown(run[..|run| - 1]);
      StepScans(Replay(run[..|run| - 1]).value, run[|run| - 1], Scans(run[..|run| - 1]));
    }
  }

  /** An end pass runs only while an end or a sweep of the current generation is being served. */
  ghost predicate EndingServed(l: Ledger) {
    l.pass.ending ==> Serves(l, End) || Serves(l, Sweep)
  }

  lemma StepEnding(l: Ledger, e: Event)
    requires Step(l, e).Some? && EndingServed(l)
    ensures EndingServed(Step(l, e).value)
  {
    hide Take, AnswerOk, HasLine;
    if e.Took? {
      TakeShape(l, e.line);
    }
    match e
    case Sent(_, _) =>
    case Took(_) =>
    case _ =>
  }

  lemma {:induction false} EndingIsServed(run: seq<Event>)
    requires Accepted(run)
    ensures EndingServed(Replay(run).value)
  {
    hide Step;
    if run != [] {
      AtFront(run);
      EndingIsServed(run[..|run| - 1]);
      StepEnding(Replay(run[..|run| - 1]).value, run[|run| - 1]);
    }
  }

  lemma StepPermit(l: Ledger, e: Event)
    requires Step(l, e).Some? && !l.permit && Step(l, e).value.permit && EndingServed(l)
    ensures e.Sent? && e.msg.Reply? && e.msg.kind in {End, Sweep} && e.msg.gen == l.gen
    ensures l.pass.ending && Attested(l) && Step(l, e).value.pass.ending == false
  {
    hide Take, AnswerOk, HasLine;
    if e.Took? {
      TakeShape(l, e.line);
    }
    match e
    case Sent(_, _) =>
    case _ =>
  }

  lemma {:induction false} PermitGranted(run: seq<Event>, i: nat, j: nat) returns (c: nat)
    requires Accepted(run) && i <= j <= |run| && !At(run, i).permit && At(run, j).permit
    ensures i <= c < j && !At(run, c).permit && At(run, c + 1).permit
    decreases j
  {
    hide Step, Replay;
    if At(run, j - 1).permit {
      c := PermitGranted(run, i, j - 1);
    } else {
      c := j - 1;
    }
  }

  /** The reply to an end or a sweep closes its end pass, whose last scans were two clean passes in a row. */
  ghost predicate AttestedBy(run: seq<Event>, c: nat)
    requires c < |run|
  {
    && run[c].Sent? && run[c].msg.Reply? && run[c].msg.kind in {End, Sweep} && InEndPass(run[..c])
    && var scans := Scans(run[..c]);
       var m := |scans|;
       && m >= 4
       && scans[m - 4] == Counted({}) && scans[m - 3].PidsRead? && scans[m - 3].value <= 1
       && scans[m - 2] == Counted({}) && scans[m - 1].PidsRead? && scans[m - 1].value <= 1
  }

  lemma AttestedScans(run: seq<Event>, c: nat)
    requires Accepted(run) && c < |run| && !At(run, c).permit && At(run, c + 1).permit
    ensures AttestedBy(run, c)
  {
    hide Step, Replay;
    AtStep(run, c);
    ReplayPrefix(run, c);
    EndingIsServed(run[..c]);
    StepPermit(At(run, c), run[c]);
    ScansAreKnown(run[..c]);
    EndingIsInEndPass(run[..c]);
    var scans := Scans(run[..c]);
    assert CleanCount(scans[..|scans| - 2]) >= 1;
  }

  /** Between any two accepted launches an end or a sweep was attested by two clean passes in a row. */
  lemma LaunchesAreSeparated(run: seq<Event>, i: nat, j: nat) returns (c: nat)
    requires Accepted(run) && i < j < |run| && LaunchAccepted(run[i]) && LaunchAccepted(run[j])
    ensures i < c < j && AttestedBy(run, c)
  {
    hide Step, Replay;
    AtStep(run, i);
    SpendsPermit(At(run, i), run[i]);
    AtStep(run, j);
    StepGen(At(run, j), run[j]);
    c := PermitGranted(run, i + 1, j);
    AttestedScans(run, c);
  }

  lemma SpendsPermit(l: Ledger, e: Event)
    requires Step(l, e).Some? && LaunchAccepted(e)
    ensures !Step(l, e).value.permit
  {
    hide Take, HasLine, Serves;
    ReplyGen(l, e.msg, e.at);
  }

  // ------------------------------------------------------------------ the launched process

  lemma StepRuntime(l: Ledger, e: Event)
    requires Step(l, e).Some?
    ensures var after := Step(l, e).value;
      && (e.Forked? && e.role == RuntimeProcess ==>
            l.runtime.None? && Acceptable(l) && after.runtime == Some(Process(e.pid, l.gen + 1)) && MidLaunch(after))
      && (e.Collected? && l.runtime.Some? && l.runtime.value.pid == e.pid ==>
            && after.runtime.None? && l.announced && l.notice.None?
            && after.notice == if l.pass.ending then None else Some(Notice(l.runtime.value.gen, e.status)))
      && (!(e.Forked? && e.role == RuntimeProcess) && !(e.Collected? && l.runtime.Some? && l.runtime.value.pid == e.pid) ==>
            after.runtime == l.runtime)
  {
    hide Take, AnswerOk, Serves, HasLine;
    if e.Took? {
      TakeShape(l, e.line);
    }
    match e
    case Sent(_, _) =>
    case _ =>
  }

  lemma {:induction false} RuntimeLost(run: seq<Event>, i: nat, j: nat) returns (c: nat)
    requires Accepted(run) && i <= j <= |run| && At(run, i).runtime.Some? && At(run, j).runtime != At(run, i).runtime
    ensures i <= c < j && run[c].Collected? && run[c].pid == At(run, i).runtime.value.pid
    ensures At(run, c).runtime == At(run, i).runtime
    decreases j
  {
    hide Step, Replay;
    AtStep(run, j - 1);
    StepRuntime(At(run, j - 1), run[j - 1]);
    if At(run, j - 1).runtime != At(run, i).runtime {
      c := RuntimeLost(run, i, j - 1);
    } else {
      c := j - 1;
    }
  }

  /** A second process is launched only after the first one was collected: at most one exists. */
  lemma OneRuntimeAtATime(run: seq<Event>, i: nat, j: nat) returns (c: nat)
    requires Accepted(run) && i < j < |run|
    requires run[i].Forked? && run[i].role == RuntimeProcess && run[j].Forked? && run[j].role == RuntimeProcess
    ensures i < c < j && run[c].Collected? && run[c].pid == run[i].pid
  {
    hide Step, Replay;
    AtStep(run, i);
    StepRuntime(At(run, i), run[i]);
    AtStep(run, j);
    StepRuntime(At(run, j), run[j]);
    c := RuntimeLost(run, i + 1, j);
  }

  // ------------------------------------------------------------------ exit notices

  predicate IsExited(e: Event) {
    e.Sent? && e.msg.Exited?
  }

  /** The launched process and its notice belong to the current generation, and a permit excludes both. */
  ghost predicate RuntimeFits(l: Ledger) {
    && (l.runtime.Some? ==> l.runtime.value.gen == (if l.announced then l.gen else l.gen + 1))
    && (l.runtime.Some? ==> l.notice.None?)
    && (l.notice.Some? ==> l.notice.value.gen == l.gen)
    && (MidLaunch(l) ==> Acceptable(l))
    && (l.permit ==> l.notice.None? && (l.runtime.None? || MidLaunch(l)))
    && (l.pass.ending && (l.pass.zero || l.pass.passes > 0) ==> l.runtime.None? && l.notice.None?)
    && EndingServed(l)
  }

  lemma ReplyFits(l: Ledger, msg: Message, at: nat)
    requires msg.Reply? && Send(l, msg, at).Some? && RuntimeFits(l)
    ensures RuntimeFits(Send(l, msg, at).value)
  {
    hide Parse, HasLine, FirstLine, AfterLine, SweepResult, CleanupResult;
    ReplyGen(l, msg, at);
  }

  lemma StepFits(l: Ledger, e: Event)
    requires Step(l, e).Some? && RuntimeFits(l)
    ensures RuntimeFits(Step(l, e).value)
  {
    hide Take, AnswerOk, HasLine, GraceOf, BackstopOf, Overdue;
    if e.Took? {
      TakeShape(l, e.line);
    }
    if e.Sent? && e.msg.Reply? {
      ReplyFits(l, e.msg, e.at);
    } else {
      StepEnding(l, e);
    }
  }

  lemma {:induction false} RuntimeAlwaysFits(run: seq<Event>)
    requires Accepted(run)
    ensures RuntimeFits(Replay(run).value)
  {
    hide Step;
    if run != [] {
      AtFront(run);
      RuntimeAlwaysFits(run[..|run| - 1]);
      StepFits(Replay(run[..|run| - 1]).value, run[|run| - 1]);
    }
  }

  lemma StepExited(l: Ledger, e: Event)
    requires Step(l, e).Some? && IsExited(e)
    ensures !l.gone && !l.over && l.notice == Some(Notice(e.msg.exitGen, e.msg.status))
    ensures Step(l, e).value == l.(notice := None)
  {
    hide Take, AnswerOk, HasLine;
  }

  /** Exited of generation g comes after exactly g launches were accepted: after launched(g), before launched(g + 1). */
  lemma ExitedIsInItsGeneration(run: seq<Event>, i: nat)
    requires Accepted(run) && i < |run| && IsExited(run[i])
    ensures run[i].msg.exitGen == Launches(run[..i])
    ensures At(run, i).runtime.None? && !At(run, i).permit
  {
    hide Step, Replay;
    AtStep(run, i);
    StepExited(At(run, i), run[i]);
    ReplayPrefix(run, i);
    RuntimeAlwaysFits(run[..i]);
    GenIsLaunches(run[..i]);
  }

  /** Without a new launch, a generation whose process is gone and whose exit was told stays quiet. */
  ghost predicate Quiet(l: Ledger, gen: nat) {
    l.gen > gen || (l.gen == gen && l.notice.None? && (l.runtime.None? || MidLaunch(l)))
  }

  lemma StepStaysQuiet(l: Ledger, e: Event, gen: nat)
    requires Step(l, e).Some? && Quiet(l, gen) && RuntimeFits(l)
    ensures Quiet(Step(l, e).value, gen)
  {
    hide Take, AnswerOk, Serves, HasLine;
    if e.Took? {
      TakeShape(l, e.line);
    }
    StepGen(l, e);
    StepRuntime(l, e);
    if e.Sent? && e.msg.Reply? {
      ReplyGen(l, e.msg, e.at);
    }
  }

  lemma {:induction false} StaysQuiet(run: seq<Event>, i: nat, j: nat, gen: nat)
    requires Accepted(run) && i <= j <= |run| && Quiet(At(run, i), gen)
    ensures Quiet(At(run, j), gen)
    decreases j
  {
    hide Step, Replay;
    if i < j {
      StaysQuiet(run, i, j - 1, gen);
      AtStep(run, j - 1);
      ReplayPrefix(run, j - 1);
      RuntimeAlwaysFits(run[..j - 1]);
      StepStaysQuiet(At(run, j - 1), run[j - 1], gen);
    }
  }

  /** No generation's exit is reported twice. */
  lemma ExitedOnce(run: seq<Event>, i: nat, j: nat)
    requires Accepted(run) && i < j < |run| && IsExited(run[i]) && IsExited(run[j])
    ensures run[i].msg.exitGen < run[j].msg.exitGen
  {
    hide Step, Replay;
    ExitedIsInItsGeneration(run, i);
    AtStep(run, i);
    StepExited(At(run, i), run[i]);
    ReplayPrefix(run, i);
    GenIsLaunches(run[..i]);
    StaysQuiet(run, i + 1, j, run[i].msg.exitGen);
    ExitedIsInItsGeneration(run, j);
    AtStep(run, j);
    StepExited(At(run, j), run[j]);
    ReplayPrefix(run, j);
    GenIsLaunches(run[..j]);
  }

  /** After an end of generation g succeeded, no exit of generation g or before is reported. */
  lemma NoExitedAfterEnded(run: seq<Event>, i: nat, j: nat)
    requires Accepted(run) && i < j < |run| && IsExited(run[j])
    requires run[i].Sent? && run[i].msg.Reply? && run[i].msg.kind == End && run[i].msg.err == NoError
    ensures run[i].msg.gen < run[j].msg.exitGen
  {
    hide Step, Replay;
    AtStep(run, i);
    ReplayPrefix(run, i);
    RuntimeAlwaysFits(run[..i]);
    EndedQuiet(At(run, i), run[i].msg, run[i].at);
    StaysQuiet(run, i + 1, j, run[i].msg.gen);
    ExitedIsInItsGeneration(run, j);
    AtStep(run, j);
    StepExited(At(run, j), run[j]);
    ReplayPrefix(run, j);
    GenIsLaunches(run[..j]);
  }

  lemma EndedQuiet(l: Ledger, msg: Message, at: nat)
    requires Step(l, Sent(msg, at)).Some? && RuntimeFits(l)
    requires msg.Reply? && msg.kind == End && msg.err == NoError
    ensures Quiet(Step(l, Sent(msg, at)).value, msg.gen)
  {
    hide Parse, HasLine, FirstLine, AfterLine, SweepResult, CleanupResult;
  }

  /** A run is inside an end pass from its SIGTERM to the reply. */
  function InEndPass(run: seq<Event>): bool {
    if run == [] then false
    else
      var e := run[|run| - 1];
      if IsTermAll(e) then true
      else if e.Sent? && e.msg.Reply? then false
      else InEndPass(run[..|run| - 1])
  }

  lemma StepEndPass(l: Ledger, e: Event)
    requires Step(l, e).Some? && EndingServed(l)
    ensures Step(l, e).value.pass.ending == (IsTermAll(e) || (l.pass.ending && !(e.Sent? && e.msg.Reply?)))
  {
    hide Take, AnswerOk, HasLine;
    if e.Took? {
      TakeShape(l, e.line);
    }
  }

  lemma {:induction false} EndingIsInEndPass(run: seq<Event>)
    requires Accepted(run)
    ensures Replay(run).value.pass.ending == InEndPass(run)
  {
    hide Step;
    if run != [] {
      AtFront(run);
      EndingIsInEndPass(run[..|run| - 1]);
      EndingIsServed(run[..|run| - 1]);
      StepEndPass(Replay(run[..|run| - 1]).value, run[|run| - 1]);
    }
  }

  /** A launched process: forked as the runtime at f and not collected in between. */
  ghost predicate RuntimeSince(run: seq<Event>, f: nat, c: nat)
    requires c < |run|
  {
    && f < c && run[f].Forked? && run[f].role == RuntimeProcess && run[c].Collected? && run[c].pid == run[f].pid
    && forall m :: f < m < c ==> !(run[m].Collected? && run[m].pid == run[f].pid)
  }

  lemma {:induction false} RuntimeForked(run: seq<Event>, i: nat) returns (f: nat)
    requires Accepted(run) && i <= |run| && At(run, i).runtime.Some?
    ensures f < i && run[f].Forked? && run[f].role == RuntimeProcess && run[f].pid == At(run, i).runtime.value.pid
    ensures At(run, i).runtime.value.gen == Launches(run[..f]) + 1
    ensures forall m :: f < m < i ==> !(run[m].Collected? && run[m].pid == run[f].pid)
  {
    hide Step, Replay;
    if i == 0 {
      assert run[..0] == [];
      StartEmpty();
    } else {
      AtStep(run, i - 1);
      StepRuntime(At(run, i - 1), run[i - 1]);
      if At(run, i - 1).runtime.Some? {
        f := RuntimeForked(run, i - 1);
      } else {
        f := i - 1;
        ReplayPrefix(run, f);
        GenIsLaunches(run[..f]);
      }
    }
  }

  lemma StartEmpty()
    ensures Replay([]) == Some(START)
  {
  }

  /** One turn of the reap loop. */
  predicate Reaping(e: Event) {
    e.Collected? || e.Drained?
  }

  /** A process launched at f and collected at c outside an end pass is reported next, unless the peer is gone. */
  lemma {:induction false} ExitIsReportedAtOnce(run: seq<Event>, f: nat, c: nat, m: nat)
    requires Accepted(run) && c < m < |run| && RuntimeSince(run, f, c) && !InEndPass(run[..c])
    requires forall n :: c < n < m ==> Reaping(run[n])
    ensures Reaping(run[m]) || run[m].HungUp?
         || (IsExited(run[m]) && run[m].msg == Exited(Launches(run[..f]) + 1, run[c].status))
    ensures At(run, m).notice == Some(Notice(Launches(run[..f]) + 1, run[c].status))
    decreases m
  {
    hide Step, Replay;
    if m == c + 1 {
      StillRuntime(run, f, c);
      AtStep(run, c);
      StepRuntime(At(run, c), run[c]);
      ReplayPrefix(run, c);
      EndingIsInEndPass(run[..c]);
    } else {
      ExitIsReportedAtOnce(run, f, c, m - 1);
      AtStep(run, m - 1);
      ReplayPrefix(run, m - 1);
      RuntimeAlwaysFits(run[..m - 1]);
      StepRuntime(At(run, m - 1), run[m - 1]);
      NoticeHolds(At(run, m - 1), run[m - 1]);
    }
    StillOpen(At(run, m - 1), run[m - 1]);
    AtStep(run, m);
    NoticeHolds(At(run, m), run[m]);
  }

  lemma StillOpen(l: Ledger, e: Event)
    requires Step(l, e).Some? && Reaping(e)
    ensures !Step(l, e).value.gone && !Step(l, e).value.doomed
  {
  }

  lemma NoticeHolds(l: Ledger, e: Event)
    requires Step(l, e).Some? && l.notice.Some?
    ensures l.gone || l.doomed || Reaping(e) || e.HungUp?
         || (IsExited(e) && e.msg == Exited(l.notice.value.gen, l.notice.value.status))
    ensures Reaping(e) ==> Step(l, e).value.notice == l.notice
  {
    hide Take, AnswerOk, Serves, HasLine;
    if e.Took? {
      TakeShape(l, e.line);
    }
  }

  lemma {:induction false} StillRuntime(run: seq<Event>, f: nat, c: nat)
    requires Accepted(run) && f < c <= |run| && run[f].Forked? && run[f].role == RuntimeProcess
    requires forall m :: f < m < c ==> !(run[m].Collected? && run[m].pid == run[f].pid)
    ensures At(run, c).runtime == Some(Process(run[f].pid, Launches(run[..f]) + 1))
    decreases c
  {
    hide Step, Replay;
    AtStep(run, c - 1);
    StepRuntime(At(run, c - 1), run[c - 1]);
    if c == f + 1 {
      ReplayPrefix(run, f);
      GenIsLaunches(run[..f]);
    } else {
      StillRuntime(run, f, c - 1);
    }
  }

  lemma StepNotice(l: Ledger, e: Event)
    requires Step(l, e).Some? && l.notice.None? && !e.Collected?
    ensures Step(l, e).value.notice.None?
  {
    hide Take, AnswerOk, Serves, HasLine, Acceptable;
    if e.Took? {
      TakeShape(l, e.line);
    }
  }

  lemma NoticeComes(l: Ledger, e: Event)
    requires Step(l, e).Some? && Step(l, e).value.notice.Some?
    requires !Step(l, e).value.gone && !Step(l, e).value.over
    ensures !l.gone && !l.over && (l.notice.Some? ==> Step(l, e).value.notice == l.notice && Reaping(e))
    ensures l.notice.None? ==> e.Collected? && l.runtime.Some? && l.runtime.value.pid == e.pid && !l.pass.ending
  {
    hide Take, AnswerOk, Serves, HasLine, Acceptable;
    if e.Took? {
      TakeShape(l, e.line);
    }
    if l.notice.Some? {
      NoticeHolds(l, e);
    } else if !e.Collected? {
      StepNotice(l, e);
    }
  }

  lemma {:induction false} NoticeSource(run: seq<Event>, i: nat) returns (f: nat, c: nat)
    requires Accepted(run) && i <= |run| && At(run, i).notice.Some? && !At(run, i).gone && !At(run, i).over
    ensures c < i && RuntimeSince(run, f, c) && !InEndPass(run[..c])
    ensures At(run, i).notice == Some(Notice(Launches(run[..f]) + 1, run[c].status))
    ensures forall n :: c < n < i ==> Reaping(run[n])
  {
    hide Step, Replay;
    if i == 0 {
      assert run[..0] == [];
      StartEmpty();
    } else {
      AtStep(run, i - 1);
      NoticeComes(At(run, i - 1), run[i - 1]);
      StepRuntime(At(run, i - 1), run[i - 1]);
      if At(run, i - 1).notice.Some? {
        f, c := NoticeSource(run, i - 1);
      } else {
        c := i - 1;
        f := RuntimeForked(run, c);
        ReplayPrefix(run, c);
        EndingIsInEndPass(run[..c]);
      }
    }
  }

  /** Every reported exit is that of a launched process collected outside an end pass just before. */
  lemma ReportedExitHappened(run: seq<Event>, i: nat) returns (f: nat, c: nat)
    requires Accepted(run) && i < |run| && IsExited(run[i])
    ensures c < i && RuntimeSince(run, f, c) && !InEndPass(run[..c])
    ensures run[i].msg == Exited(Launches(run[..f]) + 1, run[c].status)
    ensures forall n :: c < n < i ==> Reaping(run[n])
  {
    hide Step, Replay;
    AtStep(run, i);
    StepExited(At(run, i), run[i]);
    f, c := NoticeSource(run, i);
  }
}
