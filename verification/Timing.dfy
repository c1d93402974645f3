/**
 What the supervisor's two polling loops cost in time. Both look, stop when the look shows what
 they wait for or their window is over, and otherwise wait for at most a step, which a signal may
 cut short. The window is tested only at a look, so a loop can outlast its window by the part of
 a step that lies past it.
 */
module Timing {
  import opened Base
  import opened Messages
  import opened Protocol

  /** The pause between two end passes. */
  const END_PASS_INTERVAL_MS: nat := 10

  /** The longest wait between two looks at a worker. */
  const WAIT_STEP_MS: nat := 50

  /** How long a sequence of waits lasts. */
  function Elapsed(waits: seq<nat>): nat {
    if waits == [] then 0 else Elapsed(waits[..|waits| - 1]) + waits[|waits| - 1]
  }

  /** Waits of a loop that looks at once and after each of them: it waits again only before its window is over. */
  predicate Polls(window: nat, step: nat, waits: seq<nat>) {
    waits == [] ||
    var front := waits[..|waits| - 1];
    Polls(window, step, front) && Elapsed(front) < window && waits[|waits| - 1] <= step
  }

  /** One of the looks fell on this instant, counted from the first look. */
  ghost predicate LookAt(waits: seq<nat>, t: nat) {
    exists i :: 0 <= i <= |waits| && Elapsed(waits[..i]) == t
  }

  /** The loop was over before its window, or looked on the dot. */
  ghost predicate InWindow(window: nat, waits: seq<nat>) {
    Elapsed(waits) < window || LookAt(waits, window)
  }

  lemma ElapsedAppend(waits: seq<nat>, ms: nat)
    ensures Elapsed(waits + [ms]) == Elapsed(waits) + ms
  {
    assert (waits + [ms])[..|waits|] == waits;
  }

  lemma NoWaits(window: nat, step: nat)
    ensures Polls(window, step, []) && Elapsed([]) == 0
  {
  }

  lemma PollsAppend(window: nat, step: nat, waits: seq<nat>, ms: nat)
    ensures Polls(window, step, waits + [ms]) <==> Polls(window, step, waits) && Elapsed(waits) < window && ms <= step
  {
    assert (waits + [ms])[..|waits|] == waits;
  }

  lemma {:induction false} ElapsedGrows(waits: seq<nat>, i: nat)
    requires i <= |waits|
    ensures Elapsed(waits[..i]) <= Elapsed(waits)
    decreases |waits|
  {
    if i == |waits| {
      assert waits[..i] == waits;
    } else {
      ElapsedGrows(waits[..|waits| - 1], i);
      assert waits[..|waits| - 1][..i] == waits[..i];
    }
  }

  /** A loop outlasts its window by less than a step. */
  lemma PollsBounded(window: nat, step: nat, waits: seq<nat>)
    requires Polls(window, step, waits) && step > 0
    ensures Elapsed(waits) <= window + step - 1
  {
  }

  /** A loop keeps to its window exactly when it was over earlier or one of its looks fell on the window's end. */
  lemma WindowKeptExactly(window: nat, step: nat, waits: seq<nat>)
    requires Polls(window, step, waits)
    ensures Elapsed(waits) <= window <==> InWindow(window, waits)
  {
    assert waits[..|waits|] == waits;
    if Elapsed(waits) > window {
      var front := waits[..|waits| - 1];
      forall i | 0 <= i < |waits|
        ensures Elapsed(waits[..i]) < window
      {
        ElapsedGrows(front, i);
        assert front[..i] == waits[..i];
      }
    }
  }

  /** Where no wait is cut short and the window is a whole number of steps, the loop keeps to its window. */
  lemma {:induction false} UncutKeepsWindow(n: nat, step: nat, waits: seq<nat>)
    requires Polls(step * n, step, waits) && forall i :: 0 <= i < |waits| ==> waits[i] == step
    ensures Elapsed(waits) == step * |waits| <= step * n
    decreases |waits|
  {
    if waits != [] {
      UncutKeepsWindow(n, step, waits[..|waits| - 1]);
      OneMoreStep(step, |waits| - 1, n);
    }
  }

  lemma {:induction false} StepsGrow(step: nat, i: nat, n: nat)
    requires i <= n
    ensures step * i <= step * n
    decreases n - i
  {
    if i < n {
      assert step * (i + 1) == step * i + step;
      StepsGrow(step, i + 1, n);
    }
  }

  lemma OneMoreStep(step: nat, i: nat, n: nat)
    requires step * i < step * n
    ensures step * (i + 1) == step * i + step <= step * n
  {
    if n <= i {
      StepsGrow(step, n, i);
      assert false;
    }
    StepsGrow(step, i + 1, n);
  }

  /** One wait cut to `ms`, and `n` whole ones. */
  function CutOnce(ms: nat, step: nat, n: nat): seq<nat> {
    if n == 0 then [ms] else CutOnce(ms, step, n - 1) + [step]
  }

  /** A single wait cut short makes a loop outlast its window, by any part of a step. */
  lemma {:induction false} CutOnceOverruns(ms: nat, step: nat, n: nat, window: nat)
    requires ms < step && step * n <= window && window > 0
    ensures Polls(window, step, CutOnce(ms, step, n)) && Elapsed(CutOnce(ms, step, n)) == step * n + ms
    decreases n
  {
    hide Polls, Elapsed;
    if n == 0 {
      NoWaits(window, step);
      PollsAppend(window, step, [], ms);
      ElapsedAppend([], ms);
      assert [] + [ms] == [ms];
    } else {
      var front := CutOnce(ms, step, n - 1);
      TakeStep(step, n);
      CutOnceOverruns(ms, step, n - 1, window);
      PollsAppend(window, step, front, step);
      ElapsedAppend(front, step);
    }
  }

  lemma TakeStep(step: nat, n: nat)
    requires n > 0
    ensures step * n == step * (n - 1) + step
  {
  }

  // ------------------------------------------------------------------ a sweep

  /**
   When a sweep is answered whose worker was sent the backstop SIGKILL, counted from the fork:
   the waits for its status after the SIGKILL, then the pauses between the end passes.
   */
  function SweptAt(after: seq<nat>, pauses: seq<nat>): nat {
    SWEEP_BACKSTOP_MS + Elapsed(after) + Elapsed(pauses)
  }

  /** What the header says a sweep takes at most. */
  const SWEEP_BOUND_MS: nat := 240000 + 5000 + 5000

  /**
   How long a sweep took. A worker that was not sent the SIGKILL ended by its backstop; one that was
   lost had its whole window, and so had an end pass that missed its bound.
   */
  ghost predicate SweepTook(ms: int, killed: bool, lost: bool, late: bool, after: seq<nat>, pauses: seq<nat>) {
    && Polls(END_KILL_BOUND_MS, END_PASS_INTERVAL_MS, pauses) && (late ==> Elapsed(pauses) >= END_KILL_BOUND_MS)
    && if !killed then ms <= SWEEP_BACKSTOP_MS + Elapsed(pauses)
       else
         && Polls(WAIT_AFTER_KILL_MS, WAIT_STEP_MS, after) && ms == SweptAt(after, pauses)
         && (lost ==> Elapsed(after) >= WAIT_AFTER_KILL_MS)
  }

  /**
   When a sweep keeps to its bound. It does when its worker was not sent the SIGKILL, or the wait
   after it and the end pass both keep to their windows. It does not when neither does. When one
   does, what it leaves of its window has to make up for the other. With the worker lost and the
   end pass late this comes to: exactly when a look fell on the end of the one window and a check
   on the end of the other.
   */
  lemma SweepBoundKeptExactly(ms: int, killed: bool, lost: bool, late: bool, after: seq<nat>, pauses: seq<nat>)
    requires SweepTook(ms, killed, lost, late, after, pauses)
    ensures !killed || (InWindow(WAIT_AFTER_KILL_MS, after) && InWindow(END_KILL_BOUND_MS, pauses)) ==>
      ms <= SWEEP_BOUND_MS
    ensures killed && !InWindow(WAIT_AFTER_KILL_MS, after) && !InWindow(END_KILL_BOUND_MS, pauses) ==>
      ms > SWEEP_BOUND_MS
    ensures killed && (InWindow(WAIT_AFTER_KILL_MS, after) <==> !InWindow(END_KILL_BOUND_MS, pauses)) ==>
      (ms <= SWEEP_BOUND_MS <==> Elapsed(after) - WAIT_AFTER_KILL_MS <= END_KILL_BOUND_MS - Elapsed(pauses))
    ensures killed && lost && late ==>
      (ms <= SWEEP_BOUND_MS <==> LookAt(after, WAIT_AFTER_KILL_MS) && LookAt(pauses, END_KILL_BOUND_MS))
    ensures ms <= SWEEP_BOUND_MS + 49 + 9
  {
    hide Polls, Elapsed, LookAt;
    WindowKeptExactly(END_KILL_BOUND_MS, END_PASS_INTERVAL_MS, pauses);
    PollsBounded(END_KILL_BOUND_MS, END_PASS_INTERVAL_MS, pauses);
    if killed {
      WindowKeptExactly(WAIT_AFTER_KILL_MS, WAIT_STEP_MS, after);
      PollsBounded(WAIT_AFTER_KILL_MS, WAIT_STEP_MS, after);
    }
  }

  /** One wait and one pause cut short make a sweep miss its bound, by every amount up to the largest. */
  lemma SweepOverruns(over: nat) returns (after: seq<nat>, pauses: seq<nat>)
    requires over <= 49 + 9
    ensures SweepTook(SWEEP_BOUND_MS + over, true, true, true, after, pauses)
  {
    hide Polls, Elapsed;
    var ms := if over < WAIT_STEP_MS then over else WAIT_STEP_MS - 1;
    after := CutOnce(ms, WAIT_STEP_MS, WAIT_AFTER_KILL_MS / WAIT_STEP_MS);
    pauses := CutOnce(over - ms, END_PASS_INTERVAL_MS, END_KILL_BOUND_MS / END_PASS_INTERVAL_MS);
    CutOnceOverruns(ms, WAIT_STEP_MS, WAIT_AFTER_KILL_MS / WAIT_STEP_MS, WAIT_AFTER_KILL_MS);
    CutOnceOverruns(over - ms, END_PASS_INTERVAL_MS, END_KILL_BOUND_MS / END_PASS_INTERVAL_MS, END_KILL_BOUND_MS);
  }

  /** Where no signal cuts a wait or a pause short, a sweep keeps to its bound. */
  lemma UncutSweepKeepsBound(ms: int, killed: bool, lost: bool, late: bool, after: seq<nat>, pauses: seq<nat>)
    requires SweepTook(ms, killed, lost, late, after, pauses)
    requires forall i :: 0 <= i < |after| ==> after[i] == WAIT_STEP_MS
    requires forall i :: 0 <= i < |pauses| ==> pauses[i] == END_PASS_INTERVAL_MS
    ensures ms <= SWEEP_BOUND_MS
  {
    hide Polls, Elapsed;
    UncutKeepsWindow(END_KILL_BOUND_MS / END_PASS_INTERVAL_MS, END_PASS_INTERVAL_MS, pauses);
    if killed {
      UncutKeepsWindow(WAIT_AFTER_KILL_MS / WAIT_STEP_MS, WAIT_STEP_MS, after);
    }
  }

  // ------------------------------------------------------------------ a late sweep as the observer sees it

  /** One pass that finds the worker. */
  function VainPass(pid: nat, at: nat): seq<Event> {
    [SignaledAll(9, at), Drained, Counted({pid}), PidsRead(2, at)]
  }

  /**
   A sweep whose worker is sent the SIGKILL at its backstop and never collected: the window after it
   is over `after` later, and the end pass `pauses` after that.
   */
  function LateSweep(pid: nat, req: Request, at: nat, after: nat, pauses: nat): seq<Event> {
    var lost := at + SWEEP_BACKSTOP_MS + after;
    [Forked(pid, Worker(Sweep), at), Killed(pid, 9, at + SWEEP_BACKSTOP_MS), SignaledAll(15, lost)]
    + VainPass(pid, lost) + VainPass(pid, lost + pauses)
    + [Sent(Reply(Sweep, req.gen, req.id, SweepFailed), lost + pauses)]
  }

  /** A sweep was taken and nothing was done about it yet. */
  predicate TookSweep(l: Ledger, req: Request) {
    && l.cur == Some(Ok(req)) && req.kind == Sweep && req.gen == l.gen && l.job == NO_JOB && l.pass == NO_PASS
    && l.runtime.None? && l.notice.None? && !l.doomed && !l.offered && !l.gone && !l.over
  }

  /** The ledger of a sweep whose worker was lost, in its end pass. */
  predicate LostIn(l: Ledger, req: Request, pid: nat, forkAt: nat, pass: Pass) {
    && l.cur == Some(Ok(req)) && req.kind == Sweep && req.gen == l.gen && l.pass == pass && pass.ending
    && l.job == NO_JOB.(worker := Some(pid), spawned := true, forkAt := forkAt, killed := true)
    && l.runtime.None? && l.notice.None? && !l.doomed && !l.offered && !l.gone && !l.over
  }

  /** The pass after a scan that found the worker. */
  function Found(p: Pass, at: nat): Pass {
    var first := if p.firstAt.Some? then p.firstAt.value else at;
    p.(struck := false, firstAt := Some(first), scanned := true, passes := 0,
       late := p.late || at >= first + END_KILL_BOUND_MS)
  }

  lemma WorkerIsLost(run: seq<Event>, l: Ledger, req: Request, pid: nat, at: nat, after: nat) returns (lost: seq<Event>)
    requires Replay(run) == Some(l) && TookSweep(l, req)
    ensures var t := at + SWEEP_BACKSTOP_MS + after;
      && lost == run + [Forked(pid, Worker(Sweep), at), Killed(pid, 9, at + SWEEP_BACKSTOP_MS), SignaledAll(15, t)]
      && Replay(lost).Some? && LostIn(Replay(lost).value, req, pid, at, NO_PASS.(ending := true, termAt := t))
  {
    hide Replay;
    var forked, killed := Forked(pid, Worker(Sweep), at), Killed(pid, 9, at + SWEEP_BACKSTOP_MS);
    var term := SignaledAll(15, at + SWEEP_BACKSTOP_MS + after);
    ReplayAppend(run, forked);
    ReplayAppend(run + [forked], killed);
    ReplayAppend(run + [forked] + [killed], term);
    lost := run + [forked] + [killed] + [term];
    assert lost == run + [forked, killed, term];
  }

  lemma VainSteps(l: Ledger, req: Request, pid: nat, forkAt: nat, p: Pass, at: nat)
    requires LostIn(l, req, pid, forkAt, p) && !p.late && !p.zero && !p.unread && p.termAt <= at
    ensures var struck := l.(pass := Stricken(p, at), drained := false);
      && Step(l, SignaledAll(9, at)) == Some(struck) && Step(struck, Drained) == Some(struck.(drained := true))
      && var counted := struck.(drained := true, pass := Scanned(struck.pass, false));
         && Step(struck.(drained := true), Counted({pid})) == Some(counted)
         && Step(counted, PidsRead(2, at)) == Some(counted.(pass := Found(p, at)))
  {
    var struck := l.(pass := Stricken(p, at), drained := false);
    assert GraceOf(l) == 0;
    assert Step(l, SignaledAll(9, at)) == Some(struck);
  }

  lemma PassesInVain(run: seq<Event>, l: Ledger, req: Request, pid: nat, forkAt: nat, p: Pass, at: nat)
    requires Replay(run) == Some(l) && LostIn(l, req, pid, forkAt, p)
    requires !p.late && !p.zero && !p.unread && p.termAt <= at
    ensures Replay(run + VainPass(pid, at)).Some?
    ensures LostIn(Replay(run + VainPass(pid, at)).value, req, pid, forkAt, Found(p, at))
  {
    hide Replay, Step;
    VainSteps(l, req, pid, forkAt, p, at);
    ReplayAppend(run, SignaledAll(9, at));
    var struck := run + [SignaledAll(9, at)];
    ReplayAppend(struck, Drained);
    ReplayAppend(struck + [Drained], Counted({pid}));
    ReplayAppend(struck + [Drained] + [Counted({pid})], PidsRead(2, at));
    assert run + VainPass(pid, at) == struck + [Drained] + [Counted({pid})] + [PidsRead(2, at)];
  }

  /** The observer accepts such a sweep, for all waits and pauses of two loops that have used up their windows. */
  lemma LateSweepIsAccepted(run: seq<Event>, req: Request, pid: nat, at: nat, after: seq<nat>, pauses: seq<nat>)
    requires Accepted(run) && TookSweep(Replay(run).value, req)
    requires SweepTook(SweptAt(after, pauses), true, true, true, after, pauses)
    ensures Accepted(run + LateSweep(pid, req, at, Elapsed(after), Elapsed(pauses)))
    ensures LateSweep(pid, req, at, Elapsed(after), Elapsed(pauses))[11].at == at + SweptAt(after, pauses)
  {
    hide Replay, Step, Polls, Elapsed;
    var e, f := Elapsed(after), Elapsed(pauses);
    var t := at + SWEEP_BACKSTOP_MS + e;
    var lost := WorkerIsLost(run, Replay(run).value, req, pid, at, e);
    var p := NO_PASS.(ending := true, termAt := t);
    PassesInVain(lost, Replay(lost).value, req, pid, at, p, t);
    var once := lost + VainPass(pid, t);
    PassesInVain(once, Replay(once).value, req, pid, at, Found(p, t), t + f);
    var twice := once + VainPass(pid, t + f);
    LateReply(twice, Replay(twice).value, req, pid, at, Found(Found(p, t), t + f), t + f);
    assert run + LateSweep(pid, req, at, e, f) == twice + [Sent(Reply(Sweep, req.gen, req.id, SweepFailed), t + f)];
  }

  lemma LateReply(run: seq<Event>, l: Ledger, req: Request, pid: nat, forkAt: nat, p: Pass, at: nat)
    requires Replay(run) == Some(l) && LostIn(l, req, pid, forkAt, p)
    requires at >= forkAt + SWEEP_BACKSTOP_MS + WAIT_AFTER_KILL_MS
    ensures Accepted(run + [Sent(Reply(Sweep, req.gen, req.id, SweepFailed), at)])
  {
    hide Replay;
    ReplayAppend(run, Sent(Reply(Sweep, req.gen, req.id, SweepFailed), at));
  }
}
