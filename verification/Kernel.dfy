/**
 The kernel side of the supervisor: the process table, the pending signals and the two
 flags their handler sets, the clock, and the connection. Everything another process, the
 peer or time can do is an environment step. A finite script holds those steps in batches;
 each system call takes effect at once and then lets one batch run, so a statement proved
 for every script holds for every interleaving. When the script is used up the observation
 ends inside that call.
 */
module Kernel {
  import opened Base
  import opened Messages
  import opened Signals
  import opened Protocol
  import Templates

  const CLOCK_LIMIT: nat := 0x8000_0000_0000_0000

  /** A process other than the supervisor. A child is one wait4 can collect. */
  datatype Proc = Proc(child: bool, zombie: bool, status: nat, launched: bool)

  datatype EnvStep =
    | Spawns(pid: nat)               // another process forks, or one enters the namespace
    | Exits(pid: nat, status: nat)
    | Orphaned(pid: nat)             // its parent ended: the namespace init adopts it
    | ReapedByParent(pid: nat)
    | Raises(sig: int)
    | Handles(sig: int)              // the handler of an unblocked pending signal runs
    | Ticks(ms: nat)
    | PeerWrites(bytes: seq<byte>)
    | PeerCloses

  datatype World = World(
    table: map<nat, Proc>,
    pending: set<int>,
    blocked: set<int>,
    sigchldFlag: bool,
    signalFlag: bool,
    clock: nat,
    busy: nat,                       // clock time that passed outside ppoll
    inbox: seq<byte>,
    closed: bool,
    script: seq<seq<EnvStep>>)

  ghost predicate WellFormed(w: World) {
    && (forall p <- w.table :: p > 1)
    && (forall p <- w.table :: w.table[p].launched ==> w.table[p].child)
    && w.clock < CLOCK_LIMIT
  }

  /** Children that exited and were not collected. */
  function ExitedChildren(t: map<nat, Proc>): set<nat> {
    set p | p in t && t[p].child && t[p].zombie
  }

  predicate HasChildren(t: map<nat, Proc>) {
    exists p <- t :: t[p].child
  }

  function EnvStepOf(w: World, s: EnvStep): World {
    match s
    case Spawns(pid) =>
      if pid > 1 && pid !in w.table then w.(table := w.table[pid := Proc(false, false, 0, false)]) else w
    case Exits(pid, status) =>
      if pid in w.table && !w.table[pid].zombie then
        w.(table := w.table[pid := w.table[pid].(zombie := true, status := status)],
           pending := if w.table[pid].child then w.pending + {SIGCHLD} else w.pending)
      else w
    case Orphaned(pid) =>
      if pid in w.table && !w.table[pid].child then
        w.(table := w.table[pid := w.table[pid].(child := true)],
           pending := if w.table[pid].zombie then w.pending + {SIGCHLD} else w.pending)
      else w
    case ReapedByParent(pid) =>
      if pid in w.table && !w.table[pid].child && w.table[pid].zombie then w.(table := w.table - {pid}) else w
    case Raises(sig) =>
      if 1 <= sig < NSIG then w.(pending := w.pending + {sig}) else w
    case Handles(sig) =>
      if sig in w.pending && sig !in w.blocked && IsHandled(sig) then Handle(w, sig) else w
    case Ticks(ms) =>
      if w.clock + ms < CLOCK_LIMIT then w.(clock := w.clock + ms) else w
    case PeerWrites(bytes) =>
      if w.closed then w else w.(inbox := w.inbox + bytes)
    case PeerCloses => w.(closed := true)
  }

  /** The only action of every handler: record that the signal arrived. */
  function Handle(w: World, sig: int): World {
    if sig == SIGCHLD then w.(pending := w.pending - {sig}, sigchldFlag := true)
    else w.(pending := w.pending - {sig}, signalFlag := true)
  }

  function Batch(w: World, steps: seq<EnvStep>): World
    decreases |steps|
  {
    if steps == [] then w else Batch(EnvStepOf(w, steps[0]), steps[1..])
  }

  /** What no environment step undoes in the table: children stay until they are collected. */
  ghost predicate TableEvolves(a: map<nat, Proc>, b: map<nat, Proc>) {
    && (forall p <- a :: a[p].child ==>
          && p in b && b[p].child && b[p].launched == a[p].launched
          && (a[p].zombie ==> b[p] == a[p]))
    && (forall p <- b :: b[p].launched ==> p in a && a[p].launched)
    && (forall p <- b :: p > 1 && (b[p].launched ==> b[p].child))
  }

  /** A child exit leaves SIGCHLD pending, or its handler ran and set the flag. */
  ghost predicate Noticed(a: World, b: World) {
    && (SIGCHLD in b.pending || b.sigchldFlag || ExitedChildren(b.table) <= ExitedChildren(a.table))
    && (SIGCHLD in a.pending || a.sigchldFlag ==> SIGCHLD in b.pending || b.sigchldFlag)
  }

  /** What no batch can undo, whatever the mask. */
  ghost predicate Evolves(a: World, b: World) {
    && TableEvolves(a.table, b.table)
    && Noticed(a, b)
    && (a.sigchldFlag ==> b.sigchldFlag)
    && (SIGCHLD in a.blocked ==> b.sigchldFlag == a.sigchldFlag)
    && b.blocked == a.blocked
    && a.clock <= b.clock < CLOCK_LIMIT
    && a.inbox <= b.inbox
    && (a.closed ==> b.closed && a.inbox == b.inbox)
  }

  /** One batch outside ppoll: the time it takes is the supervisor's own. */
  ghost predicate Passes(a: World, b: World) {
    Evolves(a, b) && b.busy - a.busy == b.clock - a.clock
  }

  /** One batch inside ppoll. A call that reports no event has run every pending handler. */
  ghost predicate Slept(a: World, b: World, timeout: Option<nat>, ready: bool) {
    && TableEvolves(a.table, b.table)
    && Noticed(a, b)
    && (a.sigchldFlag ==> b.sigchldFlag)
    && b.blocked == a.blocked
    && a.clock <= b.clock < CLOCK_LIMIT
    && (timeout.Some? ==> b.clock <= a.clock + timeout.value)
    && b.busy == a.busy
    && a.inbox <= b.inbox
    && (a.closed ==> b.closed && a.inbox == b.inbox)
    && (!ready ==> SIGCHLD !in b.pending)
  }

  lemma StepTable(a: World, s: EnvStep)
    requires WellFormed(a)
    ensures TableEvolves(a.table, EnvStepOf(a, s).table)
  {
  }

  lemma StepNoticed(a: World, s: EnvStep)
    ensures Noticed(a, EnvStepOf(a, s))
  {
    var b := EnvStepOf(a, s);
    if SIGCHLD !in b.pending && !b.sigchldFlag {
      forall p | p in ExitedChildren(b.table)
        ensures p in ExitedChildren(a.table)
      {
      }
    }
  }

  lemma StepEvolves(a: World, s: EnvStep)
    requires WellFormed(a)
    ensures Evolves(a, EnvStepOf(a, s))
  {
    StepTable(a, s);
    StepNoticed(a, s);
  }

  lemma EvolvesReflexive(a: World)
    requires WellFormed(a)
    ensures Evolves(a, a)
  {
  }

  lemma EvolvesTransitive(a: World, b: World, c: World)
    requires Evolves(a, b) && Evolves(b, c)
    ensures Evolves(a, c)
  {
  }

  lemma {:induction false} BatchEvolves(a: World, steps: seq<EnvStep>)
    requires WellFormed(a)
    ensures Evolves(a, Batch(a, steps))
    decreases |steps|
  {
    if steps != [] {
      StepEvolves(a, steps[0]);
      BatchEvolves(EnvStepOf(a, steps[0]), steps[1..]);
      EvolvesTransitive(a, EnvStepOf(a, steps[0]), Batch(a, steps));
    }
  }

  lemma {:induction false} BatchKeepsScript(a: World, steps: seq<EnvStep>)
    ensures Batch(a, steps).script == a.script && Batch(a, steps).busy == a.busy
    decreases |steps|
  {
    if steps != [] {
      BatchKeepsScript(EnvStepOf(a, steps[0]), steps[1..]);
    }
  }

  lemma FreshPid(t: map<nat, Proc>)
    ensures exists pid: nat :: pid > 1 && pid !in t
  {
    var pid := Largest(t.Keys) + 2;
    assert pid > 1 && pid !in t;
  }

  predicate Ready(w: World, watchInput: bool) {
    w.closed || (watchInput && w.inbox != [])
  }

  /** The batch of one ppoll: it runs with only the fault signals blocked. */
  function PollBatch(w: World): World
    requires w.script != []
  {
    Batch(w.(blocked := FaultMask(), script := w.script[1..]), w.script[0]).(blocked := w.blocked)
  }

  /** The world ppoll returns in: no later than its timeout, and after every handler when no event is ready. */
  function PollWorld(w: World, watchInput: bool, timeout: Option<nat>): World
    requires w.script != []
  {
    var b := PollBatch(w);
    var c := if timeout.Some? && w.clock + timeout.value < b.clock then b.(clock := w.clock + timeout.value) else b;
    if Ready(c, watchInput) then c
    else c.(sigchldFlag := c.sigchldFlag || SIGCHLD in c.pending,
            signalFlag := c.signalFlag || c.pending * Handled() - {SIGCHLD} != {},
            pending := c.pending - Handled())
  }

  lemma PollSlept(w: World, watchInput: bool, timeout: Option<nat>)
    requires w.script != [] && WellFormed(w)
    ensures var b := PollWorld(w, watchInput, timeout);
            && Slept(w, b, timeout, Ready(b, watchInput))
            && b.script == w.script[1..]
            && WellFormed(b)
  {
    var entry := w.(blocked := FaultMask(), script := w.script[1..]);
    BatchEvolves(entry, w.script[0]);
    BatchKeepsScript(entry, w.script[0]);
  }

  lemma SleptNot(w: World, timeout: Option<nat>)
    requires WellFormed(w)
    ensures Slept(w, w, timeout, true)
  {
  }

  /** A SIGCHLD may end a wait after any time up to its timeout and leave nothing new to collect. */
  lemma WaitMayEndAnywhere(w: World, timeout: nat, ms: nat)
    requires w.script != [] && w.script[0] == [Ticks(ms), Raises(SIGCHLD)]
    requires ms <= timeout && w.clock + ms < CLOCK_LIMIT && !w.closed
    ensures var b := PollWorld(w, false, Some(timeout));
      b.clock == w.clock + ms && b.busy == w.busy && b.table == w.table && !Ready(b, false)
  {
    var entry := w.(blocked := FaultMask(), script := w.script[1..]);
    var ticked := EnvStepOf(entry, Ticks(ms));
    assert w.script[0][1..] == [Raises(SIGCHLD)];
    assert Batch(ticked, [Raises(SIGCHLD)]) == EnvStepOf(ticked, Raises(SIGCHLD));
    assert Batch(entry, w.script[0]) == EnvStepOf(ticked, Raises(SIGCHLD));
  }

  const ECHILD := 10

  class Sys {
    var w: World
    var stopped: bool
    ghost var log: seq<Event>
    ghost var led: Option<Ledger>

    ghost predicate Valid()
      reads this
    {
      && WellFormed(w)
      && w.blocked == Handled() + FaultMask()
      && led == Replay(log)
    }

    constructor (world: World)
      requires WellFormed(world) && world.blocked == Handled() + FaultMask()
      ensures Valid() && w == world && !stopped && log == []
    {
      w := world;
      stopped := false;
      log := [];
      led := Some(START);
    }

    ghost method Record(e: Event)
      requires led == Replay(log)
      modifies this`log, this`led
      ensures log == old(log) + [e]
      ensures led == Apply(old(led), e) == Replay(log)
    {
      ReplayAppend(log, e);
      log := log + [e];
      led := Apply(led, e);
    }

    method Interleave()
      requires Valid() && !stopped
      modifies this`w, this`stopped
      ensures Valid()
      ensures Passes(old(w), w)
      ensures !stopped ==> |w.script| < |old(w).script|
    {
      if w.script == [] {
        stopped := true;
      } else {
        BatchEvolves(w.(script := w.script[1..]), w.script[0]);
        var next := Batch(w.(script := w.script[1..]), w.script[0]);
        BatchKeepsScript(w.(script := w.script[1..]), w.script[0]);
        w := next.(busy := w.busy + (next.clock - w.clock));
      }
    }

    method Now() returns (t: nat)
      requires Valid() && !stopped
      modifies this`w, this`stopped
      ensures Valid()
      ensures t == old(w).clock && Passes(old(w), w)
      ensures !stopped ==> |w.script| < |old(w).script|
    {
      t := w.clock;
      Interleave();
    }

    method Exit(code: nat)
      requires Valid() && !stopped
      modifies this
      ensures Valid() && stopped
      ensures log == old(log) + [Stopped(code)] && led == Apply(old(led), Stopped(code))
      ensures w == old(w)
    {
      Record(Stopped(code));
      stopped := true;
    }

    /** The supervisor's own write to the flag its handler sets. */
    method ClearSigchldFlag()
      requires Valid()
      modifies this`w
      ensures Valid()
      ensures w == old(w).(sigchldFlag := false)
    {
      w := w.(sigchldFlag := false);
    }

    /** kill(-1, sig): every other process of the namespace. */
    method SignalAll(sig: int)
      requires Valid() && !stopped
      modifies this
      ensures Valid()
      ensures Passes(old(w), w)
      ensures !stopped ==> |w.script| < |old(w).script|
      ensures var e := SignaledAll(sig, old(w).clock); log == old(log) + [e] && led == Apply(old(led), e)
    {
      Record(SignaledAll(sig, w.clock));
      Interleave();
    }

    /** kill(pid, sig). */
    method Kill(pid: nat, sig: int)
      requires Valid() && !stopped
      modifies this
      ensures Valid()
      ensures Passes(old(w), w)
      ensures !stopped ==> |w.script| < |old(w).script|
      ensures var e := Killed(pid, sig, old(w).clock); log == old(log) + [e] && led == Apply(old(led), e)
    {
      Record(Killed(pid, sig, w.clock));
      Interleave();
    }

    /** wait4(-1, WNOHANG): any exited child, 0 when none has exited, -ECHILD without children. */
    method Wait4() returns (r: int, status: nat)
      requires Valid() && !stopped
      modifies this
      ensures Valid()
      ensures r <= 0 || r as nat in ExitedChildren(old(w).table)
      ensures r > 0 ==> status == old(w).table[r].status
      ensures r > 0 ==> Passes(old(w).(table := old(w).table - {r}), w)
      ensures r > 0 ==> log == old(log) + [Collected(r, status)] && led == Apply(old(led), Collected(r, status))
      ensures r <= 0 ==> Passes(old(w), w) && log == old(log) + [Drained] && led == Apply(old(led), Drained)
      ensures r <= 0 ==> ExitedChildren(old(w).table) == {}
      ensures r == -ECHILD <==> !HasChildren(old(w).table)
      ensures r == 0 || r > 0 || r == -ECHILD
      ensures !stopped ==> |w.script| < |old(w).script|
    {
      if ExitedChildren(w.table) != {} {
        var pid :| pid in ExitedChildren(w.table);
        status := w.table[pid].status;
        w := w.(table := w.table - {pid});
        Record(Collected(pid, status));
        r := pid;
      } else {
        status := 0;
        r := if HasChildren(w.table) then 0 else -ECHILD;
        Record(Drained);
      }
      Interleave();
    }

    /** One scan of /proc: every entry but the supervisor's own, zombies included. */
    method CountOthers() returns (n: int)
      requires Valid() && !stopped
      modifies this
      ensures Valid()
      ensures Passes(old(w), w)
      ensures !stopped ==> |w.script| < |old(w).script|
      ensures n < 0 ==> log == old(log) + [CountFailed] && led == Apply(old(led), CountFailed)
      ensures n >= 0 ==> n == |old(w).table| && log == old(log) + [Counted(old(w).table.Keys)]
                         && led == Apply(old(led), Counted(old(w).table.Keys))
    {
      var readable: bool := *;
      if readable {
        n := |w.table|;
        Record(Counted(w.table.Keys));
      } else {
        n := -1;
        Record(CountFailed);
      }
      Interleave();
    }

    /** The value of pids.current, whatever it is; negative when it cannot be read. */
    method PidsCurrent() returns (value: int)
      requires Valid() && !stopped
      modifies this
      ensures Valid()
      ensures Passes(old(w), w)
      ensures !stopped ==> |w.script| < |old(w).script|
      ensures log == old(log) + [PidsRead(value, old(w).clock)] && led == Apply(old(led), PidsRead(value, old(w).clock))
    {
      value := *;
      Record(PidsRead(value, w.clock));
      Interleave();
    }

    /** A failed fork returns a negative number. */
    method Fork(role: Role) returns (pid: int)
      requires Valid() && !stopped
      modifies this
      ensures Valid()
      ensures pid < 0 || (pid > 1 && pid !in old(w).table)
      ensures pid < 0 ==> Passes(old(w), w) && log == old(log) + [Refused(role)] && led == Apply(old(led), Refused(role))
      ensures pid > 0 ==>
        && Passes(old(w).(table := old(w).table[pid := Proc(true, false, 0, role == RuntimeProcess)]), w)
        && log == old(log) + [Forked(pid, role, old(w).clock)] && led == Apply(old(led), Forked(pid, role, old(w).clock))
      ensures !stopped ==> |w.script| < |old(w).script|
    {
      hide Step, Replay, TableEvolves, Noticed, HasChildren, ExitedChildren;
      var possible: bool := *;
      if possible {
        FreshPid(w.table);
        var newPid: nat :| newPid > 1 && newPid !in w.table;
        w := w.(table := w.table[newPid := Proc(true, false, 0, role == RuntimeProcess)]);
        Record(Forked(newPid, role, w.clock));
        pid := newPid;
      } else {
        pid := -1;
        Record(Refused(role));
      }
      Interleave();
    }

    /** The pipe a launch needs; without it nothing is forked. */
    method Pipe() returns (ok: bool)
      requires Valid() && !stopped
      modifies this
      ensures Valid() && Passes(old(w), w)
      ensures ok ==> log == old(log) && led == old(led)
      ensures !ok ==> log == old(log) + [Refused(RuntimeProcess)] && led == Apply(old(led), Refused(RuntimeProcess))
      ensures !stopped ==> |w.script| < |old(w).script|
    {
      ok := *;
      if !ok {
        Record(Refused(RuntimeProcess));
      }
      Interleave();
    }

    /** What the launched program's exec left in the pipe: nothing, or its errno. */
    method ReadExec() returns (failed: bool)
      requires Valid() && !stopped
      modifies this
      ensures Valid() && Passes(old(w), w)
      ensures log == old(log) + [Execed(!failed)] && led == Apply(old(led), Execed(!failed))
      ensures !stopped ==> |w.script| < |old(w).script|
    {
      failed := *;
      Record(Execed(!failed));
      Interleave();
    }

    /** The handled signals are unblocked here and nowhere else. */
    method Ppoll(watchInput: bool, timeout: Option<nat>) returns (ready: bool)
      requires Valid() && !stopped
      modifies this
      ensures Valid()
      ensures Slept(old(w), w, timeout, ready || stopped)
      ensures !stopped ==> |w.script| < |old(w).script|
      ensures !stopped ==> ready == Ready(w, watchInput)
      ensures var e := Waits(ExitedChildren(old(w).table), SIGCHLD in old(w).pending, watchInput, timeout, old(w).clock);
              var found := if watchInput then Offered else HungUp;
              if ready then log == old(log) + [e, found] && led == Apply(Apply(old(led), e), found)
              else log == old(log) + [e] && led == Apply(old(led), e)
    {
      hide Step, Replay, TableEvolves, PollWorld, Batch, EnvStepOf;
      Record(Waits(ExitedChildren(w.table), SIGCHLD in w.pending, watchInput, timeout, w.clock));
      if w.script == [] {
        SleptNot(w, timeout);
        stopped := true;
        ready := false;
      } else {
        PollSlept(w, watchInput, timeout);
        w := PollWorld(w, watchInput, timeout);
        ready := Ready(w, watchInput);
        if ready {
          Record(if watchInput then Offered else HungUp);
        }
      }
    }

    /** A blocking read of at most room bytes; empty at the end of the stream or on an error. */
    method Read(room: nat) returns (bytes: seq<byte>)
      requires Valid() && !stopped && room > 0
      modifies this
      ensures Valid()
      ensures |bytes| <= room && bytes <= old(w).inbox
      ensures bytes == [] ==> Passes(old(w), w) && log == old(log) + [HungUp] && led == Apply(old(led), HungUp)
      ensures bytes != [] ==>
        && Passes(old(w).(inbox := old(w).inbox[|bytes|..]), w)
        && log == old(log) + [Received(bytes)] && led == Apply(old(led), Received(bytes))
      ensures !stopped ==> |w.script| < |old(w).script|
    {
      var n: nat :| n <= room && n <= |w.inbox|;
      bytes := w.inbox[..n];
      if n > 0 {
        w := w.(inbox := w.inbox[n..]);
        Record(Received(bytes));
      } else {
        Record(HungUp);
      }
      Interleave();
    }

    /** Writes the bytes of a message; what is recorded is the message. */
    method Write(bytes: seq<byte>, msg: Message) returns (ok: bool)
      requires Valid() && !stopped && (Templates.InRange(msg) ==> bytes == Templates.Rendered(msg))
      modifies this
      ensures Valid()
      ensures Passes(old(w), w)
      ensures ok ==> log == old(log) + [Sent(msg, old(w).clock)] && led == Apply(old(led), Sent(msg, old(w).clock))
      ensures !ok ==> log == old(log) + [HungUp] && led == Apply(old(led), HungUp)
      ensures !stopped ==> |w.script| < |old(w).script|
    {
      ok := *;
      if ok {
        Record(Sent(msg, w.clock));
      } else {
        Record(HungUp);
      }
      Interleave();
    }
  }
}
