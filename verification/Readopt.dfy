/**
 Crash takeover: a replica that acquired a session's coordination lease dials the pod that still
 runs, fences it, and publishes the connection. Other takeovers and evictions run in between.
 */
module Readopt {
  import opened Base
  import opened Connections

  /** The session row, and what the session's pool was resolved to. */
  datatype SessionRow = SessionRow(session: string, tenant: string, pod: string)
  datatype Match = Match(recycle: bool, cleanupCommands: seq<seq<string>>, cleanupTimeout: int, maxConcurrentSessions: int)

  datatype ServingBinding = ServingBinding(
    session: string, tenant: string, pod: string, podIP: string, conn: Conn, recycle: bool,
    cleanupCommands: seq<seq<string>>, cleanupTimeout: int, generation: int, slot: string)

  /** The binding a takeover publishes; a pool of shared pods gets a slot named after the session. */
  function BindingOf(row: SessionRow, pool: Match, podIP: string, conn: Conn, generation: int): (b: ServingBinding)
    ensures b.conn == conn && b.generation == generation && b.session == row.session
    ensures b.slot == "" || (b.slot == b.session && pool.maxConcurrentSessions > 1)
    ensures pool.maxConcurrentSessions > 1 ==> b.slot == row.session
  {
    ServingBinding(row.session, row.tenant, row.pod, podIP, conn, pool.recycle, pool.cleanupCommands, pool.cleanupTimeout,
            generation, if pool.maxConcurrentSessions > 1 then row.session else "")
  }

  /** The binding holds what the session row, its pool and the dialed pod told, each in its place. */
  predicate Carries(b: ServingBinding, row: SessionRow, pool: Match, podIP: string) {
    && (b.session, b.tenant, b.pod, b.podIP) == (row.session, row.tenant, row.pod, podIP)
    && (b.recycle, b.cleanupCommands, b.cleanupTimeout) == (pool.recycle, pool.cleanupCommands, pool.cleanupTimeout)
    && b.slot == if pool.maxConcurrentSessions > 1 then row.session else ""
  }

  datatype PodAnswer = Accepted | Stale | Transient

  // ------------------------------------------------------------------ the fence

  /** What the fencer hears: the session's generation, its context, and the pod's answers. */
  datatype Heard = Generation(ok: bool, gen: int) | Cancelled(yes: bool) | Answered(gen: int, answer: PodAnswer)

  /** How far a fence has come. */
  datatype Fencing =
    | Reading
    | Checking(gen: int, attempt: nat)
    | Calling(gen: int, attempt: nat)
    | Rereading(gen: int, attempt: nat)
    | Fenced(at: int)
    | Faulted
    | GivenUp

  /** The next attempt, or giving up when there is none left. */
  function Onward(gen: int, attempt: nat, max: nat): Fencing {
    if attempt <= max then Checking(gen, attempt) else GivenUp
  }

  function Hear(f: Fencing, h: Heard, max: nat): Option<Fencing> {
    match f
    case Reading =>
      if !h.Generation? then None
      else if !h.ok then Some(Faulted)
      else Some(Onward(if h.gen <= 0 then 1 else h.gen, 1, max))
    case Checking(gen, attempt) =>
      if h.Cancelled? then Some(if h.yes then Faulted else Calling(gen, attempt)) else None
    case Calling(gen, attempt) =>
      if !h.Answered? || h.gen != gen then None
      else if h.answer.Accepted? then Some(Fenced(gen))
      else if h.answer.Stale? then Some(Rereading(gen, attempt))
      else Some(Onward(gen, attempt + 1, max))
    case Rereading(gen, attempt) =>
      if !h.Generation? then None
      else if h.ok && h.gen > gen then Some(Onward(h.gen, attempt + 1, max))
      else Some(GivenUp)
    case _ => None
  }

  function Hears(heard: seq<Heard>, max: nat): Option<Fencing> {
    if heard == [] then Some(Reading)
    else
      var f := Hears(heard[..|heard| - 1], max);
      if f.None? then None else Hear(f.value, heard[|heard| - 1], max)
  }

  lemma HearsMore(heard: seq<Heard>, h: Heard, max: nat)
    ensures Hears(heard + [h], max) ==
      var f := Hears(heard, max); if f.None? then None else Hear(f.value, h, max)
  {
    assert (heard + [h])[..|heard|] == heard;
  }

  lemma Starts(heard: seq<Heard>, max: nat)
    requires |heard| == 1
    ensures Hears(heard, max) == Hear(Reading, heard[0], max)
  {
    assert heard[..0] == [];
  }

  /** The generations announced to the pod, in order. */
  function Announced(heard: seq<Heard>): seq<int> {
    if heard == [] then []
    else
      var before, h := Announced(heard[..|heard| - 1]), heard[|heard| - 1];
      if h.Answered? then before + [h.gen] else before
  }

  /** The generation a fence will announce next is the largest so far, and the attempts are counted. */
  ghost predicate Rising(f: Fencing, announced: seq<int>, max: nat) {
    && (forall i :: 0 <= i < |announced| ==> announced[i] >= 1)
    && (forall i, j :: 0 <= i < j < |announced| ==> announced[i] <= announced[j])
    && |announced| <= max
    && match f
       case Reading => announced == []
       case Checking(gen, attempt) => Ahead(announced, gen) && |announced| == attempt - 1 && 1 <= attempt <= max
       case Calling(gen, attempt) => Ahead(announced, gen) && |announced| == attempt - 1 && 1 <= attempt <= max
       case Rereading(gen, attempt) => Ahead(announced, gen) && |announced| == attempt && 1 <= attempt <= max
       case Fenced(at) => announced != [] && announced[|announced| - 1] == at
       case _ => true
  }

  ghost predicate Ahead(announced: seq<int>, gen: int) {
    gen >= 1 && forall i :: 0 <= i < |announced| ==> announced[i] <= gen
  }

  /** Whatever is heard, announced generations never fall, and there are no more attempts than allowed. */
  lemma {:induction false} FenceRises(heard: seq<Heard>, max: nat)
    requires Hears(heard, max).Some?
    ensures Rising(Hears(heard, max).value, Announced(heard), max)
  {
    if heard != [] {
      FenceRises(heard[..|heard| - 1], max);
    }
  }

  // ------------------------------------------------------------------ what every log of a fence shows

  /** The generation the store told last. */
  function LastRead(heard: seq<Heard>): Option<int> {
    if heard == [] then None
    else
      var h := heard[|heard| - 1];
      if h.Generation? && h.ok then Some(h.gen) else LastRead(heard[..|heard| - 1])
  }

  /** The generation to announce: the one read last, and 1 for a row that was not stamped yet. */
  predicate ToAnnounce(heard: seq<Heard>, gen: int) {
    var r := LastRead(heard);
    r.Some? && gen == if r.value <= 0 then 1 else r.value
  }

  /** The pod called the generation of this entry stale. */
  predicate StaleAt(heard: seq<Heard>, i: int) {
    0 <= i < |heard| && heard[i].Answered? && heard[i].answer.Stale?
  }

  /** An entry of the log fits what came before it, and goes with what comes after it. */
  ghost predicate Fits(heard: seq<Heard>, i: nat, max: nat)
    requires i < |heard|
  {
    var last := i + 1 == |heard|;
    match heard[i]
    case Generation(ok, gen) =>
      && (i == 0 || StaleAt(heard, i - 1))
      && (!last ==> ok && heard[i + 1].Cancelled?)
      && (!last && i > 0 ==> gen > heard[i - 1].gen && |Announced(heard[..i])| < max)
    case Cancelled(yes) => i > 0 && (!last ==> !yes && heard[i + 1].Answered?)
    case Answered(gen, answer) =>
      && i > 0 && heard[i - 1] == Cancelled(false) && ToAnnounce(heard[..i], gen)
      && match answer
         case Accepted => last
         case Stale => !last ==> heard[i + 1].Generation?
         case Transient => !last ==> heard[i + 1].Cancelled? && |Announced(heard[..i + 1])| < max
  }

  /** The fence ended because the session's generation could not be read at first, or its context was over. */
  predicate EndedInFault(heard: seq<Heard>) {
    heard != [] &&
    var h := heard[|heard| - 1];
    h == Cancelled(true) || (|heard| == 1 && h.Generation? && !h.ok)
  }

  /** It ended because the attempts ran out, or a stale answer was not explained by a higher generation. */
  predicate EndedInVain(heard: seq<Heard>, max: nat) {
    heard != [] &&
    var n, h := |heard| - 1, heard[|heard| - 1];
    || (h.Answered? && h.answer.Transient? && |Announced(heard)| >= max)
    || (n > 0 && h.Generation? && StaleAt(heard, n - 1) && (!h.ok || h.gen <= heard[n - 1].gen || |Announced(heard)| >= max))
  }

  /** It ended with the pod's acknowledgement of a generation. */
  predicate EndedFenced(heard: seq<Heard>, gen: int) {
    heard != [] && heard[|heard| - 1] == Answered(gen, Accepted) && ToAnnounce(heard, gen)
  }

  /** What a state of the fence says of the log. */
  ghost predicate Tells(f: Fencing, heard: seq<Heard>, max: nat) {
    match f
    case Reading => heard == []
    case Checking(gen, attempt) =>
      && heard != [] && ToAnnounce(heard, gen) && |Announced(heard)| == attempt - 1 < max
      && var h := heard[|heard| - 1];
         (h.Answered? && h.answer.Transient?)
         || (h.Generation? && h.ok && (|heard| > 1 ==> StaleAt(heard, |heard| - 2) && h.gen > heard[|heard| - 2].gen))
    case Calling(gen, attempt) =>
      && heard != [] && heard[|heard| - 1] == Cancelled(false)
      && ToAnnounce(heard, gen) && |Announced(heard)| == attempt - 1 < max
    case Rereading(gen, attempt) =>
      heard != [] && heard[|heard| - 1] == Answered(gen, Stale) && ToAnnounce(heard, gen) && |Announced(heard)| == attempt
    case Fenced(at) => EndedFenced(heard, at)
    case Faulted => EndedInFault(heard)
    case GivenUp => EndedInVain(heard, max)
  }

  lemma {:induction false} FenceTells(heard: seq<Heard>, max: nat)
    requires Hears(heard, max).Some? && max >= 1
    ensures Tells(Hears(heard, max).value, heard, max)
    decreases |heard|
  {
    if heard != [] {
      var front := heard[..|heard| - 1];
      FenceTells(front, max);
      TellsOn(Hears(front, max).value, front, heard[|heard| - 1], max);
      assert front + [heard[|heard| - 1]] == heard;
    }
  }

  lemma TellsOn(f: Fencing, front: seq<Heard>, h: Heard, max: nat)
    requires Tells(f, front, max) && Hear(f, h, max).Some? && max >= 1
    ensures Tells(Hear(f, h, max).value, front + [h], max)
  {
    var heard := front + [h];
    assert heard[..|front|] == front;
    if f.Reading? {
      assert Announced([]) == [];
    }
  }

  lemma {:induction false} HearsPrefix(heard: seq<Heard>, i: nat, max: nat)
    requires Hears(heard, max).Some? && i <= |heard|
    ensures Hears(heard[..i], max).Some?
    decreases |heard|
  {
    hide Hear;
    if i < |heard| {
      var front := heard[..|heard| - 1];
      HearsPrefix(front, i, max);
      assert front[..i] == heard[..i];
    } else {
      assert heard[..i] == heard;
    }
  }

  /**
   Every log of a fence. Each announced generation is the one last read from the store, or 1 when
   that is not positive. A transient answer is followed by the same announcement while attempts are
   left, a stale one by a reading, and that by an announcement only if it is higher.
   */
  lemma FenceFollowsTheStore(heard: seq<Heard>, max: nat)
    requires Hears(heard, max).Some? && max >= 1
    ensures forall i :: 0 <= i < |heard| ==> Fits(heard, i, max)
  {
    forall i | 0 <= i < |heard|
      ensures Fits(heard, i, max)
    {
      EntryFits(heard, i, max);
    }
  }

  /** How a fence that is over ended, as its log shows. */
  lemma FenceEnds(heard: seq<Heard>, max: nat)
    requires Hears(heard, max).Some? && max >= 1
    ensures forall i :: 0 <= i < |heard| ==> Fits(heard, i, max)
    ensures match Hears(heard, max).value
      case Fenced(at) => EndedFenced(heard, at)
      case Faulted => EndedInFault(heard)
      case GivenUp => EndedInVain(heard, max)
      case _ => true
  {
    hide Fits, EndedFenced, EndedInVain, EndedInFault, Hears;
    FenceFollowsTheStore(heard, max);
    FenceTells(heard, max);
  }

  lemma EntryFits(heard: seq<Heard>, i: nat, max: nat)
    requires Hears(heard, max).Some? && max >= 1 && i < |heard|
    ensures Fits(heard, i, max)
  {
    var a := heard[..i];
    HearsPrefix(heard, i, max);
    HearsPrefix(heard, i + 1, max);
    FenceTells(a, max);
    FenceTells(heard[..i + 1], max);
    assert heard[..i + 1][..i] == a && heard[..i + 1][i] == heard[i];
    if i + 1 < |heard| {
      HearsPrefix(heard, i + 2, max);
      assert heard[..i + 2][..i + 1] == heard[..i + 1] && heard[..i + 2][i + 1] == heard[i + 1];
    }
  }

  // ------------------------------------------------------------------ the takeover

  const ROW_READ := 0
  const POOL_RESOLVED := 1
  const POD_DIALED := 2
  const POD_FENCED := 3

  datatype Stage = Stage(step: nat, ok: bool)

  /** The four steps of a takeover were taken in order, each only after the one before went well. */
  ghost predicate Went(t: seq<Stage>, ok: bool) {
    && 1 <= |t| <= 4 && (ok ==> |t| == 4)
    && forall i :: 0 <= i < |t| ==> t[i] == Stage(i, i < |t| - 1 || ok)
  }

  /** Every way through the four steps. */
  lemma Steps(before: seq<Stage>)
    ensures forall ok: bool ::
      var t := before + [Stage(ROW_READ, ok)]; before <= t && (!ok ==> Went(t[|before|..], false))
    ensures forall ok: bool ::
      var t := before + [Stage(ROW_READ, true)] + [Stage(POOL_RESOLVED, ok)];
      before <= t && (!ok ==> Went(t[|before|..], false))
    ensures forall ok: bool ::
      var t := before + [Stage(ROW_READ, true)] + [Stage(POOL_RESOLVED, true)] + [Stage(POD_DIALED, ok)];
      before <= t && (!ok ==> Went(t[|before|..], false))
    ensures forall ok: bool ::
      var t := before + [Stage(ROW_READ, true)] + [Stage(POOL_RESOLVED, true)] + [Stage(POD_DIALED, true)]
               + [Stage(POD_FENCED, ok)];
      before <= t && Went(t[|before|..], ok)
  {
  }

  class Replica {
    const maxAttempts: nat
    var m: Machine
    ghost const start: Machine
    ghost var run: seq<ConnectionStep>
    ghost var releases: nat               // attempts to release the coordination lease
    ghost var fenced: map<Conn, int>      // the generation a pod acknowledged on a connection
    ghost var stages: seq<Stage>          // what became of each step of a takeover
    ghost var heard: seq<Heard>           // what the latest fence heard
    ghost var row: SessionRow             // the session row read last
    ghost var pool: Match                 // what its pool was resolved to
    ghost var pod: string                 // the pod dialed last, and its address
    ghost var podIP: string

    ghost predicate Valid()
      reads this
    {
      m == Run(start, run) && Owned(m) && maxAttempts >= 1
    }

    constructor (maxAttempts: nat)
      ensures Valid() && m == EMPTY && releases == 0 && fenced == map[]
      ensures this.maxAttempts == if maxAttempts < 1 then 3 else maxAttempts
    {
      this.maxAttempts := if maxAttempts < 1 then 3 else maxAttempts;
      m, start, run, releases, fenced, stages, heard := EMPTY, EMPTY, [], 0, map[], [], [];
      row, pool, pod, podIP := SessionRow("", "", ""), Match(false, [], 0, 0), "", "";
    }

    method Apply(step: ConnectionStep)
      requires Valid()
      modifies this`m, this`run
      ensures Valid() && m == Next(old(m), step) && run == old(run) + [step]
    {
      StepOwned(m, step);
      OneStep(m, step);
      RunAppend(start, run, [step]);
      m := Next(m, step);
      run := run + [step];
    }

    /** Other takeovers and evictors; what this thread dialed or removed is left to it. */
    method Interfere(mine: set<Conn>)
      requires Valid() && forall c <- mine :: c in m.dialed || c in m.removed
      modifies this`m, this`run
      ensures Valid() && old(m).known <= m.known && old(run) <= run
      ensures forall c <- mine :: (c in old(m).dialed ==> c in m.dialed) && (c in old(m).removed ==> c in m.removed)
      ensures forall c :: old(m).closed[c] <= m.closed[c]
    {
      var steps: seq<ConnectionStep> :| AllOthers(steps, mine);
      OthersLeaveMine(m, steps, mine);
      ClosedAtMostOnce(m, steps);
      RunAppend(start, run, steps);
      m := Run(m, steps);
      run := run + steps;
    }

    /** Releases the coordination lease; a failed attempt is reported and not repeated. */
    method Release()
      modifies this`releases
      ensures releases == old(releases) + 1
    {
      releases := releases + 1;
    }

    /** The session's generation as the store tells it. */
    method ReadGeneration() returns (ok: bool, gen: int)
      modifies this`heard
      ensures heard == old(heard) + [Generation(ok, gen)]
    {
      ok, gen := *, *;
      heard := heard + [Generation(ok, gen)];
    }

    method IsCancelled() returns (yes: bool)
      modifies this`heard
      ensures heard == old(heard) + [Cancelled(yes)]
    {
      yes := *;
      heard := heard + [Cancelled(yes)];
    }

    /** One announcement to the pod, and its answer. */
    method Announce(conn: Conn, gen: int) returns (answer: PodAnswer)
      modifies this`heard, this`fenced
      ensures heard == old(heard) + [Answered(gen, answer)]
      ensures fenced == if answer.Accepted? then old(fenced)[conn := gen] else old(fenced)
    {
      answer := *;
      heard := heard + [Answered(gen, answer)];
      if answer.Accepted? {
        fenced := fenced[conn := gen];
      }
    }

    /**
     Announces the session's generation to the pod until it is acknowledged. A stale answer is
     retried only at a higher generation; when that or the attempts run out, the lease is given up.
     */
    method Fence(conn: Conn) returns (relinquished: bool, err: bool)
      requires maxAttempts >= 1
      modifies this`releases, this`fenced, this`heard, this`stages
      ensures var f := Hears(heard, maxAttempts);
        f.Some? && f.value == if !err && conn in fenced then Fenced(fenced[conn]) else if relinquished then GivenUp else Faulted
      ensures forall i :: 0 <= i < |heard| ==> Fits(heard, i, maxAttempts)
      ensures if !err then conn in fenced && EndedFenced(heard, fenced[conn])
              else if relinquished then EndedInVain(heard, maxAttempts) else EndedInFault(heard)
      ensures releases == old(releases) + (if relinquished then 1 else 0) && (relinquished ==> err)
      ensures stages == old(stages) + [Stage(POD_FENCED, !err)]
      ensures err ==> fenced == old(fenced)
      ensures !err ==> conn in fenced && fenced == old(fenced)[conn := fenced[conn]]
    {
      hide Fits, EndedFenced, EndedInVain, EndedInFault;
      heard := [];
      relinquished, err := false, true;
      var ok, gen := ReadGeneration();
      Starts(heard, maxAttempts);
      if !ok {
        stages := stages + [Stage(POD_FENCED, false)];
        FenceEnds(heard, maxAttempts);
        return;
      }
      relinquished, err := Announces(conn, if gen <= 0 then 1 else gen);
      stages := stages + [Stage(POD_FENCED, !err)];
      FenceEnds(heard, maxAttempts);
    }

    /** The attempts of a fence, starting at a generation. */
    method Announces(conn: Conn, start: int) returns (relinquished: bool, err: bool)
      requires maxAttempts >= 1 && Hears(heard, maxAttempts) == Some(Checking(start, 1))
      modifies this`releases, this`fenced, this`heard
      ensures var f := Hears(heard, maxAttempts);
        f.Some? && f.value == if !err && conn in fenced then Fenced(fenced[conn]) else if relinquished then GivenUp else Faulted
      ensures releases == old(releases) + (if relinquished then 1 else 0) && (relinquished ==> err)
      ensures err ==> fenced == old(fenced)
      ensures !err ==> conn in fenced && fenced == old(fenced)[conn := fenced[conn]]
    {
      relinquished, err := false, true;
      var gen, attempt := start, 1;
      while attempt <= maxAttempts
        invariant 1 <= attempt && releases == old(releases) && fenced == old(fenced) && !relinquished && err
        invariant Hears(heard, maxAttempts) == Some(Onward(gen, attempt, maxAttempts))
        decreases maxAttempts + 1 - attempt
      {
        ghost var before := heard;
        var cancelled := IsCancelled();
        HearsMore(before, Cancelled(cancelled), maxAttempts);
        if cancelled {
          return;
        }
        before := heard;
        var answer := Announce(conn, gen);
        HearsMore(before, Answered(gen, answer), maxAttempts);
        if answer.Accepted? {
          err := false;
          return;
        }
        if answer.Stale? {
          before := heard;
          var ok, newGen := ReadGeneration();
          HearsMore(before, Generation(ok, newGen), maxAttempts);
          if !ok || newGen <= gen {
            Release();
            relinquished := true;
            return;
          }
          gen := newGen;
        }
        attempt := attempt + 1;
      }
      Release();
      relinquished := true;
    }

    method ReadRow() returns (ok: bool, r: SessionRow)
      modifies this`stages, this`row
      ensures stages == old(stages) + [Stage(ROW_READ, ok)] && row == r
    {
      ok, r := *, *;
      stages := stages + [Stage(ROW_READ, ok)];
      row := r;
    }

    method ResolvePool(r: SessionRow) returns (ok: bool, found: Match)
      modifies this`stages, this`pool
      ensures stages == old(stages) + [Stage(POOL_RESOLVED, ok)] && pool == found
    {
      ok, found := *, *;
      stages := stages + [Stage(POOL_RESOLVED, ok)];
      pool := found;
    }

    /** Dials the pod of a session; a pod that cannot be reached gives no connection. */
    method Connect(name: string) returns (conn: Option<Conn>, address: string)
      requires Valid()
      modifies this`m, this`run, this`stages, this`pod, this`podIP
      ensures pod == name && podIP == address
      ensures Valid() && old(run) <= run && old(m).known <= m.known
      ensures stages == old(stages) + [Stage(POD_DIALED, conn.Some?)]
      ensures conn.Some? ==>
        conn.value !in old(m).known && conn.value in m.dialed && m.closed[conn.value] == 0 && Unpublished(m, conn.value)
    {
      var ok: bool := *;
      address := *;
      pod, podIP := name, address;
      conn := None;
      stages := stages + [Stage(POD_DIALED, ok)];
      if ok {
        var c := Dial();
        conn := Some(c);
      }
    }

    /** Fences a dialed pod as the first call on its connection; a failure closes it and leaves no lease held. */
    method FenceDialed(conn: Conn) returns (err: bool)
      requires Valid() && conn in m.dialed
      modifies this
      ensures Valid() && old(run) <= run && old(m).known <= m.known && Unpublished(m, conn)
      ensures stages == old(stages) + [Stage(POD_FENCED, !err)]
      ensures row == old(row) && pool == old(pool) && pod == old(pod) && podIP == old(podIP)
      ensures err ==> releases == old(releases) + 1 && conn !in m.dialed && m.closed[conn] == 1
      ensures !err ==>
        && releases == old(releases) && conn in m.dialed && m.closed[conn] == 0
        && conn in fenced && Hears(heard, maxAttempts) == Some(Fenced(fenced[conn]))
    {
      hide Hears, Fits, EndedFenced, EndedInVain, EndedInFault, Run;
      Interfere({conn});
      var relinquished;
      relinquished, err := Fence(conn);
      Interfere({conn});
      if err {
        Apply(Abandons(conn));
        if !relinquished {
          Release();
        }
      }
    }

    /** Dials and fences the pod of a session; the binding it gives back is still to be published. */
    method ReadoptAndFence(generation: int) returns (bind: Option<ServingBinding>, ghost dialed: Option<Conn>)
      requires Valid()
      modifies this
      ensures Valid() && old(run) <= run
      ensures old(stages) <= stages && Went(stages[|old(stages)|..], bind.Some?)
      ensures dialed.Some? <==> |stages| == |old(stages)| + 4
      ensures dialed.Some? ==> dialed.value !in old(m).known && Unpublished(m, dialed.value)
      ensures bind.None? ==>
        && releases == old(releases) + 1
        && (dialed.Some? ==> dialed.value !in m.dialed && m.closed[dialed.value] == 1)
      ensures bind.Some? ==>
        && releases == old(releases) && dialed == Some(bind.value.conn) && bind.value.conn in m.dialed
        && bind.value.generation == generation && bind.value.conn in fenced && m.closed[bind.value.conn] == 0
        && Hears(heard, maxAttempts) == Some(Fenced(fenced[bind.value.conn]))
      ensures bind.Some? ==> pod == row.pod && Carries(bind.value, row, pool, podIP)
    {
      hide Hears, Went, Owned, Run, Next;
      bind, dialed := None, None;
      Steps(stages);
      var read, r := ReadRow();
      Interfere({});
      if !read {
        Release();
        return;
      }
      var resolved, found := ResolvePool(r);
      Interfere({});
      if !resolved {
        Release();
        return;
      }
      var connected, address := Connect(r.pod);
      if connected.None? {
        Interfere({});
        Release();
        return;
      }
      dialed := connected;
      var err := FenceDialed(connected.value);
      if !err {
        bind := Some(BindingOf(r, found, address, connected.value, generation));
      }
    }

    /** A connection no one has had before. */
    method Dial() returns (conn: Conn)
      requires Valid()
      modifies this`m, this`run
      ensures Valid() && old(run) <= run && conn !in old(m).known && conn in m.dialed && m.closed[conn] == 0
      ensures old(m).known <= m.known && Unpublished(m, conn)
    {
      Unused(m.known);
      conn :| conn !in m.known;
      Apply(Dials(conn));
    }

    /** Takes a session over; the binding is published only after the fence was acknowledged. */
    method Takeover(generation: int) returns (published: Option<ServingBinding>)
      requires Valid()
      modifies this
      ensures Valid()
      ensures published.None? ==> releases == old(releases) + 1
      ensures published.Some? ==>
        && releases == old(releases) && published.value.generation == generation && published.value.conn in fenced
        && published.value.conn !in old(m).known
        && published.value.session in m.registry && m.registry[published.value.session] == published.value.conn
      ensures published.Some? ==> pod == row.pod && Carries(published.value, row, pool, podIP)
    {
      ghost var dialed;
      published, dialed := ReadoptAndFence(generation);
      if published.Some? {
        Interfere({published.value.conn});
        Apply(Publishes(published.value.session, published.value.conn));
      }
    }

    /** Drops a session's binding and closes its connection, if this call is the one that removed it. */
    method EvictBinding(session: string) returns (removed: Option<Conn>)
      requires Valid()
      modifies this`m, this`run
      ensures Valid() && old(run) <= run
      ensures removed == if session in old(m).registry then Some(old(m).registry[session]) else None
      ensures removed.Some? ==> old(m).closed[removed.value] == 0 && m.closed[removed.value] == 1
    {
      removed := if session in m.registry then Some(m.registry[session]) else None;
      Apply(Removes(session));
      if removed.Some? {
        Interfere({removed.value});
        Apply(Closes(removed.value));
      }
    }
  }

  /** The connection is in no session's binding. */
  ghost predicate Unpublished(m: Machine, conn: Conn) {
    forall s <- m.registry :: m.registry[s] != conn
  }
}
