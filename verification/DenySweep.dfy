/** The code that keeps the deny list: the sweep tick, the startup rebuild and emergency revocation. */
module DenySweep {
  import opened Base
  import opened DenyList
  import opened DenySafety

  function Removals(steps: seq<DenyStep>): nat {
    if steps == [] then 0 else Removals(steps[..|steps| - 1]) + (if steps[|steps| - 1].Removes? then 1 else 0)
  }

  lemma {:induction false} RemovalsAppend(a: seq<DenyStep>, b: seq<DenyStep>)
    ensures Removals(a + b) == Removals(a) + Removals(b)
  {
    if b == [] {
      assert a + b == a;
    } else {
      assert (a + b)[..|a + b| - 1] == a + b[..|b| - 1];
      RemovalsAppend(a, b[..|b| - 1]);
    }
  }

  /** The three places of the gateway that change the list, each of which the others may interrupt. */
  datatype Part = Sweeper | Rebuilder | Revoker

  /** A step that is not of this part. Any number of revocations may be under way. */
  predicate Foreign(part: Part, step: DenyStep) {
    match part
    case Sweeper => !BySweep(step)
    case Rebuilder => !ByRebuild(step)
    case Revoker => true
  }

  predicate AllForeign(part: Part, steps: seq<DenyStep>) {
    forall i :: 0 <= i < |steps| ==> Foreign(part, steps[i])
  }

  predicate NoCommit(steps: seq<DenyStep>) {
    forall i :: 0 <= i < |steps| ==> !steps[i].Commits?
  }

  lemma {:induction false} ForeignRemovesNothing(steps: seq<DenyStep>)
    requires AllForeign(Sweeper, steps)
    ensures Removals(steps) == 0
  {
    if steps != [] {
      assert Foreign(Sweeper, steps[|steps| - 1]);
      ForeignRemovesNothing(steps[..|steps| - 1]);
    }
  }

  lemma StepByOthers(part: Part, s: DenyState, step: DenyStep)
    requires Foreign(part, step)
    ensures var after := Next(s, step);
      && s.told <= after.told && s.revoked <= after.revoked
      && (part.Sweeper? ==> after.phase == s.phase && (!step.Commits? ==> s.deny <= after.deny))
      && (part.Rebuilder? ==> after.rebuild == s.rebuild)
  {
  }

  /** What the others leave alone. */
  lemma {:induction false} ForeignKeeps(part: Part, s: DenyState, steps: seq<DenyStep>)
    requires AllForeign(part, steps)
    ensures var after := Run(s, steps);
      && s.told <= after.told && s.revoked <= after.revoked
      && (part.Sweeper? ==> after.phase == s.phase && (NoCommit(steps) ==> s.deny <= after.deny))
      && (part.Rebuilder? ==> after.rebuild == s.rebuild)
    decreases |steps|
  {
    hide Next;
    if steps != [] {
      assert Foreign(part, steps[0]);
      StepByOthers(part, s, steps[0]);
      ForeignKeeps(part, Next(s, steps[0]), steps[1..]);
    }
  }

  /** The steps of the rebuild among these. */
  function OfRebuild(steps: seq<DenyStep>): seq<DenyStep> {
    if steps == [] then []
    else OfRebuild(steps[..|steps| - 1]) + if ByRebuild(steps[|steps| - 1]) then [steps[|steps| - 1]] else []
  }

  lemma {:induction false} OfRebuildAppend(a: seq<DenyStep>, b: seq<DenyStep>)
    ensures OfRebuild(a + b) == OfRebuild(a) + OfRebuild(b)
  {
    hide ByRebuild;
    if b == [] {
      assert a + b == a;
    } else {
      assert (a + b)[..|a + b| - 1] == a + b[..|b| - 1];
      OfRebuildAppend(a, b[..|b| - 1]);
    }
  }

  lemma {:induction false} NoneOfRebuild(steps: seq<DenyStep>)
    requires AllForeign(Rebuilder, steps)
    ensures OfRebuild(steps) == []
  {
    if steps != [] {
      assert Foreign(Rebuilder, steps[|steps| - 1]);
      NoneOfRebuild(steps[..|steps| - 1]);
    }
  }

  /** The credentials whose count failed among these steps. */
  function Failing(steps: seq<DenyStep>): set<CredentialKey> {
    set x | x in steps && x.Counts? && x.fails :: x.key
  }

  lemma FailingMore(steps: seq<DenyStep>, key: CredentialKey, failed: bool, removed: bool)
    ensures Failing(steps + [Counts(key, failed)] + (if removed then [Removes] else [])) ==
      if failed then Failing(steps) + {key} else Failing(steps)
    ensures Failing(steps + [Finishes]) == Failing(steps) && Failing([Snapshots]) == {}
  {
    var more := steps + [Counts(key, failed)] + (if removed then [Removes] else []);
    forall x | x in steps
      ensures x in more && x in steps + [Finishes]
    {
    }
    assert Counts(key, failed) in more;
  }

  /** The rows of a credential. */
  function RowsOf(rows: map<RowId, LeaseRow>, key: CredentialKey): set<RowId> {
    set id | id in rows && rows[id].key == key
  }

  function ActiveRows(rows: map<RowId, LeaseRow>, key: CredentialKey, t: int): set<RowId> {
    set id | id in rows && rows[id].key == key && Active(rows[id], t)
  }

  lemma CountIsActive(rows: map<RowId, LeaseRow>, key: CredentialKey, t: int)
    ensures |ActiveRows(rows, key, t)| > 0 <==> HasActive(rows, key, t)
  {
    if HasActive(rows, key, t) {
      var id :| id in rows && rows[id].key == key && Active(rows[id], t);
      assert id in ActiveRows(rows, key, t);
    }
    if ActiveRows(rows, key, t) != {} {
      var id :| id in ActiveRows(rows, key, t);
    }
  }

  /** Entries a quiet tick has kept so far, with some still to be checked. */
  ghost predicate PartWay(s: DenyState, now: DenyState, keys: set<CredentialKey>, unanswered: set<CredentialKey>) {
    && now.rows == DeleteExpired(s.rows, s.clock) && now.clock == s.clock
    && now.told == s.told && now.revoked == s.revoked && now.rebuild == s.rebuild
    && keys <= s.deny && keys <= now.deny <= s.deny && unanswered <= s.deny - keys
    && forall k <- s.deny :: k !in keys ==> (k in now.deny <==> k in unanswered || HasActive(now.rows, k, s.clock))
  }

  class DenyReplica {
    const quiet: bool
    var s: DenyState
    ghost const start: DenyState
    ghost var run: seq<DenyStep>
    ghost var own: seq<DenyStep>              // the steps of the code itself

    ghost predicate Valid()
      reads this
    {
      s == Run(start, run)
    }

    constructor (s: DenyState, quiet: bool)
      ensures Valid() && this.s == s && this.quiet == quiet && run == [] && own == []
    {
      this.s, this.quiet, start, run, own := s, quiet, s, [], [];
    }

    method Apply(step: DenyStep)
      requires Valid()
      modifies this
      ensures Valid() && s == Next(old(s), step) && run == old(run) + [step] && own == old(own) + [step]
    {
      RunAppend(start, run, [step]);
      s := Next(s, step);
      run := run + [step];
      own := own + [step];
    }

    /** The rest of the system at work between two calls of this part, the other parts included. */
    method Interfere(part: Part)
      requires Valid()
      modifies this
      ensures Valid() && old(run) <= run && own == old(own) && (quiet ==> s == old(s) && run == old(run))
      ensures AllForeign(part, run[|old(run)|..]) && old(s).told <= s.told && old(s).revoked <= s.revoked
      ensures part.Sweeper? ==>
        && s.phase == old(s).phase && Removals(run) == Removals(old(run))
        && (NoCommit(run[|old(run)|..]) ==> old(s).deny <= s.deny)
      ensures part.Rebuilder? ==> s.rebuild == old(s).rebuild
    {
      hide Next, Foreign;
      if !quiet {
        var steps: seq<DenyStep> :| AllForeign(part, steps);
        RunAppend(start, run, steps);
        ForeignKeeps(part, s, steps);
        RemovalsAppend(run, steps);
        if part.Sweeper? {
          ForeignRemovesNothing(steps);
        }
        s := Run(s, steps);
        run := run + steps;
      }
    }

    /** The time the tick works with. */
    method ReadClock()
      requires Valid() && s.phase.Resting?
      modifies this
      ensures Valid() && s == old(s).(phase := Read(old(s).clock))
      ensures old(run) <= run && Removals(run) == Removals(old(run)) && own == old(own) + [Reads]
    {
      NotARemoval(run, Reads);
      Apply(Reads);
    }

    /** Deletes the rows past the tick's time, and says how many. */
    method Delete() returns (n: nat, err: bool)
      requires Valid() && s.phase.Read?
      modifies this
      ensures Valid() && old(run) <= run && Removals(run) == Removals(old(run)) && own == old(own) + [Deletes(err)]
      ensures err ==> n == 0 && s == old(s).(phase := Resting)
      ensures !err ==>
        && s == old(s).(rows := DeleteExpired(old(s).rows, old(s).phase.now), phase := Deleted(old(s).phase.now))
        && n == |old(s).rows| - |s.rows|
    {
      err := *;
      var before := s.rows;
      FewerRows(s.rows, s.phase.now);
      NotARemoval(run, Deletes(err));
      Apply(Deletes(err));
      n := |before.Keys - s.rows.Keys|;
      assert err ==> before.Keys - s.rows.Keys == {};
    }

    method Snapshot() returns (keys: set<CredentialKey>)
      requires Valid() && s.phase.Deleted?
      modifies this
      ensures Valid() && old(run) <= run && Removals(run) == Removals(old(run)) && own == old(own) + [Snapshots]
      ensures keys == s.deny && s == old(s).(phase := Sweeping(old(s).phase.now, keys))
    {
      NotARemoval(run, Snapshots);
      Apply(Snapshots);
      keys := s.deny;
    }

    /** How many rows of a credential are active; an error is not a zero. */
    method Count(key: CredentialKey) returns (n: nat, err: bool)
      requires Valid() && s.phase.Sweeping? && key in s.phase.todo
      modifies this
      ensures Valid() && old(run) <= run && Removals(run) == Removals(old(run)) && own == old(own) + [Counts(key, err)]
      ensures !err ==> (n > 0 <==> HasActive(old(s).rows, key, old(s).phase.now))
      ensures var todo := old(s).phase.todo - {key};
        s == old(s).(phase := if err || n > 0 then Sweeping(old(s).phase.now, todo) else Removing(old(s).phase.now, todo, key))
    {
      err := *;
      n := |ActiveRows(s.rows, key, s.phase.now)|;
      CountIsActive(s.rows, key, s.phase.now);
      NotARemoval(run, Counts(key, err));
      Apply(Counts(key, err));
    }

    method Remove(key: CredentialKey)
      requires Valid() && s.phase.Removing? && s.phase.key == key
      modifies this
      ensures Valid() && old(run) <= run && Removals(run) == Removals(old(run)) + 1 && own == old(own) + [Removes]
      ensures s == old(s).(deny := old(s).deny - {key}, phase := Sweeping(old(s).phase.now, old(s).phase.todo))
    {
      ARemoval(run);
      Apply(Removes);
    }

    /** Checks one entry against the store and drops it only on a definite zero. */
    method CheckEntry(key: CredentialKey, ghost s0: DenyState, ghost few: set<CredentialKey>)
      returns (removed: bool, ghost unanswered: set<CredentialKey>, ghost failed: bool)
      requires Valid() && s.phase.Sweeping? && key in s.phase.todo
      requires quiet ==> s.phase.now == s0.clock && PartWay(s0, s, s.phase.todo, few)
      modifies this
      ensures Valid() && s.phase.Sweeping? && s.phase.todo == old(s).phase.todo - {key}
      ensures s.phase.now == old(s).phase.now
      ensures old(run) <= run && Removals(run) == Removals(old(run)) + (if removed then 1 else 0)
      ensures own == old(own) + [Counts(key, failed)] + (if removed then [Removes] else [])
      ensures unanswered == (if failed then few + {key} else few) && (failed ==> !removed)
      ensures quiet ==> PartWay(s0, s, s.phase.todo, unanswered) && (removed ==> key in old(s).deny)
      ensures quiet ==> s.deny == if removed then old(s).deny - {key} else old(s).deny
    {
      hide Next, HasActive, DeleteExpired, Removals, PartWay;
      unanswered, removed := few, false;
      Interfere(Sweeper);
      ghost var was := s;
      var n, err := Count(key);
      failed := err;
      if err || n > 0 {
        if err {
          unanswered := unanswered + {key};
        }
        if quiet {
          EntryKept(s0, was, s, was.phase.todo, key, few, unanswered);
        }
        return;
      }
      Interfere(Sweeper);
      Remove(key);
      removed := true;
      if quiet {
        EntryDropped(s0, was, s, was.phase.todo, key, unanswered);
      }
    }

    /** Checks every entry of a snapshot of the list. */
    method Reconcile(ghost s0: DenyState) returns (denyRemoved: nat, ghost unanswered: set<CredentialKey>)
      requires Valid() && s.phase.Deleted?
      requires quiet ==> s == s0.(rows := DeleteExpired(s0.rows, s0.clock), phase := Deleted(s0.clock))
      modifies this
      ensures Valid() && s.phase.Resting? && old(run) <= run && Removals(run) == Removals(old(run)) + denyRemoved
      ensures old(own) <= own && unanswered == Failing(own[|old(own)|..])
      ensures quiet ==> s == Tick(s0, unanswered).(phase := Resting) && denyRemoved == |s0.deny| - |s.deny|
    {
      hide HasActive, DeleteExpired, Removals, PartWay, Tick;
      denyRemoved, unanswered := 0, {};
      var keys := Snapshot();
      assert own[|old(own)|..] == [Snapshots];
      if quiet {
        NothingChecked(s0, s);
      }
      while keys != {}
        invariant Valid() && s.phase.Sweeping? && s.phase.todo == keys && old(run) <= run
        invariant Removals(run) == Removals(old(run)) + denyRemoved
        invariant old(own) <= own && unanswered == Failing(own[|old(own)|..])
        invariant quiet ==>
          && s.phase.now == s0.clock && PartWay(s0, s, keys, unanswered)
          && denyRemoved == |s0.deny| - |s.deny|
        decreases |keys|
      {
        var key :| key in keys;
        var removed;
        ghost var before, failed := own, false;
        removed, unanswered, failed := CheckEntry(key, s0, unanswered);
        FailingMore(before[|old(own)|..], key, failed, removed);
        assert own[|old(own)|..] == before[|old(own)|..] + [Counts(key, failed)] + (if removed then [Removes] else []);
        keys := keys - {key};
        if removed {
          denyRemoved := denyRemoved + 1;
        }
      }
      if quiet {
        AllChecked(s0, s, unanswered);
      }
      NotARemoval(run, Finishes);
      ghost var ours := own;
      Apply(Finishes);
      assert own[|old(own)|..] == ours[|old(own)|..] + [Finishes];
    }

    /** One tick: delete expired rows, then drop the entry of every credential that has no active lease. */
    method Sweep() returns (swept: nat, denyRemoved: nat, err: bool, ghost unanswered: set<CredentialKey>)
      requires Valid() && s.phase.Resting?
      modifies this
      ensures Valid() && s.phase.Resting? && old(run) <= run
      ensures Removals(run) == Removals(old(run)) + denyRemoved
      ensures old(own) + [Reads, Deletes(err)] <= own
      ensures if err then own == old(own) + [Reads, Deletes(true)] else unanswered == Failing(own[|old(own)| + 2..])
      ensures err ==> swept == 0 && denyRemoved == 0 && (NoCommit(run[|old(run)|..]) ==> old(s).deny <= s.deny)
      ensures quiet ==> s == if err then old(s) else Tick(old(s), unanswered)
      ensures quiet ==> swept == |old(s).rows| - |s.rows| && denyRemoved == |old(s).deny| - |s.deny|
      ensures Kept(old(s)) && AllTimely(old(s), run[|old(run)|..]) && AllUnerased(old(s), run[|old(run)|..]) ==>
        Kept(s) && Safe(s)
      ensures KeptStrong(old(s)) && AllSharp(old(s), run[|old(run)|..]) ==> KeptStrong(s) && Safe(s)
    {
      hide Next, HasActive, DeleteExpired, Removals, Kept, KeptStrong, AllTimely, AllUnerased, AllSharp, Safe, Failing;
      denyRemoved, unanswered := 0, {};
      ReadClock();
      Interfere(Sweeper);
      swept, err := Delete();
      if !err {
        Interfere(Sweeper);
        denyRemoved, unanswered := Reconcile(old(s));
      }
      Continued(start, old(run), run);
    }

    /** The time the attempt works with, read before anything is listed. */
    method ReadTime()
      requires Valid() && s.rebuild.Waiting?
      modifies this
      ensures Valid() && s == old(s).(rebuild := Began(old(s).clock))
      ensures run == old(run) + [Starts] && own == old(own) + [Starts]
    {
      Apply(Starts);
    }

    /** The pool store's revoked credentials, or an error. */
    method ListPools() returns (pools: Option<seq<(string, string)>>)
      requires Valid() && s.rebuild.Began?
      modifies this
      ensures Valid() && run == old(run) + [ListsPools(pools.None?)] && own == old(own) + [ListsPools(pools.None?)]
      ensures var listed := PoolsIn(old(s).revoked);
        s == old(s).(rebuild := if pools.None? then Waiting else HalfListed(old(s).rebuild.at, listed))
      ensures pools.Some? ==> KeySet(PoolKeys(pools.value)) == PoolsIn(old(s).revoked)
    {
      hide KeySet, PoolKeys, PoolsIn;
      pools :| pools.Some? ==> KeySet(PoolKeys(pools.value)) == PoolsIn(s.revoked);
      Apply(ListsPools(pools.None?));
    }

    /** The token store's revoked credentials, or an error. */
    method ListUsers() returns (users: Option<seq<(string, string)>>)
      requires Valid() && s.rebuild.HalfListed?
      modifies this
      ensures Valid() && run == old(run) + [ListsUsers(users.None?)] && own == old(own) + [ListsUsers(users.None?)]
      ensures var listed := old(s).rebuild.listed + UsersIn(old(s).revoked);
        s == old(s).(rebuild := if users.None? then Waiting else Counting(old(s).rebuild.at, listed, listed, {}))
      ensures users.Some? ==> KeySet(UserKeys(users.value)) == UsersIn(old(s).revoked)
    {
      hide KeySet, UserKeys, UsersIn;
      users :| users.Some? ==> KeySet(UserKeys(users.value)) == UsersIn(s.revoked);
      Apply(ListsUsers(users.None?));
    }

    /** How many rows of a listed credential are active at the attempt's time. */
    method Tally(key: CredentialKey) returns (n: nat, err: bool)
      requires Valid() && s.rebuild.Counting? && key in s.rebuild.listed
      modifies this
      ensures Valid() && run == old(run) + [Tallies(key, err)] && own == old(own) + [Tallies(key, err)]
      ensures n > 0 <==> HasActive(old(s).rows, key, old(s).rebuild.at)
      ensures var r := old(s).rebuild;
        s == old(s).(rebuild := r.(todo := r.todo - {key}, kept := r.kept + if err || n > 0 then {key} else {}))
    {
      err := *;
      n := |ActiveRows(s.rows, key, s.rebuild.at)|;
      CountIsActive(s.rows, key, s.rebuild.at);
      Apply(Tallies(key, err));
    }

    /** Counts one listed credential: kept when it has an active lease or could not be counted. */
    method Weigh(key: CredentialKey) returns (keep: bool, ghost c: Tallied)
      requires Valid() && s.rebuild.Counting? && key in s.rebuild.listed
      modifies this
      ensures Valid() && old(run) <= run && keep == c.kept && TalliedIn(start, run, |old(run)|, key, c, old(s).rebuild.at)
      ensures own == old(own) + [Tallies(key, c.failed)]
      ensures OfRebuild(run) == OfRebuild(old(run)) + [Tallies(key, c.failed)]
      ensures var r := old(s).rebuild;
        s.rebuild == r.(todo := r.todo - {key}, kept := r.kept + if keep then {key} else {})
      ensures old(s).told <= s.told && old(s).revoked <= s.revoked
      ensures quiet ==> s == old(s).(rebuild := s.rebuild) && (keep <==> c.failed || HasActive(s.rows, key, old(s).rebuild.at))
    {
      hide Next, HasActive, OfRebuild, Run;
      Interfere(Rebuilder);
      OthersOnly(old(run), run);
      ghost var at := |run|;
      var count, err := Tally(key);
      OneOfRebuild(run[..at], Tallies(key, err));
      keep := err || count > 0;
      c := Tallied(at, err, keep);
    }

    /** Keeps, in place and in order, the keys with an active lease and those that could not be counted. */
    method Filter(list: array<CredentialKey>) returns (n: nat, ghost counts: seq<Tallied>)
      requires Valid() && s.rebuild.Counting? && KeySet(list[..]) <= s.rebuild.listed
      modifies this, list
      ensures Valid() && old(run) <= run && n <= list.Length && |counts| == list.Length
      ensures own == old(own) + TalliesOf(old(list[..]), counts)
      ensures OfRebuild(run) == OfRebuild(old(run)) + TalliesOf(old(list[..]), counts)
      ensures CountedIn(start, run, |old(run)|, old(list[..]), counts, old(s).rebuild.at)
      ensures list[..n] == Filtered(old(list[..]), counts)
      ensures var r := old(s).rebuild;
        s.rebuild == r.(todo := r.todo - KeySet(old(list[..])), kept := r.kept + KeySet(list[..n]))
      ensures old(s).told <= s.told && old(s).revoked <= s.revoked
      ensures quiet ==> s == old(s).(rebuild := s.rebuild) && CountedNow(s.rows, old(list[..]), counts, old(s).rebuild.at)
    {
      hide HasActive, OfRebuild, Run, TalliedIn, KeySet, Filtered, TalliesOf;
      n, counts := 0, [];
      ghost var all := list[..];
      NothingKept(all);
      for i := 0 to list.Length
        invariant Valid() && old(run) <= run && n <= i && |counts| == i
        invariant own == old(own) + TalliesOf(all, counts) && OfRebuild(run) == OfRebuild(old(run)) + TalliesOf(all, counts)
        invariant CountedIn(start, run, |old(run)|, all, counts, old(s).rebuild.at)
        invariant list[..n] == Filtered(all[..i], counts) && list[i..] == all[i..]
        invariant s.rebuild == old(s).rebuild.(todo := old(s).rebuild.todo - KeySet(all[..i]),
                                               kept := old(s).rebuild.kept + KeySet(list[..n]))
        invariant old(s).told <= s.told && old(s).revoked <= s.revoked
        invariant quiet ==> s == old(s).(rebuild := s.rebuild) && CountedNow(s.rows, all, counts, old(s).rebuild.at)
      {
        var key := list[i];
        assert key == all[i];
        ghost var before, was := list[..], run;
        KeySetHolds(all, i);
        var keep;
        ghost var c;
        keep, c := Weigh(key);
        CountedGrows(start, was, run, |old(run)|, all, counts, c, s.rebuild.at);
        FilteredStep(all, counts, c);
        KeySetStep(all, i);
        KeySetMore(list[..n], key);
        if keep {
          list[n] := key;
          n := n + 1;
          assert list[..n] == before[..n - 1] + [key];
        }
        counts := counts + [c];
        SameAfter(before, list[..], all, i);
      }
      assert all[..list.Length] == all;
    }

    /**
     The keys to deny after a restart: the revoked credentials of both stores that have an active
     lease or whose leases could not be counted. A store that cannot list its own aborts it.
     */
    method RebuildKeys()
      returns (keys: Option<seq<CredentialKey>>, ghost t: seq<DenyStep>, ghost all: seq<CredentialKey>,
               ghost counts: seq<Tallied>)
      requires Valid() && s.rebuild.Began?
      modifies this
      ensures Valid() && old(run) <= run && old(s).told <= s.told && old(s).revoked <= s.revoked
      ensures own == old(own) + t && OfRebuild(run) == OfRebuild(old(run)) + t
      ensures keys.None? ==> s.rebuild.Waiting? && Aborted(t) && (quiet ==> s == old(s).(rebuild := Waiting))
      ensures keys.Some? ==>
        && |counts| == |all| && keys.value == Filtered(all, counts) && t == ListsAndTallies(all, counts)
        && CountedIn(start, run, |old(run)|, all, counts, old(s).rebuild.at)
        && s.rebuild == Counting(old(s).rebuild.at, KeySet(all), {}, KeySet(keys.value)) && old(s).revoked <= KeySet(all)
      ensures quiet && keys.Some? ==>
        && s == old(s).(rebuild := s.rebuild) && KeySet(all) == s.revoked
        && CountedNow(s.rows, all, counts, old(s).rebuild.at)
    {
      hide HasActive, OfRebuild, Run, CountedIn, KeySet, Filtered, TalliesOf, CountedNow, PoolsIn, UsersIn;
      keys, t, all, counts := None, [], [], [];
      Interfere(Rebuilder);
      OthersOnly(old(run), run);
      ghost var before := run;
      ghost var marked := s.revoked;
      var pools := ListPools();
      OneOfRebuild(before, ListsPools(pools.None?));
      t := [ListsPools(pools.None?)];
      if pools.None? {
        return;
      }
      ghost var mid := run;
      Interfere(Rebuilder);
      OthersOnly(mid, run);
      before := run;
      ghost var later := s.revoked;
      var users := ListUsers();
      OneOfRebuild(before, ListsUsers(users.None?));
      t := t + [ListsUsers(users.None?)];
      if users.None? {
        return;
      }
      var union := PoolKeys(pools.value) + UserKeys(users.value);
      all := union;
      BothListed(pools.value, users.value, old(s).revoked, marked, later);
      var list := new CredentialKey[|union|](i requires 0 <= i < |union| => union[i]);
      assert list[..] == union;
      before := run;
      var n;
      n, counts := Filter(list);
      CountedSooner(start, run, |old(run)|, |before|, all, counts, s.rebuild.at);
      t := t + TalliesOf(all, counts);
      keys := Some(list[..n]);
    }

    /** Replaces the list by exactly these keys. */
    method Reset(keys: seq<CredentialKey>)
      requires Valid() && s.rebuild.Counting? && s.rebuild.todo == {} && KeySet(keys) == s.rebuild.kept
      modifies this
      ensures Valid() && s.deny == KeySet(keys) && s == Next(old(s), Commits) && Committing(old(s), Commits)
      ensures run == old(run) + [Commits] && own == old(own) + [Commits]
    {
      hide Run, Next;
      var deny: set<CredentialKey> := {};
      for i := 0 to |keys|
        invariant deny == KeySet(keys[..i]) && s == old(s) && run == old(run) && own == old(own)
      {
        KeySetStep(keys, i);
        deny := deny + {keys[i]};
      }
      assert keys[..|keys|] == keys;
      CommitIs(s);
      RunAppend(start, run, [Commits]);
      OneStep(s, Commits);
      run, own := run + [Commits], own + [Commits];
      s := s.(deny := deny, told := s.told + s.rebuild.listed, rebuild := Waiting);
    }

    /** An attempt with these calls has just committed: the list is what its counts say, and what it listed is known. */
    ghost predicate Committed(t: seq<DenyStep>, all: seq<CredentialKey>, counts: seq<Tallied>)
      reads this
    {
      && |counts| == |all| && Done(t, all, counts) && run != [] && run[|run| - 1] == Commits
      && s.deny == KeySet(Filtered(all, counts)) && KeySet(all) <= s.told
    }

    /** One attempt at the rebuild: it commits exactly when both stores have listed theirs. */
    method Attempt()
      returns (committed: bool, ghost t: seq<DenyStep>, ghost all: seq<CredentialKey>, ghost counts: seq<Tallied>)
      requires Valid() && s.rebuild.Waiting?
      modifies this
      ensures Valid() && s.rebuild.Waiting? && old(run) <= run && old(s).told <= s.told && old(s).revoked <= s.revoked
      ensures own == old(own) + t && OfRebuild(run) == OfRebuild(old(run)) + t
      ensures !committed ==> GivenUp(t) && (quiet ==> s == old(s))
      ensures committed ==>
        && |counts| == |all| && Committed(t, all, counts) && old(s).revoked <= KeySet(all)
        && CountedIn(start, run, |old(run)|, all, counts, old(s).clock)
      ensures quiet && committed ==> s == Rebuilt(old(s), Unanswered(all, counts))
    {
      hide Next, HasActive, OfRebuild, Run, CountedIn, KeySet, Filtered, TalliesOf, CountedNow, Rebuilt, Unanswered;
      committed := false;
      ReadTime();
      OneOfRebuild(old(run), Starts);
      ghost var began := run;
      var keys;
      ghost var u;
      keys, u, all, counts := RebuildKeys();
      t := [Starts] + u;
      if keys.None? {
        return;
      }
      ghost var counted := run;
      Interfere(Rebuilder);
      OthersOnly(counted, run);
      ghost var before, was := run, s;
      Reset(keys.value);
      CommitIs(was);
      OneOfRebuild(before, Commits);
      t := t + [Commits];
      CountedLonger(start, counted, run, |began|, all, counts, old(s).clock);
      CountedSooner(start, run, |old(run)|, |began|, all, counts, old(s).clock);
      committed := true;
      if quiet {
        FilteredIsRebuilt(old(s), all, counts);
      }
    }

    /** One attempt and, when it failed, the wait after it, in which the rest of the system goes on. */
    method AttemptAndWait()
      returns (committed: bool, ghost t: seq<DenyStep>, ghost all: seq<CredentialKey>, ghost counts: seq<Tallied>)
      requires Valid() && s.rebuild.Waiting?
      modifies this
      ensures Valid() && s.rebuild.Waiting? && old(run) <= run && old(s).revoked <= s.revoked
      ensures own == old(own) + t && OfRebuild(run) == OfRebuild(old(run)) + t
      ensures committed ==> |counts| == |all| && Committed(t, all, counts) && old(s).revoked <= KeySet(all)
      ensures !committed ==> GivenUp(t)
      ensures quiet ==> s == if committed then Rebuilt(old(s), Unanswered(all, counts)) else old(s)
    {
      hide Next, Unanswered, OfRebuild, Run, GivenUp, Committed, Rebuilt, KeySet, CountedIn;
      committed, t, all, counts := Attempt();
      if !committed {
        ghost var before := run;
        Interfere(Rebuilder);
        OthersOnly(before, run);
      }
    }

    /** Attempts until one commits, with a longer wait after each that failed. */
    method Retry(attempts: nat)
      returns (committed: bool, waits: seq<nat>, ghost tries: seq<seq<DenyStep>>, ghost all: seq<CredentialKey>,
               ghost counts: seq<Tallied>)
      requires Valid() && s.rebuild.Waiting?
      modifies this
      ensures Valid() && s.rebuild.Waiting? && old(run) <= run
      ensures (if committed then |waits| < attempts else |waits| == attempts) && BackedOff(waits)
      ensures |tries| == |waits| + (if committed then 1 else 0) && AllGivenUp(tries[..|waits|])
      ensures own == old(own) + Joined(tries) && OfRebuild(run) == OfRebuild(old(run)) + Joined(tries)
      ensures committed ==> |counts| == |all| && Committed(tries[|waits|], all, counts) && old(s).revoked <= KeySet(all)
      ensures quiet ==> s == if committed then Rebuilt(old(s), Unanswered(all, counts)) else old(s)
    {
      hide Next, Unanswered, OfRebuild, Run, GivenUp, Committed, Rebuilt, KeySet, Joined, BackedOff, AllGivenUp, Backoff;
      NoTries(own);
      FirstWait();
      NoTries(OfRebuild(run));
      committed, waits, tries, all, counts := false, [], [], [], [];
      var backoff := 1000;
      while |waits| < attempts
        invariant Valid() && s.rebuild.Waiting? && old(run) <= run && |tries| == |waits| <= attempts
        invariant backoff == Backoff(|waits|) && BackedOff(waits) && AllGivenUp(tries)
        invariant own == old(own) + Joined(tries) && OfRebuild(run) == OfRebuild(old(run)) + Joined(tries)
        invariant !committed && old(s).revoked <= s.revoked && (quiet ==> s == old(s))
        decreases attempts - |waits|
      {
        ghost var t;
        committed, t, all, counts := AttemptAndWait();
        JoinedMore(old(own), tries, t);
        JoinedMore(OfRebuild(old(run)), tries, t);
        ghost var before := tries;
        tries := tries + [t];
        if committed {
          assert tries[..|waits|] == before;
          return;
        }
        OneMoreWait(waits, before, t);
        BackoffDoubles(|waits|);
        waits := waits + [backoff];
        backoff := backoff * 2;
        if backoff > 30000 {
          backoff := 30000;
        }
      }
      assert tries[..|waits|] == tries;
    }

    /**
     Rebuilds the list at startup: it retries until both stores have listed their revoked
     credentials, waiting twice as long each time up to a cap while the rest of the system goes on,
     and commits once. It is given up after some number of attempts.
     */
    method Rebuild(attempts: nat)
      returns (committed: bool, waits: seq<nat>, ghost tries: seq<seq<DenyStep>>, ghost all: seq<CredentialKey>,
               ghost counts: seq<Tallied>)
      requires Valid() && s.rebuild.Waiting?
      modifies this
      ensures Valid() && s.rebuild.Waiting? && old(run) <= run
      ensures (if committed then |waits| < attempts else |waits| == attempts) && BackedOff(waits)
      ensures |tries| == |waits| + (if committed then 1 else 0) && AllGivenUp(tries[..|waits|])
      ensures own == old(own) + Joined(tries) && OfRebuild(run) == OfRebuild(old(run)) + Joined(tries)
      ensures committed ==> |counts| == |all| && Committed(tries[|waits|], all, counts) && old(s).revoked <= KeySet(all)
      ensures quiet ==> s == if committed then Rebuilt(old(s), Unanswered(all, counts)) else old(s)
      ensures Kept(old(s)) && AllTimely(old(s), run[|old(run)|..]) ==>
        && (SafeThroughout(old(s), run[|old(run)|..]) <==> AllUnerased(old(s), run[|old(run)|..]))
        && (AllUnerased(old(s), run[|old(run)|..]) ==> Kept(s) && Safe(s))
      ensures KeptStrong(old(s)) && AllSharp(old(s), run[|old(run)|..]) ==> KeptStrong(s) && Safe(s)
    {
      hide Next, Unanswered, OfRebuild, Run, GivenUp, Committed, Rebuilt, KeySet, Joined, BackedOff, AllGivenUp, Kept,
        KeptStrong, AllTimely, AllUnerased, AllSharp, Safe, SafeThroughout;
      committed, waits, tries, all, counts := Retry(attempts);
      Continued(start, old(run), run);
    }

    /** Denies one credential and then counts its leases. */
    method RevokeOne(key: CredentialKey) returns (n: nat)
      requires Valid()
      modifies this
      ensures Valid() && old(run) <= run && own == old(own) + [Revokes(key)] && Revokes(key) in run[|old(run)|..]
      ensures old(s).told + {key} <= s.told && old(s).revoked + {key} <= s.revoked && n == |RowsOf(s.rows, key)|
      ensures quiet ==> s == Revoked(old(s), {key})
    {
      hide Run, RowsOf;
      Interfere(Revoker);
      ghost var at := |run|;
      Apply(Revokes(key));
      Interfere(Revoker);
      assert run[|old(run)|..][at - |old(run)|] == run[at] == Revokes(key);
      n := |RowsOf(s.rows, key)|;
    }

    /** Denies every named credential of a pool; its leases stay, and are counted. */
    method RevokePoolCredentials(pool: string, credentials: seq<string>) returns (total: nat, ghost at: seq<nat>)
      requires Valid()
      modifies this
      ensures Valid() && old(run) <= run && own == old(own) + RevokesOf(pool, credentials)
      ensures KeysIn(pool, credentials) <= s.told && KeysIn(pool, credentials) <= s.revoked
      ensures |at| == |credentials| && RevokedIn(run, |old(run)|, pool, credentials, at)
      ensures total == LeasesAt(start, run, at, pool, credentials)
      ensures quiet ==> s == Revoked(old(s), KeysIn(pool, credentials)) && total == LeasesOf(s.rows, pool, credentials)
    {
      hide LeasesOf, LeasesAt, Run, KeysIn, RevokesOf, RowsOf, Revoked;
      total, at := 0, [];
      NoneRevoked(start, run, s, pool, credentials);
      for i := 0 to |credentials|
        invariant Valid() && old(run) <= run && |at| == i && own == old(own) + RevokesOf(pool, credentials[..i])
        invariant KeysIn(pool, credentials[..i]) <= s.told && KeysIn(pool, credentials[..i]) <= s.revoked
        invariant RevokedIn(run, |old(run)|, pool, credentials, at)
        invariant total == LeasesAt(start, run, at, pool, credentials[..i])
        invariant quiet ==>
          s == Revoked(old(s), KeysIn(pool, credentials[..i])) && total == LeasesOf(s.rows, pool, credentials[..i])
      {
        ghost var before := run;
        OneRevoked(old(s), s, pool, credentials, i);
        var n := RevokeOne(Pool(pool, credentials[i]));
        total := total + n;
        OneMoreCount(start, before, run, |old(run)|, pool, credentials, at);
        at := at + [|run|];
      }
      assert credentials[..|credentials|] == credentials;
    }
  }

  // ------------------------------------------------------------------ revocation

  function KeysIn(pool: string, credentials: seq<string>): set<CredentialKey> {
    set c | c in credentials :: Pool(pool, c)
  }

  function RevokesOf(pool: string, credentials: seq<string>): seq<DenyStep> {
    seq(|credentials|, i requires 0 <= i < |credentials| => Revokes(Pool(pool, credentials[i])))
  }

  /** The state once these credentials are revoked and denied. */
  function Revoked(s: DenyState, keys: set<CredentialKey>): DenyState {
    s.(revoked := s.revoked + keys, told := s.told + keys, deny := s.deny + keys)
  }

  /** The rows of each of these credentials at these points of a run, added up. */
  ghost function LeasesAt(start: DenyState, run: seq<DenyStep>, at: seq<nat>, pool: string, credentials: seq<string>): nat
    requires |at| == |credentials| && forall i :: 0 <= i < |at| ==> at[i] <= |run|
  {
    if credentials == [] then 0
    else
      var n := |credentials| - 1;
      LeasesAt(start, run, at[..n], pool, credentials[..n])
      + |RowsOf(Run(start, run[..at[n]]).rows, Pool(pool, credentials[n]))|
  }

  /** Each credential was denied between a point of a run and the point of its own count. */
  ghost predicate RevokedIn(run: seq<DenyStep>, from: nat, pool: string, credentials: seq<string>, at: seq<nat>) {
    |at| <= |credentials|
    && forall i :: 0 <= i < |at| ==> from <= at[i] <= |run| && Revokes(Pool(pool, credentials[i])) in run[from..at[i]]
  }

  lemma NoneRevoked(start: DenyState, run: seq<DenyStep>, s: DenyState, pool: string, credentials: seq<string>)
    ensures KeysIn(pool, credentials[..0]) == {} && RevokesOf(pool, credentials[..0]) == []
    ensures Revoked(s, {}) == s && LeasesOf(s.rows, pool, credentials[..0]) == 0
    ensures LeasesAt(start, run, [], pool, credentials[..0]) == 0 && RevokedIn(run, |run|, pool, credentials, [])
  {
  }

  lemma OneRevoked(s: DenyState, now: DenyState, pool: string, credentials: seq<string>, i: nat)
    requires i < |credentials|
    ensures var key := Pool(pool, credentials[i]);
      && KeysIn(pool, credentials[..i + 1]) == KeysIn(pool, credentials[..i]) + {key}
      && RevokesOf(pool, credentials[..i + 1]) == RevokesOf(pool, credentials[..i]) + [Revokes(key)]
      && Revoked(now, {key}).rows == now.rows
      && (now == Revoked(s, KeysIn(pool, credentials[..i])) ==>
            Revoked(now, {key}) == Revoked(s, KeysIn(pool, credentials[..i + 1])))
      && LeasesOf(now.rows, pool, credentials[..i + 1]) == LeasesOf(now.rows, pool, credentials[..i]) + |RowsOf(now.rows, key)|
  {
    assert credentials[..i + 1] == credentials[..i] + [credentials[i]];
    assert credentials[..i + 1][..i] == credentials[..i];
    assert KeysIn(pool, credentials[..i + 1]) == KeysIn(pool, credentials[..i]) + {Pool(pool, credentials[i])};
  }

  lemma {:induction false} LeasesAtGrows(start: DenyState, run: seq<DenyStep>, more: seq<DenyStep>, at: seq<nat>,
      pool: string, credentials: seq<string>)
    requires |at| == |credentials| && run <= more && forall i :: 0 <= i < |at| ==> at[i] <= |run|
    ensures LeasesAt(start, more, at, pool, credentials) == LeasesAt(start, run, at, pool, credentials)
    decreases |at|
  {
    hide Run, RowsOf;
    if credentials != [] {
      var n := |credentials| - 1;
      LeasesAtGrows(start, run, more, at[..n], pool, credentials[..n]);
      assert more[..at[n]] == run[..at[n]];
    }
  }

  /** One more credential, denied and counted as the run went on. */
  lemma OneMoreCount(start: DenyState, before: seq<DenyStep>, run: seq<DenyStep>, from: nat, pool: string,
      credentials: seq<string>, at: seq<nat>)
    requires from <= |before| && before <= run && |at| < |credentials| && RevokedIn(before, from, pool, credentials, at)
    requires Revokes(Pool(pool, credentials[|at|])) in run[|before|..]
    ensures RevokedIn(run, from, pool, credentials, at + [|run|])
    ensures LeasesAt(start, run, at + [|run|], pool, credentials[..|at| + 1]) ==
      LeasesAt(start, before, at, pool, credentials[..|at|])
      + |RowsOf(Run(start, run).rows, Pool(pool, credentials[|at|]))|
  {
    hide Run, RowsOf, LeasesAt;
    var n := |at|;
    RevokedMore(before, run, from, pool, credentials, at);
    LeasesAtGrows(start, before, run, at, pool, credentials[..n]);
    LeasesAtMore(start, run, at, pool, credentials[..n], credentials[n]);
    assert credentials[..n + 1] == credentials[..n] + [credentials[n]];
  }

  lemma LeasesAtMore(start: DenyState, run: seq<DenyStep>, at: seq<nat>, pool: string, credentials: seq<string>, c: string)
    requires |at| == |credentials| && forall i :: 0 <= i < |at| ==> at[i] <= |run|
    ensures LeasesAt(start, run, at + [|run|], pool, credentials + [c]) ==
      LeasesAt(start, run, at, pool, credentials) + |RowsOf(Run(start, run).rows, Pool(pool, c))|
  {
    hide Run, RowsOf;
    assert (at + [|run|])[..|at|] == at && (credentials + [c])[..|at|] == credentials && run[..|run|] == run;
  }

  lemma RevokedMore(before: seq<DenyStep>, run: seq<DenyStep>, from: nat, pool: string, credentials: seq<string>,
      at: seq<nat>)
    requires from <= |before| && before <= run && |at| < |credentials| && RevokedIn(before, from, pool, credentials, at)
    requires Revokes(Pool(pool, credentials[|at|])) in run[|before|..]
    ensures RevokedIn(run, from, pool, credentials, at + [|run|])
  {
    forall i | 0 <= i < |at|
      ensures Revokes(Pool(pool, credentials[i])) in run[from..at[i]]
    {
      assert run[from..at[i]] == before[from..at[i]];
    }
    assert run[from..|run|] == run[from..|before|] + run[|before|..];
  }

  // ------------------------------------------------------------------ the rebuild

  function PoolKeys(pools: seq<(string, string)>): seq<CredentialKey> {
    seq(|pools|, i requires 0 <= i < |pools| => Pool(pools[i].0, pools[i].1))
  }

  function UserKeys(users: seq<(string, string)>): seq<CredentialKey> {
    seq(|users|, i requires 0 <= i < |users| => User(users[i].0, users[i].1))
  }

  /** One count of the rebuild: where in the run it was made, and what came of it. */
  datatype Tallied = Tallied(at: nat, failed: bool, kept: bool)

  function KeySet(keys: seq<CredentialKey>): set<CredentialKey> {
    set k | k in keys
  }

  lemma KeySetHolds(keys: seq<CredentialKey>, i: nat)
    requires i < |keys|
    ensures keys[i] in KeySet(keys)
  {
  }

  lemma KeySetMore(keys: seq<CredentialKey>, key: CredentialKey)
    ensures KeySet(keys + [key]) == KeySet(keys) + {key}
  {
  }

  /** The counts made of these keys, in order. */
  function TalliesOf(keys: seq<CredentialKey>, counts: seq<Tallied>): seq<DenyStep>
    requires |counts| <= |keys|
  {
    seq(|counts|, i requires 0 <= i < |counts| => Tallies(keys[i], counts[i].failed))
  }

  /** The calls of an attempt that has its keys. */
  function ListsAndTallies(keys: seq<CredentialKey>, counts: seq<Tallied>): seq<DenyStep>
    requires |counts| <= |keys|
  {
    [ListsPools(false), ListsUsers(false)] + TalliesOf(keys, counts)
  }

  /** The listings of an attempt in which one of them failed. */
  predicate Aborted(t: seq<DenyStep>) {
    t == [ListsPools(true)] || t == [ListsPools(false), ListsUsers(true)]
  }

  /** The calls of an attempt that failed. */
  predicate GivenUp(t: seq<DenyStep>) {
    t != [] && t[0] == Starts && Aborted(t[1..])
  }

  /** The calls of an attempt that committed. */
  predicate Done(t: seq<DenyStep>, keys: seq<CredentialKey>, counts: seq<Tallied>) {
    |counts| <= |keys| && t == [Starts] + ListsAndTallies(keys, counts) + [Commits]
  }

  function Joined(tries: seq<seq<DenyStep>>): seq<DenyStep> {
    if tries == [] then [] else Joined(tries[..|tries| - 1]) + tries[|tries| - 1]
  }

  /** The waits after failed attempts. */
  predicate BackedOff(waits: seq<nat>) {
    forall i :: 0 <= i < |waits| ==> waits[i] == Backoff(i)
  }

  predicate AllGivenUp(tries: seq<seq<DenyStep>>) {
    forall i :: 0 <= i < |tries| ==> GivenUp(tries[i])
  }

  lemma OneMoreWait(waits: seq<nat>, tries: seq<seq<DenyStep>>, t: seq<DenyStep>)
    requires BackedOff(waits) && AllGivenUp(tries) && GivenUp(t)
    ensures BackedOff(waits + [Backoff(|waits|)]) && AllGivenUp(tries + [t])
  {
  }

  lemma NoTries(a: seq<DenyStep>)
    ensures a == a + Joined([]) && BackedOff([]) && AllGivenUp([])
  {
  }

  lemma JoinedMore(a: seq<DenyStep>, tries: seq<seq<DenyStep>>, t: seq<DenyStep>)
    ensures a + Joined(tries + [t]) == a + Joined(tries) + t
  {
    assert (tries + [t])[..|tries|] == tries;
  }

  /** A count found, at its point of the run and for the attempt's time, what it says. */
  ghost predicate TalliedIn(start: DenyState, run: seq<DenyStep>, from: nat, key: CredentialKey, c: Tallied, t: int) {
    && from <= c.at < |run| && run[c.at] == Tallies(key, c.failed)
    && (c.kept <==> c.failed || HasActive(Run(start, run[..c.at]).rows, key, t))
  }

  ghost predicate CountedIn(
    start: DenyState, run: seq<DenyStep>, from: nat, keys: seq<CredentialKey>, counts: seq<Tallied>, t: int)
  {
    |counts| <= |keys| && forall i :: 0 <= i < |counts| ==> TalliedIn(start, run, from, keys[i], counts[i], t)
  }

  /** The counts as one state of the store answers them. */
  ghost predicate CountedNow(rows: map<RowId, LeaseRow>, keys: seq<CredentialKey>, counts: seq<Tallied>, t: int) {
    |counts| <= |keys|
    && forall i :: 0 <= i < |counts| ==> (counts[i].kept <==> counts[i].failed || HasActive(rows, keys[i], t))
  }

  lemma CountedLonger(start: DenyState, run: seq<DenyStep>, more: seq<DenyStep>, from: nat, keys: seq<CredentialKey>,
      counts: seq<Tallied>, t: int)
    requires run <= more && CountedIn(start, run, from, keys, counts, t)
    ensures CountedIn(start, more, from, keys, counts, t)
  {
    hide Run, HasActive;
    forall i | 0 <= i < |counts|
      ensures TalliedIn(start, more, from, keys[i], counts[i], t)
    {
      assert TalliedIn(start, run, from, keys[i], counts[i], t);
      assert more[..counts[i].at] == run[..counts[i].at];
    }
  }

  lemma CountedSooner(start: DenyState, run: seq<DenyStep>, from: nat, later: nat, keys: seq<CredentialKey>,
      counts: seq<Tallied>, t: int)
    requires from <= later && CountedIn(start, run, later, keys, counts, t)
    ensures CountedIn(start, run, from, keys, counts, t)
  {
    hide Run, HasActive;
    forall i | 0 <= i < |counts|
      ensures TalliedIn(start, run, from, keys[i], counts[i], t)
    {
      assert TalliedIn(start, run, later, keys[i], counts[i], t);
    }
  }

  lemma CountedGrows(start: DenyState, run: seq<DenyStep>, more: seq<DenyStep>, from: nat, keys: seq<CredentialKey>,
      counts: seq<Tallied>, c: Tallied, t: int)
    requires from <= |run| && run <= more && |counts| < |keys| && CountedIn(start, run, from, keys, counts, t)
    requires TalliedIn(start, more, |run|, keys[|counts|], c, t)
    ensures CountedIn(start, more, from, keys, counts + [c], t)
    ensures TalliesOf(keys, counts + [c]) == TalliesOf(keys, counts) + [Tallies(keys[|counts|], c.failed)]
  {
    hide Run, HasActive;
    CountedLonger(start, run, more, from, keys, counts, t);
  }

  lemma NothingKept(keys: seq<CredentialKey>)
    ensures KeySet(keys[..0]) == {} && Filtered(keys[..0], []) == [] && TalliesOf(keys, []) == []
  {
  }

  /** Others leave the rebuild's own steps in place. */
  lemma OthersOnly(run: seq<DenyStep>, more: seq<DenyStep>)
    requires run <= more && AllForeign(Rebuilder, more[|run|..])
    ensures OfRebuild(more) == OfRebuild(run)
  {
    assert more == run + more[|run|..];
    OfRebuildAppend(run, more[|run|..]);
    NoneOfRebuild(more[|run|..]);
  }

  lemma OneOfRebuild(run: seq<DenyStep>, step: DenyStep)
    requires ByRebuild(step)
    ensures OfRebuild(run + [step]) == OfRebuild(run) + [step]
  {
    assert (run + [step])[..|run|] == run;
  }

  /** The two listings together name all that was on record before either. */
  lemma BothListed(pools: seq<(string, string)>, users: seq<(string, string)>, before: set<CredentialKey>,
      first: set<CredentialKey>, second: set<CredentialKey>)
    requires KeySet(PoolKeys(pools)) == PoolsIn(first) && KeySet(UserKeys(users)) == UsersIn(second)
    requires before <= first <= second
    ensures var all := KeySet(PoolKeys(pools) + UserKeys(users));
      all == PoolsIn(first) + UsersIn(second) && before <= all && (first == second ==> all == first)
  {
    hide PoolKeys, UserKeys;
    var p, u := PoolKeys(pools), UserKeys(users);
    forall k
      ensures k in KeySet(p + u) <==> k in KeySet(p) || k in KeySet(u)
    {
      assert k in p + u <==> k in p || k in u;
    }
    assert KeySet(p + u) == KeySet(p) + KeySet(u);
  }

  lemma CommitIs(s: DenyState)
    requires s.rebuild.Counting? && s.rebuild.todo == {}
    ensures Committing(s, Commits)
    ensures Next(s, Commits) == s.(deny := s.rebuild.kept, told := s.told + s.rebuild.listed, rebuild := Waiting)
  {
  }

  lemma OneStep(s: DenyState, step: DenyStep)
    ensures Run(s, [step]) == Next(s, step)
  {
    hide Next;
    assert [step][1..] == [];
  }

  lemma KeySetStep(keys: seq<CredentialKey>, i: nat)
    requires i < |keys|
    ensures KeySet(keys[..i + 1]) == KeySet(keys[..i]) + {keys[i]}
  {
    assert keys[..i + 1] == keys[..i] + [keys[i]];
  }

  /** The keys whose count says they are kept, in order. */
  function Filtered(keys: seq<CredentialKey>, counts: seq<Tallied>): seq<CredentialKey>
    requires |counts| == |keys|
  {
    if keys == [] then []
    else
      var n := |keys| - 1;
      Filtered(keys[..n], counts[..n]) + if counts[n].kept then [keys[n]] else []
  }

  /** An element written at or before i leaves what comes after i. */
  lemma SameAfter(before: seq<CredentialKey>, now: seq<CredentialKey>, all: seq<CredentialKey>, i: nat)
    requires i < |before| == |now| == |all| && before[i..] == all[i..]
    requires forall j :: i < j < |before| ==> now[j] == before[j]
    ensures now[i + 1..] == all[i + 1..]
  {
    forall j | i < j < |all|
      ensures now[j] == all[j]
    {
      assert before[i..][j - i] == all[i..][j - i];
    }
  }

  lemma FilteredStep(keys: seq<CredentialKey>, counts: seq<Tallied>, c: Tallied)
    requires |counts| < |keys|
    ensures var i := |counts|;
      Filtered(keys[..i + 1], counts + [c]) == Filtered(keys[..i], counts) + if c.kept then [keys[i]] else []
  {
    hide Filtered;
    FilteredMore(keys[..|counts|], keys[|counts|], counts, c);
    assert keys[..|counts| + 1] == keys[..|counts|] + [keys[|counts|]];
  }

  lemma FilteredMore(keys: seq<CredentialKey>, key: CredentialKey, counts: seq<Tallied>, c: Tallied)
    requires |counts| == |keys|
    ensures Filtered(keys + [key], counts + [c]) == Filtered(keys, counts) + if c.kept then [key] else []
  {
    assert (keys + [key])[..|keys|] == keys && (counts + [c])[..|keys|] == counts;
  }

  /** The keys whose count failed. */
  ghost function Unanswered(keys: seq<CredentialKey>, counts: seq<Tallied>): set<CredentialKey>
    requires |counts| == |keys|
  {
    set i | 0 <= i < |keys| && counts[i].failed :: keys[i]
  }

  /** A key is left by the filter exactly when one of its counts says that it is kept. */
  lemma {:induction false} FilteredExactly(keys: seq<CredentialKey>, counts: seq<Tallied>, k: CredentialKey)
    requires |counts| == |keys|
    ensures k in Filtered(keys, counts) <==> exists i :: 0 <= i < |keys| && keys[i] == k && counts[i].kept
  {
    hide Filtered;
    NoneFiltered();
    if keys != [] {
      var n := |keys| - 1;
      FilteredExactly(keys[..n], counts[..n], k);
      FilteredMore(keys[..n], keys[n], counts[..n], counts[n]);
      assert keys[..n] + [keys[n]] == keys && counts[..n] + [counts[n]] == counts;
      forall i | 0 <= i < n
        ensures keys[..n][i] == keys[i] && counts[..n][i] == counts[i]
      {
      }
    }
  }

  lemma NoneFiltered()
    ensures Filtered([], []) == []
  {
  }

  /**
   What the filter keeps, if the store does not change, lies between the listed credentials with an
   active lease and the listed ones.
   */
  lemma FilteredBetween(keys: seq<CredentialKey>, counts: seq<Tallied>, rows: map<RowId, LeaseRow>, t: int,
      k: CredentialKey)
    requires |counts| == |keys| && CountedNow(rows, keys, counts, t)
    ensures k in Filtered(keys, counts) <==>
      k in keys && (k in Unanswered(keys, counts) || HasActive(rows, k, t))
  {
    hide HasActive, Filtered;
    FilteredExactly(keys, counts, k);
    if k in keys && HasActive(rows, k, t) {
      var i :| 0 <= i < |keys| && keys[i] == k;
      assert counts[i].kept;
    }
    if k in Unanswered(keys, counts) {
      var i :| 0 <= i < |keys| && counts[i].failed && keys[i] == k;
      assert counts[i].kept;
    }
  }

  lemma FilteredIsRebuilt(s: DenyState, keys: seq<CredentialKey>, counts: seq<Tallied>)
    requires |counts| == |keys| && KeySet(keys) == s.revoked && CountedNow(s.rows, keys, counts, s.clock)
    ensures Rebuilt(s, Unanswered(keys, counts)) == s.(deny := KeySet(Filtered(keys, counts)), told := s.told + s.revoked)
  {
    hide HasActive, Filtered, Unanswered;
    var kept := KeySet(Filtered(keys, counts));
    var rebuilt := Rebuilt(s, Unanswered(keys, counts)).deny;
    forall k
      ensures k in kept <==> k in rebuilt
    {
      FilteredBetween(keys, counts, s.rows, s.clock, k);
      assert k in KeySet(keys) <==> k in keys;
    }
    assert kept == rebuilt;
  }

  /** The waits in milliseconds: 1, 2, 4, 8 and 16 seconds, and thirty from then on. */
  function Backoff(i: nat): nat {
    if i < 5 then [1000, 2000, 4000, 8000, 16000][i] else 30000
  }

  lemma FirstWait()
    ensures Backoff(0) == 1000
  {
  }

  lemma BackoffDoubles(i: nat)
    ensures Backoff(i + 1) == if 2 * Backoff(i) > 30000 then 30000 else 2 * Backoff(i)
  {
  }

  function LeasesOf(rows: map<RowId, LeaseRow>, pool: string, credentials: seq<string>): nat {
    if credentials == [] then 0
    else
      var n := |credentials| - 1;
      LeasesOf(rows, pool, credentials[..n]) + |RowsOf(rows, Pool(pool, credentials[n]))|
  }

  lemma Continued(start: DenyState, a: seq<DenyStep>, b: seq<DenyStep>)
    requires a <= b
    ensures Run(start, b) == Run(Run(start, a), b[|a|..])
    ensures var s, rest := Run(start, a), b[|a|..];
      && (Kept(s) && AllTimely(s, rest) ==>
            && (SafeThroughout(s, rest) <==> AllUnerased(s, rest))
            && (AllUnerased(s, rest) ==> Kept(Run(start, b)) && Safe(Run(start, b))))
      && (KeptStrong(s) && AllSharp(s, rest) ==> KeptStrong(Run(start, b)) && Safe(Run(start, b)))
  {
    hide Next, Kept, KeptStrong, AllTimely, AllUnerased, AllSharp, Safe, SafeThroughout;
    var s, rest := Run(start, a), b[|a|..];
    assert b == a + rest;
    RunAppend(start, a, rest);
    if Kept(s) && AllTimely(s, rest) {
      RunSafeExactly(s, rest);
      if AllUnerased(s, rest) {
        RunKeeps(s, rest);
      }
    }
    if KeptStrong(s) && AllSharp(s, rest) {
      RunKeepsStrong(s, rest);
    }
  }

  lemma FewerRows(rows: map<RowId, LeaseRow>, t: int)
    ensures |rows.Keys - DeleteExpired(rows, t).Keys| == |rows| - |DeleteExpired(rows, t)|
  {
    var less := DeleteExpired(rows, t).Keys;
    assert rows.Keys == less + (rows.Keys - less);
  }

  lemma NothingChecked(s: DenyState, now: DenyState)
    requires now == s.(rows := DeleteExpired(s.rows, s.clock), phase := now.phase)
    ensures PartWay(s, now, s.deny, {})
  {
  }

  lemma EntryKept(s: DenyState, was: DenyState, now: DenyState, keys: set<CredentialKey>, key: CredentialKey,
      few: set<CredentialKey>, many: set<CredentialKey>)
    requires PartWay(s, was, keys, few) && key in keys && now == was.(phase := now.phase)
    requires many == few + {key} || (many == few && HasActive(was.rows, key, s.clock))
    ensures PartWay(s, now, keys - {key}, many)
  {
    hide HasActive, DeleteExpired;
  }

  lemma EntryDropped(s: DenyState, was: DenyState, now: DenyState, keys: set<CredentialKey>,
      key: CredentialKey, unanswered: set<CredentialKey>)
    requires PartWay(s, was, keys, unanswered) && key in keys && !HasActive(was.rows, key, s.clock)
    requires now == was.(deny := was.deny - {key}, phase := now.phase)
    ensures PartWay(s, now, keys - {key}, unanswered) && key in was.deny
  {
    hide HasActive, DeleteExpired;
  }

  lemma AllChecked(s: DenyState, now: DenyState, unanswered: set<CredentialKey>)
    requires PartWay(s, now, {}, unanswered)
    ensures now == Tick(s, unanswered).(phase := now.phase)
  {
    hide HasActive, DeleteExpired;
  }

  lemma NotARemoval(run: seq<DenyStep>, step: DenyStep)
    requires !step.Removes?
    ensures Removals(run + [step]) == Removals(run)
  {
    assert (run + [step])[..|run|] == run;
  }

  lemma ARemoval(run: seq<DenyStep>)
    ensures Removals(run + [Removes]) == Removals(run) + 1
  {
    assert (run + [Removes])[..|run|] == run;
  }
}
