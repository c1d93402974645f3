/** What every run of the deny list's machine keeps, and exactly when it does. */
module DenySafety {
  import opened Base
  import opened DenyList

  lemma {:induction false} RunAppend(s: DenyState, a: seq<DenyStep>, b: seq<DenyStep>)
    ensures Run(s, a + b) == Run(Run(s, a), b)
    decreases |a|
  {
    if a == [] {
      assert a + b == b;
    } else {
      assert (a + b)[1..] == a[1..] + b;
      RunAppend(Next(s, a[0]), a[1..], b);
    }
  }

  /** The state before the last step, and the last step. */
  lemma RunLast(s: DenyState, steps: seq<DenyStep>)
    requires steps != []
    ensures Run(s, steps) == Next(Run(s, steps[..|steps| - 1]), steps[|steps| - 1])
  {
    hide Next;
    var front, last := steps[..|steps| - 1], steps[|steps| - 1];
    assert steps == front + [last];
    RunAppend(s, front, [last]);
    assert [last][1..] == [];
  }

  // ------------------------------------------------------------------ safety

  /** Every credential whose revocation reached this replica and that has an unexpired lease is denied. */
  ghost predicate Safe(s: DenyState) {
    forall id <- s.rows :: s.rows[id].key in s.told && Active(s.rows[id], s.clock) ==> s.rows[id].key in s.deny
  }

  /** What the rebuild is about to commit: a credential it counted and dropped has no lease active at its time. */
  ghost predicate RebuildKept(s: DenyState) {
    && (!s.rebuild.Waiting? ==> s.rebuild.at <= s.clock)
    && (s.rebuild.HalfListed? || s.rebuild.Counting? ==> s.rebuild.listed <= s.revoked)
    && (s.rebuild.Counting? ==>
          && s.rebuild.todo <= s.rebuild.listed && s.rebuild.kept <= s.rebuild.listed
          && forall id <- s.rows :: Dropped(s, s.rows[id].key) ==> !Active(s.rows[id], s.rebuild.at))
  }

  /** A listed credential whose count was a definite zero. */
  predicate Dropped(s: DenyState, key: CredentialKey) {
    s.rebuild.Counting? && key in s.rebuild.listed && key !in s.rebuild.todo && key !in s.rebuild.kept
  }

  /** What the sweep is about to remove has no lease active at its time. */
  ghost predicate TickKept(s: DenyState) {
    && (!s.phase.Resting? ==> s.phase.now <= s.clock)
    && (s.phase.Sweeping? || s.phase.Removing? ==> s.phase.todo <= s.revoked)
    && (s.phase.Removing? ==>
          && s.phase.key in s.revoked
          && forall id <- s.rows :: s.rows[id].key == s.phase.key ==> !Active(s.rows[id], s.phase.now))
  }

  /** What every step keeps while leases are issued and extended in time and no commit erases a revocation. */
  ghost predicate Kept(s: DenyState) {
    Safe(s) && s.deny <= s.told <= s.revoked && TickKept(s) && RebuildKept(s)
  }

  /** A lease is issued before its credential is revoked, and extended before it expires. */
  predicate Timely(s: DenyState, step: DenyStep) {
    && (step.Issues? ==> step.key !in s.revoked)
    && (step.Extends? && step.id in s.rows ==> Active(s.rows[step.id], s.clock))
  }

  predicate AllTimely(s: DenyState, steps: seq<DenyStep>)
    decreases |steps|
  {
    steps == [] || (Timely(s, steps[0]) && AllTimely(Next(s, steps[0]), steps[1..]))
  }

  /** The step commits a rebuild. */
  predicate Committing(s: DenyState, step: DenyStep) {
    step.Commits? && s.rebuild.Counting? && s.rebuild.todo == {}
  }

  /** A commit finds in its listing every credential this replica was told of that has an unexpired lease. */
  ghost predicate Unerased(s: DenyState, step: DenyStep) {
    Committing(s, step) ==>
      forall id <- s.rows :: s.rows[id].key in s.told && Active(s.rows[id], s.clock) ==> s.rows[id].key in s.rebuild.listed
  }

  ghost predicate AllUnerased(s: DenyState, steps: seq<DenyStep>)
    decreases |steps|
  {
    steps == [] || (Unerased(s, steps[0]) && AllUnerased(Next(s, steps[0]), steps[1..]))
  }

  /**
   A commit is safe exactly when no credential this replica was told of is missing from its listing
   with a lease unexpired. What the counts leave out is never the reason.
   */
  lemma CommitSafeExactly(s: DenyState)
    requires Kept(s) && Committing(s, Commits)
    ensures var after := Next(s, Commits);
      && (Safe(after) <==> Unerased(s, Commits))
      && (Safe(after) ==> Kept(after))
  {
    var after := Next(s, Commits);
    forall id | id in s.rows && s.rows[id].key in s.rebuild.listed && Active(s.rows[id], s.clock)
      ensures s.rows[id].key in after.deny
    {
      assert !Dropped(s, s.rows[id].key);
    }
    if Safe(after) {
      forall id | id in s.rows && s.rows[id].key in s.told && Active(s.rows[id], s.clock)
        ensures s.rows[id].key in s.rebuild.listed
      {
        assert id in after.rows;
      }
    }
  }

  lemma StepKeepsTick(s: DenyState, step: DenyStep)
    requires TickKept(s) && s.deny <= s.revoked && Timely(s, step)
    ensures TickKept(Next(s, step))
  {
    match step
    case Passes(_) =>
    case Issues(_, _, _) =>
    case Releases(_) =>
    case Extends(_, _) =>
    case Marks(_) =>
    case Revokes(_) =>
    case Deletes(_) =>
    case Counts(_, _) =>
    case Removes =>
    case ListsPools(_) =>
    case ListsUsers(_) =>
    case Tallies(_, _) =>
    case _ =>
  }

  lemma StepKeepsRebuild(s: DenyState, step: DenyStep)
    requires RebuildKept(s) && Timely(s, step)
    ensures RebuildKept(Next(s, step))
  {
    match step
    case Passes(_) =>
    case Issues(_, _, _) =>
    case Releases(_) =>
    case Extends(_, _) =>
    case Marks(_) =>
    case Revokes(_) =>
    case Deletes(_) =>
    case Counts(_, _) =>
    case Removes =>
    case ListsPools(_) =>
    case ListsUsers(_) =>
    case Tallies(_, _) =>
    case _ =>
  }

  lemma OtherStepKeeps(s: DenyState, step: DenyStep)
    requires Kept(s) && Timely(s, step) && !step.Commits?
    ensures Kept(Next(s, step))
  {
    hide RebuildKept;
    StepKeepsTick(s, step);
    StepKeepsRebuild(s, step);
    match step
    case Passes(_) =>
    case Issues(_, _, _) =>
    case Releases(_) =>
    case Extends(_, _) =>
    case Marks(_) =>
    case Revokes(_) =>
    case Deletes(_) =>
    case Counts(_, _) =>
    case Removes =>
    case ListsPools(_) =>
    case ListsUsers(_) =>
    case Tallies(_, _) =>
    case _ =>
  }

  /** With timely leases the commit of a rebuild is the only step that can lose safety, and it does so exactly then. */
  lemma StepKeepsExactly(s: DenyState, step: DenyStep)
    requires Kept(s) && Timely(s, step)
    ensures Safe(Next(s, step)) <==> Unerased(s, step)
    ensures Unerased(s, step) ==> Kept(Next(s, step))
  {
    hide Unerased;
    if Committing(s, step) {
      CommitSafeExactly(s);
    } else {
      NothingCommitted(s, step);
      if !step.Commits? {
        OtherStepKeeps(s, step);
      }
    }
  }

  lemma NothingCommitted(s: DenyState, step: DenyStep)
    requires !Committing(s, step)
    ensures Unerased(s, step) && (step.Commits? ==> Next(s, step) == s)
  {
  }

  /** On every such run a credential known to be revoked stays denied while it has an unexpired lease. */
  lemma {:induction false} RunKeeps(s: DenyState, steps: seq<DenyStep>)
    requires Kept(s) && AllTimely(s, steps) && AllUnerased(s, steps)
    ensures Kept(Run(s, steps)) && Safe(Run(s, steps))
    decreases |steps|
  {
    hide Next, Kept, Unerased;
    if steps != [] {
      StepKeepsExactly(s, steps[0]);
      RunKeeps(Next(s, steps[0]), steps[1..]);
    } else {
      KeptIsSafe(s);
    }
  }

  lemma KeptIsSafe(s: DenyState)
    requires Kept(s)
    ensures Safe(s)
  {
  }

  /** The list is safe in every state of the run. */
  ghost predicate SafeThroughout(s: DenyState, steps: seq<DenyStep>)
    decreases |steps|
  {
    Safe(s) && (steps == [] || SafeThroughout(Next(s, steps[0]), steps[1..]))
  }

  /** With timely leases a run is safe in every state exactly when no commit erases a revocation. */
  lemma {:induction false} RunSafeExactly(s: DenyState, steps: seq<DenyStep>)
    requires Kept(s) && AllTimely(s, steps)
    ensures SafeThroughout(s, steps) <==> AllUnerased(s, steps)
    decreases |steps|
  {
    hide Next, Kept, Unerased, Safe;
    KeptIsSafe(s);
    if steps != [] {
      StepKeepsExactly(s, steps[0]);
      if Unerased(s, steps[0]) {
        RunSafeExactly(Next(s, steps[0]), steps[1..]);
      }
    }
  }

  // ------------------------------------------------------------------ the commit of a rebuild

  /** The state a replica starts in: nothing is denied, and nothing was heard of. */
  function Started(rows: map<RowId, LeaseRow>, revoked: set<CredentialKey>, clock: int): DenyState {
    DenyState(rows, {}, {}, revoked, clock, Resting, Waiting)
  }

  lemma StartedIsKept(rows: map<RowId, LeaseRow>, revoked: set<CredentialKey>, clock: int)
    ensures Kept(Started(rows, revoked, clock))
  {
  }

  /** The input: a revocation that comes after the listing and before the commit is erased, with its lease unexpired. */
  lemma RevocationErased() returns (s: DenyState, key: CredentialKey, steps: seq<DenyStep>)
    ensures steps == [Starts, ListsPools(false), ListsUsers(false), Marks(key), Revokes(key), Commits]
    ensures s == Started(map[7 := LeaseRow(key, Some(20))], {}, 10) && Kept(s) && AllTimely(s, steps)
    ensures SafeThroughout(s, steps[..5]) && !Safe(Run(s, steps))
  {
    key := Pool("p", "c");
    s := Started(map[7 := LeaseRow(key, Some(20))], {}, 10);
    steps := [Starts, ListsPools(false), ListsUsers(false), Marks(key), Revokes(key), Commits];
    StartedIsKept(s.rows, {}, s.clock);
    var known := Run(s, steps[..5]);
    var listing := [Starts, ListsPools(false), ListsUsers(false)];
    assert known.rows == s.rows && known.clock == 10 && key in known.told && known.rebuild == Counting(10, {}, {}, {}) by {
      Listed(s);
      assert steps[..5] == listing + [Marks(key), Revokes(key)];
      RunAppend(s, listing, [Marks(key), Revokes(key)]);
      Learned(Run(s, listing), key);
    }
    Untimed(s, steps);
    Untimed(s, steps[..5]);
    RunSafeExactly(s, steps[..5]);
    Uncommitted(s, steps[..5]);
    RunLast(s, steps);
    var last := Run(s, steps);
    assert 7 in last.rows && Active(last.rows[7], last.clock) && last.rows[7].key in last.told && key !in last.deny;
  }

  /** Both listings of an attempt, when nothing is revoked. */
  lemma Listed(s: DenyState)
    requires s.rebuild.Waiting? && s.revoked == {}
    ensures Run(s, [Starts, ListsPools(false), ListsUsers(false)]) == s.(rebuild := Counting(s.clock, {}, {}, {}))
  {
    hide Next;
    var a, b, c := Starts, ListsPools(false), ListsUsers(false);
    assert Run(s, [a, b, c]) == Next(Next(Next(s, a), b), c) by {
      RunLast(s, [a, b, c]);
      RunLast(s, [a, b]);
      RunLast(s, [a]);
      assert [a, b, c][..2] == [a, b] && [a, b][..1] == [a] && [a][..0] == [] && Run(s, []) == s;
    }
    ListedIs(s);
  }

  lemma ListedIs(s: DenyState)
    requires s.rebuild.Waiting? && s.revoked == {}
    ensures Next(Next(Next(s, Starts), ListsPools(false)), ListsUsers(false)) ==
      s.(rebuild := Counting(s.clock, {}, {}, {}))
  {
    var none: set<CredentialKey> := {};
    assert PoolsIn(s.revoked) == none && none + UsersIn(s.revoked) == none;
  }

  lemma Learned(s: DenyState, key: CredentialKey)
    ensures var after := Run(s, [Marks(key), Revokes(key)]);
      after.rows == s.rows && after.clock == s.clock && key in after.told && after.rebuild == s.rebuild
  {
    var steps := [Marks(key), Revokes(key)];
    RunLast(s, steps);
    RunLast(s, steps[..1]);
    assert steps[..1][..0] == [];
    assert Run(s, []) == s;
  }

  /** Steps that touch no lease are timely. */
  lemma {:induction false} Untimed(s: DenyState, steps: seq<DenyStep>)
    requires forall i :: 0 <= i < |steps| ==> !steps[i].Issues? && !steps[i].Extends?
    ensures AllTimely(s, steps)
    decreases |steps|
  {
    hide Next;
    if steps != [] {
      Untimed(Next(s, steps[0]), steps[1..]);
    }
  }

  lemma {:induction false} Uncommitted(s: DenyState, steps: seq<DenyStep>)
    requires forall i :: 0 <= i < |steps| ==> !steps[i].Commits?
    ensures AllUnerased(s, steps)
    decreases |steps|
  {
    hide Next;
    if steps != [] {
      Uncommitted(Next(s, steps[0]), steps[1..]);
    }
  }

  /** The store of this credential was listed without it. */
  predicate Missing(s: DenyState, key: CredentialKey) {
    (s.rebuild.Counting? || (s.rebuild.HalfListed? && key.Pool?)) && key !in s.rebuild.listed
  }

  lemma StepMissing(s: DenyState, step: DenyStep, key: CredentialKey)
    requires Missing(Next(s, step), key)
    ensures Missing(s, key) || (step == (if key.Pool? then ListsPools(false) else ListsUsers(false)) && key !in s.revoked)
    ensures key in Next(s, step).told ==> key in s.told || step == Revokes(key)
  {
  }

  lemma {:induction false} ToldIsRevoked(s: DenyState, steps: seq<DenyStep>)
    requires s.told <= s.revoked && (s.rebuild.HalfListed? || s.rebuild.Counting? ==> s.rebuild.listed <= s.revoked)
    ensures Run(s, steps).told <= Run(s, steps).revoked
    decreases |steps|
  {
    if steps != [] {
      ToldIsRevoked(Next(s, steps[0]), steps[1..]);
    }
  }

  /**
   What a commit can erase: only a credential that was recorded as revoked after its store was
   listed for this attempt, and whose revocation then reached the replica before the commit.
   */
  lemma ErasedWasLate(s: DenyState, steps: seq<DenyStep>, key: CredentialKey) returns (i: nat, j: nat)
    requires s.rebuild.Waiting? && s.told <= s.revoked
    requires Missing(Run(s, steps), key) && key in Run(s, steps).told
    ensures i < j < |steps| && steps[i] == (if key.Pool? then ListsPools(false) else ListsUsers(false))
    ensures key !in Run(s, steps[..i]).revoked && steps[j] == Revokes(key)
  {
    hide Next, Missing;
    i := ListedWithout(s, steps, key);
    ToldIsRevoked(s, steps[..i]);
    RunLast(s, steps[..i + 1]);
    assert steps[..i + 1][..i] == steps[..i];
    ListingTellsNothing(Run(s, steps[..i]));
    j := ToldLater(s, steps, key, i);
  }

  lemma ListingTellsNothing(s: DenyState)
    ensures Next(s, ListsPools(false)).told == s.told && Next(s, ListsUsers(false)).told == s.told
  {
  }

  lemma {:induction false} ListedWithout(s: DenyState, steps: seq<DenyStep>, key: CredentialKey) returns (i: nat)
    requires s.rebuild.Waiting? && Missing(Run(s, steps), key)
    ensures i < |steps| && steps[i] == (if key.Pool? then ListsPools(false) else ListsUsers(false))
    ensures key !in Run(s, steps[..i]).revoked
    ensures forall k :: i < k <= |steps| ==> Missing(Run(s, steps[..k]), key)
    decreases |steps|
  {
    hide Next;
    assert steps[..|steps|] == steps;
    var front := steps[..|steps| - 1];
    RunLast(s, steps);
    StepMissing(Run(s, front), steps[|steps| - 1], key);
    if Missing(Run(s, front), key) {
      i := ListedWithout(s, front, key);
      forall k | i < k <= |steps|
        ensures Missing(Run(s, steps[..k]), key)
      {
        if k < |steps| {
          assert front[..k] == steps[..k];
        }
      }
      assert front[..i] == steps[..i];
    } else {
      i := |front|;
    }
  }

  lemma {:induction false} ToldLater(s: DenyState, steps: seq<DenyStep>, key: CredentialKey, i: nat) returns (j: nat)
    requires i < |steps| && key in Run(s, steps).told && key !in Run(s, steps[..i + 1]).told
    requires forall k :: i < k <= |steps| ==> Missing(Run(s, steps[..k]), key)
    ensures i < j < |steps| && steps[j] == Revokes(key)
    decreases |steps|
  {
    hide Next, Missing;
    assert steps[..|steps|] == steps;
    var n := |steps| - 1;
    var front := steps[..n];
    RunLast(s, steps);
    StepMissing(Run(s, front), steps[n], key);
    if key in Run(s, front).told {
      forall k | i < k <= n
        ensures Missing(Run(s, front[..k]), key)
      {
        assert front[..k] == steps[..k];
      }
      assert front[..i + 1] == steps[..i + 1];
      j := ToldLater(s, front, key, i);
    } else {
      j := n;
    }
  }

  /** A whole rebuild with nothing in between: the revoked that have an active lease or could not be counted. */
  function Rebuilt(s: DenyState, unanswered: set<CredentialKey>): DenyState {
    s.(told := s.told + s.revoked, deny := set k | k in s.revoked && (k in unanswered || HasActive(s.rows, k, s.clock)))
  }

  /** Alone, the rebuild makes any state safe, however many of its lease counts fail, and denies only what is revoked. */
  lemma RebuildMakesSafe(s: DenyState, unanswered: set<CredentialKey>)
    requires s.told <= s.revoked
    ensures var after := Rebuilt(s, unanswered);
      && Safe(after) && after.deny <= after.told == s.revoked
      && (forall k <- s.revoked :: HasActive(s.rows, k, s.clock) ==> k in after.deny)
      && (s.phase.Resting? && s.rebuild.Waiting? ==> Kept(after))
  {
  }

  // ------------------------------------------------------------------ when extensions may come late

  /** Every credential known to be revoked that has a row at all is denied. */
  ghost predicate Strong(s: DenyState) {
    forall id <- s.rows :: s.rows[id].key in s.told ==> s.rows[id].key in s.deny
  }

  predicate BySweep(step: DenyStep) {
    step.Reads? || step.Deletes? || step.Snapshots? || step.Counts? || step.Removes? || step.Finishes?
  }

  predicate ByRebuild(step: DenyStep) {
    step.Starts? || step.ListsPools? || step.ListsUsers? || step.Tallies? || step.Commits?
  }

  /** Steps of the rest of the system, with leases only for credentials that are not revoked. */
  predicate AllOutside(s: DenyState, steps: seq<DenyStep>)
    decreases |steps|
  {
    steps == [] ||
    (&& !BySweep(steps[0]) && !ByRebuild(steps[0]) && (steps[0].Issues? ==> steps[0].key !in s.revoked)
     && AllOutside(Next(s, steps[0]), steps[1..]))
  }

  lemma {:induction false} OutsideKeepsStrong(s: DenyState, steps: seq<DenyStep>)
    requires Strong(s) && s.told <= s.revoked && AllOutside(s, steps)
    ensures Strong(Run(s, steps))
    decreases |steps|
  {
    if steps != [] {
      OutsideKeepsStrong(Next(s, steps[0]), steps[1..]);
    }
  }

  /**
   A state is safe whatever the rest of the system does next exactly when every credential known to
   be revoked that has a row is denied: a row past its expiry is enough, because it can still be
   extended.
   */
  lemma StrongExactly(s: DenyState)
    requires s.told <= s.revoked
    ensures Strong(s) <==> forall steps :: AllOutside(s, steps) ==> Safe(Run(s, steps))
  {
    if Strong(s) {
      forall steps | AllOutside(s, steps)
        ensures Safe(Run(s, steps))
      {
        OutsideKeepsStrong(s, steps);
      }
    } else {
      var id :| id in s.rows && s.rows[id].key in s.told && s.rows[id].key !in s.deny;
      ExtendedUnsafe(s, id);
    }
  }

  lemma ExtendedUnsafe(s: DenyState, id: RowId)
    requires id in s.rows && s.rows[id].key in s.told && s.rows[id].key !in s.deny
    ensures var steps := [Extends(id, s.clock + 1)]; AllOutside(s, steps) && !Safe(Run(s, steps))
  {
    var steps := [Extends(id, s.clock + 1)];
    var after := Next(s, steps[0]);
    assert steps[1..] == [] && AllOutside(after, []) && AllOutside(s, steps);
    assert Run(after, []) == after && Run(s, steps) == after;
    assert id in after.rows && Active(after.rows[id], after.clock);
  }

  /** A whole tick with nothing in between: expired rows go, then every entry without an active lease. */
  function Tick(s: DenyState, unanswered: set<CredentialKey>): DenyState {
    var rows := DeleteExpired(s.rows, s.clock);
    s.(rows := rows, deny := set k | k in s.deny && (k in unanswered || HasActive(rows, k, s.clock)))
  }

  /** No denied credential is left with nothing but a row that expires at this very instant. */
  ghost predicate NoneOnTheDot(s: DenyState, unanswered: set<CredentialKey>) {
    forall id <- s.rows ::
      s.rows[id].key in s.deny && s.rows[id].key !in unanswered && s.rows[id].expires == Some(s.clock) ==>
        HasActive(s.rows, s.rows[id].key, s.clock)
  }

  lemma ActiveSurvives(rows: map<RowId, LeaseRow>, key: CredentialKey, t: int)
    ensures HasActive(DeleteExpired(rows, t), key, t) <==> HasActive(rows, key, t)
  {
    if HasActive(rows, key, t) {
      var id :| id in rows && rows[id].key == key && Active(rows[id], t);
      assert id in DeleteExpired(rows, t);
    }
  }

  /** A tick leaves the list safe for good exactly when no denied credential hangs on such a row. */
  lemma TickExactly(s: DenyState, unanswered: set<CredentialKey>)
    requires Strong(s) && s.deny <= s.told
    ensures Strong(Tick(s, unanswered)) <==> NoneOnTheDot(s, unanswered)
  {
    var after := Tick(s, unanswered);
    forall k
      ensures HasActive(after.rows, k, s.clock) <==> HasActive(s.rows, k, s.clock)
    {
      ActiveSurvives(s.rows, k, s.clock);
    }
    if NoneOnTheDot(s, unanswered) {
      forall id | id in after.rows && after.rows[id].key in after.told
        ensures after.rows[id].key in after.deny
      {
        assert id in s.rows;
        if Active(s.rows[id], s.clock) {
          assert HasActive(s.rows, s.rows[id].key, s.clock);
        }
      }
    }
    if Strong(after) {
      forall id | id in s.rows && s.rows[id].key in s.deny && s.rows[id].key !in unanswered
                  && s.rows[id].expires == Some(s.clock)
        ensures HasActive(s.rows, s.rows[id].key, s.clock)
      {
        assert id in after.rows;
      }
    }
  }

  /** The rebuild likewise, for rows past their expiry that no sweep has deleted yet. */
  lemma RebuildExactly(s: DenyState, unanswered: set<CredentialKey>)
    requires s.told <= s.revoked
    ensures Strong(Rebuilt(s, unanswered)) <==>
      forall id <- s.rows :: s.rows[id].key in s.revoked ==>
        s.rows[id].key in unanswered || HasActive(s.rows, s.rows[id].key, s.clock)
  {
  }

  /** The boundary: a lease that expires at the tick's own time, and an extension that comes after it. */
  lemma LateExtensionRevives()
    ensures exists s: DenyState, id: RowId, expires: int ::
      && Strong(s) && Kept(s) && s.phase.Resting?
      && Safe(Tick(s, {})) && !Safe(Next(Tick(s, {}), Extends(id, expires)))
  {
    var key := Pool("p", "c");
    var s := DenyState(map[7 := LeaseRow(key, Some(10))], {key}, {key}, {key}, 10, Resting, Waiting);
    var after := Tick(s, {});
    assert after.rows == s.rows;
    assert !HasActive(after.rows, key, 10);
    assert after.deny == {};
    var last := Next(after, Extends(7, 20));
    assert last.rows[7] == LeaseRow(key, Some(20)) && 7 in last.rows;
    assert Active(last.rows[7], last.clock);
    assert !Safe(last);
    assert Strong(s) && Kept(s) && Safe(after);
  }

  /** What every step keeps, late extensions included, as long as no tick falls on the dot and nothing is erased. */
  ghost predicate KeptStrong(s: DenyState) {
    && Strong(s) && s.deny <= s.told <= s.revoked
    && (!s.phase.Resting? ==> s.phase.now <= s.clock)
    && (s.phase.Deleted? || s.phase.Sweeping? || s.phase.Removing? ==>
          forall id <- s.rows :: Active(s.rows[id], s.phase.now))
    && (s.phase.Sweeping? || s.phase.Removing? ==> s.phase.todo <= s.revoked)
    && (s.phase.Removing? ==> s.phase.key in s.revoked && forall id <- s.rows :: s.rows[id].key != s.phase.key)
    && (s.rebuild.HalfListed? || s.rebuild.Counting? ==> s.rebuild.listed <= s.revoked)
    && (s.rebuild.Counting? ==>
          && s.rebuild.todo <= s.rebuild.listed && s.rebuild.kept <= s.rebuild.listed
          && forall id <- s.rows :: !Dropped(s, s.rows[id].key))
  }

  /**
   No lease is issued for a revoked credential; a deletion finds no row that expires at the tick's
   time; a count of the rebuild finds no row at all when it finds none active; and a commit finds
   in its listing every credential this replica was told of that has a row.
   */
  ghost predicate Sharp(s: DenyState, step: DenyStep) {
    && (step.Issues? ==> step.key !in s.revoked)
    && (step.Deletes? && s.phase.Read? ==> forall id <- s.rows :: s.rows[id].expires != Some(s.phase.now))
    && (step.Tallies? && s.rebuild.Counting? && !step.fails && !HasActive(s.rows, step.key, s.rebuild.at) ==>
          forall id <- s.rows :: s.rows[id].key != step.key)
    && (Committing(s, step) ==> forall id <- s.rows :: s.rows[id].key in s.told ==> s.rows[id].key in s.rebuild.listed)
  }

  ghost predicate AllSharp(s: DenyState, steps: seq<DenyStep>)
    decreases |steps|
  {
    steps == [] || (Sharp(s, steps[0]) && AllSharp(Next(s, steps[0]), steps[1..]))
  }

  lemma RebuildKeepsStrong(s: DenyState, step: DenyStep)
    requires KeptStrong(s) && Sharp(s, step) && ByRebuild(step)
    ensures KeptStrong(Next(s, step))
  {
    if step.Tallies? && s.rebuild.Counting? {
      var after := Next(s, step);
      forall id | id in s.rows
        ensures !Dropped(after, s.rows[id].key)
      {
        assert !Dropped(s, s.rows[id].key);
      }
    }
    if Committing(s, step) {
      forall id | id in s.rows && s.rows[id].key in s.rebuild.listed
        ensures s.rows[id].key in s.rebuild.kept
      {
        assert !Dropped(s, s.rows[id].key);
      }
    }
  }

  lemma StepKeepsStrong(s: DenyState, step: DenyStep)
    requires KeptStrong(s) && Sharp(s, step)
    ensures KeptStrong(Next(s, step))
  {
    if ByRebuild(step) {
      RebuildKeepsStrong(s, step);
    } else {
      match step
      case Passes(_) =>
      case Issues(_, _, _) =>
      case Releases(_) =>
      case Extends(_, _) =>
      case Marks(_) =>
      case Revokes(_) =>
      case Deletes(_) =>
      case Counts(_, _) =>
      case Removes =>
      case _ =>
    }
  }

  lemma {:induction false} RunKeepsStrong(s: DenyState, steps: seq<DenyStep>)
    requires KeptStrong(s) && AllSharp(s, steps)
    ensures KeptStrong(Run(s, steps)) && Safe(Run(s, steps))
    decreases |steps|
  {
    hide Next, KeptStrong, Sharp;
    if steps != [] {
      StepKeepsStrong(s, steps[0]);
      RunKeepsStrong(Next(s, steps[0]), steps[1..]);
    } else {
      KeptStrongIsSafe(s);
    }
  }

  lemma KeptStrongIsSafe(s: DenyState)
    requires KeptStrong(s)
    ensures Safe(s)
  {
  }
}
