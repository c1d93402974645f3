/**
 The credential deny list of one gateway replica, over the stores every replica shares. Each call
 of the sweep and of the rebuild into a store or the list is one step of the machine below, and
 so is everything the rest of the system does, so a run is any interleaving of them.
 */
module DenyList {
  import opened Base

  type RowId = nat

  datatype CredentialKey = Pool(pool: string, credential: string) | User(tenant: string, reference: string)

  /** A lease row; one without an expiry was written before the column existed. */
  datatype LeaseRow = LeaseRow(key: CredentialKey, expires: Option<int>)

  datatype TickPhase =
    | Resting
    | Read(now: int)                               // the tick has its time
    | Deleted(now: int)                            // expired rows are gone
    | Sweeping(now: int, todo: set<CredentialKey>)           // entries still to be checked
    | Removing(now: int, todo: set<CredentialKey>, key: CredentialKey) // an entry was found to have no active lease

  datatype RebuildPhase =
    | Waiting
    | Began(at: int)                               // the attempt has its time
    | HalfListed(at: int, listed: set<CredentialKey>)        // the pool store has answered
    | Counting(at: int, listed: set<CredentialKey>, todo: set<CredentialKey>, kept: set<CredentialKey>)

  datatype DenyState = DenyState(
    rows: map<RowId, LeaseRow>,
    deny: set<CredentialKey>,
    told: set<CredentialKey>,                      // revocations that reached this replica
    revoked: set<CredentialKey>,                   // revocations on record in the credential stores
    clock: int,
    phase: TickPhase,
    rebuild: RebuildPhase)

  datatype DenyStep =
    | Passes(ms: nat)
    | Issues(id: RowId, key: CredentialKey, expires: int)
    | Releases(id: RowId)
    | Extends(id: RowId, expires: int)           // moves the expiry of a row that exists
    | Marks(key: CredentialKey)                  // a revocation is recorded in its store
    | Revokes(key: CredentialKey)                // a recorded revocation reaches this replica's list
    | Reads
    | Deletes(fails: bool)
    | Snapshots
    | Counts(key: CredentialKey, fails: bool)
    | Removes
    | Finishes
    | Starts
    | ListsPools(fails: bool)
    | ListsUsers(fails: bool)
    | Tallies(key: CredentialKey, fails: bool)
    | Commits

  predicate Active(row: LeaseRow, t: int) {
    row.expires.None? || row.expires.value > t
  }

  predicate HasActive(rows: map<RowId, LeaseRow>, key: CredentialKey, t: int) {
    exists id <- rows :: rows[id].key == key && Active(rows[id], t)
  }

  /** Rows whose expiry is known and past are deleted; the bound itself is not past. */
  predicate Past(row: LeaseRow, cutoff: int) {
    row.expires.Some? && row.expires.value < cutoff
  }

  function DeleteExpired(rows: map<RowId, LeaseRow>, cutoff: int): map<RowId, LeaseRow> {
    map id | id in rows && !Past(rows[id], cutoff) :: rows[id]
  }

  function PoolsIn(keys: set<CredentialKey>): set<CredentialKey> {
    set k | k in keys && k.Pool?
  }

  function UsersIn(keys: set<CredentialKey>): set<CredentialKey> {
    set k | k in keys && k.User?
  }

  function Next(s: DenyState, step: DenyStep): DenyState {
    match step
    case Passes(ms) => s.(clock := s.clock + ms)
    case Issues(id, key, expires) =>
      if id !in s.rows && expires > s.clock
      then s.(rows := s.rows[id := LeaseRow(key, Some(expires))]) else s
    case Releases(id) => s.(rows := s.rows - {id})
    case Extends(id, expires) =>
      if id in s.rows && expires > s.clock
      then s.(rows := s.rows[id := s.rows[id].(expires := Some(expires))]) else s
    case Marks(key) => s.(revoked := s.revoked + {key})
    case Revokes(key) => s.(revoked := s.revoked + {key}, told := s.told + {key}, deny := s.deny + {key})
    case Reads => if s.phase.Resting? then s.(phase := Read(s.clock)) else s
    case Deletes(fails) =>
      if !s.phase.Read? then s
      else if fails then s.(phase := Resting)
      else s.(rows := DeleteExpired(s.rows, s.phase.now), phase := Deleted(s.phase.now))
    case Snapshots => if s.phase.Deleted? then s.(phase := Sweeping(s.phase.now, s.deny)) else s
    case Counts(key, fails) =>
      if !s.phase.Sweeping? || key !in s.phase.todo then s
      else if fails || HasActive(s.rows, key, s.phase.now)
      then s.(phase := Sweeping(s.phase.now, s.phase.todo - {key}))
      else s.(phase := Removing(s.phase.now, s.phase.todo - {key}, key))
    case Removes =>
      if s.phase.Removing?
      then s.(deny := s.deny - {s.phase.key}, phase := Sweeping(s.phase.now, s.phase.todo)) else s
    case Finishes => if s.phase.Sweeping? && s.phase.todo == {} then s.(phase := Resting) else s
    case Starts => if s.rebuild.Waiting? then s.(rebuild := Began(s.clock)) else s
    case ListsPools(fails) =>
      if !s.rebuild.Began? then s
      else s.(rebuild := if fails then Waiting else HalfListed(s.rebuild.at, PoolsIn(s.revoked)))
    case ListsUsers(fails) =>
      if !s.rebuild.HalfListed? then s
      else
        var listed := s.rebuild.listed + UsersIn(s.revoked);
        s.(rebuild := if fails then Waiting else Counting(s.rebuild.at, listed, listed, {}))
    case Tallies(key, fails) =>
      if !s.rebuild.Counting? || key !in s.rebuild.listed then s
      else
        var keep := if fails || HasActive(s.rows, key, s.rebuild.at) then {key} else {};
        s.(rebuild := s.rebuild.(todo := s.rebuild.todo - {key}, kept := s.rebuild.kept + keep))
    case Commits =>
      if s.rebuild.Counting? && s.rebuild.todo == {}
      then s.(deny := s.rebuild.kept, told := s.told + s.rebuild.listed, rebuild := Waiting) else s
  }

  function Run(s: DenyState, steps: seq<DenyStep>): DenyState
    decreases |steps|
  {
    if steps == [] then s else Run(Next(s, steps[0]), steps[1..])
  }
}
