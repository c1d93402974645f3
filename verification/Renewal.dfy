/**
 Proactive renewal of credential leases: a spent lease is replaced by one minted from the same
 pool. The lease store, the assigner and the other sessions act between any two of its calls.
 */
module Renewal {
  import opened Base

  type LeaseId = nat

  datatype Lease = Lease(session: string, pool: string, provider: string, tenant: string, generation: int)

  /** Where a lease was minted from, so that its replacement comes from there too. */
  datatype PoolBinding = PoolBinding(pool: string, provider: string, tenant: string)

  /** A mint that was asked for. */
  datatype MintRequest = MintRequest(pool: string, session: string, tenant: string, generation: int)

  datatype RenewalOutcome =
    | Renewed(next: LeaseId, lease: Lease)
    | LeaseReleased
    | InfraUnavailable
    | Failed

  /** What the stores answered, call by call. */
  datatype StoreAnswer =
    | Looked(id: LeaseId, err: bool, found: bool)
    | Bound(id: LeaseId, bound: bool)
    | Minted(next: Option<LeaseId>, unavailable: bool)

  /** Which outcome a renewal has to give after these answers; it asks nothing it does not need. */
  ghost predicate Explains(t: seq<StoreAnswer>, id: LeaseId, outcome: RenewalOutcome) {
    && |t| >= 1 && t[0].Looked? && t[0].id == id
    && if t[0].err then |t| == 1 && outcome == Failed
       else
         && |t| >= 2 && t[1].Bound? && t[1].id == id
         && if !t[0].found || !t[1].bound then |t| == 2 && outcome == LeaseReleased
            else
              && |t| >= 3 && t[2].Minted?
              && if t[2].next.None? then |t| == 3 && outcome == if t[2].unavailable then InfraUnavailable else Failed
                 else
                   && |t| == 4 && t[3].Looked? && t[3].id == id
                   && if t[3].err then outcome == Failed
                      else if !t[3].found then outcome == LeaseReleased
                      else outcome.Renewed? && outcome.next == t[2].next.value
  }

  class Renewer {
    var store: map<LeaseId, Lease>
    var pools: map<LeaseId, PoolBinding>
    var given: set<LeaseId>
    ghost var requests: seq<MintRequest>
    ghost var handedBack: seq<LeaseId>
    ghost var answers: seq<StoreAnswer>

    ghost predicate Valid()
      reads this
    {
      store.Keys <= given && pools.Keys <= given
    }

    constructor ()
      ensures Valid() && store == map[] && pools == map[] && requests == [] && handedBack == [] && answers == []
    {
      store, pools, given, requests, handedBack, answers := map[], map[], {}, [], [], [];
    }

    /** Leases are released, whichever they are; other leases come and go with their bindings. */
    method Interfere(mine: set<LeaseId>)
      requires Valid() && mine <= given
      modifies this`store, this`pools, this`given
      ensures Valid() && old(given) <= given
      ensures forall id <- mine :: id in store ==> id in old(store) && store[id] == old(store)[id]
      ensures forall id <- mine :: (id in pools <==> id in old(pools)) && (id in pools ==> pools[id] == old(pools)[id])
    {
      var gone: set<LeaseId> := *;
      var kept := store - gone;
      var minted: map<LeaseId, Lease> := *;
      minted := minted - given;
      var bound: map<LeaseId, PoolBinding> := *;
      bound := bound - mine;
      store := kept + minted;
      pools := (map id | id in pools && id in mine :: pools[id]) + bound;
      given := given + minted.Keys + bound.Keys;
    }

    /** The store's record of a lease, if the store answers. */
    method Lookup(id: LeaseId, mine: set<LeaseId>) returns (err: bool, lease: Option<Lease>)
      requires Valid() && mine <= given
      modifies this`store, this`pools, this`given, this`answers
      ensures Valid() && old(given) <= given && answers == old(answers) + [Looked(id, err, lease.Some?)]
      ensures err ==> lease.None?
      ensures !err ==> lease == if id in old(store) then Some(old(store)[id]) else None
      ensures forall x <- mine :: x in store ==> x in old(store) && store[x] == old(store)[x]
      ensures forall x <- mine :: (x in pools <==> x in old(pools)) && (x in pools ==> pools[x] == old(pools)[x])
    {
      err := *;
      lease := if err || id !in store then None else Some(store[id]);
      answers := answers + [Looked(id, err, lease.Some?)];
      Interfere(mine);
    }

    /** The binding of a lease, read under the lock. */
    method ReadBinding(id: LeaseId, mine: set<LeaseId>) returns (bound: bool, rp: PoolBinding)
      requires Valid() && id in mine && mine <= given
      modifies this`store, this`pools, this`given, this`answers
      ensures Valid() && old(given) <= given && answers == old(answers) + [Bound(id, bound)]
      ensures bound == (id in old(pools)) && (bound ==> rp == old(pools)[id])
      ensures forall x <- mine :: x in store ==> x in old(store) && store[x] == old(store)[x]
      ensures forall x <- mine :: (x in pools <==> x in old(pools)) && (x in pools ==> pools[x] == old(pools)[x])
    {
      bound := id in pools;
      rp := if bound then pools[id] else PoolBinding("", "", "");
      answers := answers + [Bound(id, bound)];
      Interfere(mine);
    }

    /**
     Mints a lease from a pool: it is recorded in the store, and the observer of the assigner
     binds it to the pool before the call returns.
     */
    method Assign(pool: string, session: string, tenant: string, generation: int, mine: set<LeaseId>)
      returns (unavailable: bool, next: Option<LeaseId>, lease: Lease)
      requires Valid() && mine <= given
      modifies this
      ensures Valid() && old(given) <= given && handedBack == old(handedBack)
      ensures answers == old(answers) + [Minted(next, unavailable)]
      ensures requests == if next.Some? then old(requests) + [MintRequest(pool, session, tenant, generation)] else old(requests)
      ensures next.Some? ==>
        && next.value !in old(given) && next.value in given && next.value in pools
        && (next.value in store ==> store[next.value] == lease)
        && lease.session == session && lease.pool == pool && lease.generation == generation
      ensures forall x <- mine :: x in store ==> x in old(store) && store[x] == old(store)[x]
      ensures forall x <- mine :: (x in pools <==> x in old(pools)) && (x in pools ==> pools[x] == old(pools)[x])
    {
      unavailable := *;
      var fails: bool := *;
      lease := Lease(session, pool, "", tenant, generation);
      Interfere(mine);
      if unavailable || fails {
        answers := answers + [Minted(None, unavailable)];
        return unavailable, None, lease;
      }
      var provider: string := *;
      var owner: string := *;
      lease := Lease(session, pool, provider, if tenant == "" then owner else tenant, generation);
      Unused(given);
      var id: LeaseId :| id !in given;
      given := given + {id};
      store := store[id := lease];
      requests := requests + [MintRequest(pool, session, tenant, generation)];
      Interfere(mine + {id});
      pools := pools[id := PoolBinding(pool, provider, lease.tenant)];
      Interfere(mine + {id});
      next := Some(id);
      answers := answers + [Minted(next, unavailable)];
    }

    /** Hands a replacement back to the assigner, which may fail, and drops its binding. */
    method ReleaseReplacement(id: LeaseId, mine: set<LeaseId>)
      requires Valid() && id in mine && mine <= given
      modifies this
      ensures Valid() && old(given) <= given && requests == old(requests) && handedBack == old(handedBack) + [id]
      ensures id !in pools && answers == old(answers)
      ensures forall x <- mine :: x in store ==> x in old(store) && store[x] == old(store)[x]
      ensures forall x <- mine :: x != id ==> (x in pools <==> x in old(pools)) && (x in pools ==> pools[x] == old(pools)[x])
    {
      var fails: bool := *;
      if !fails {
        store := store - {id};
      }
      handedBack := handedBack + [id];
      Interfere(mine);
      pools := pools - {id};
    }

    /** Issues a replacement for a lease that is about to need one. */
    method Renew(id: LeaseId, session: string) returns (outcome: RenewalOutcome)
      requires Valid() && id in given
      modifies this
      ensures Valid() && old(given) <= given
      ensures old(answers) <= answers && Explains(answers[|old(answers)|..], id, outcome)
      ensures old(requests) <= requests && |requests| <= |old(requests)| + 1
      ensures old(handedBack) <= handedBack
      ensures requests != old(requests) ==>
        && id in old(pools) && id in old(store)
        && requests == old(requests) +
             [MintRequest(old(pools)[id].pool, session, old(pools)[id].tenant, old(store)[id].generation)]
      ensures outcome.Renewed? ==>
        && requests != old(requests) && handedBack == old(handedBack)
        && outcome.next !in old(given) && outcome.next in given
        && outcome.next in pools && pools[outcome.next] == old(pools)[id] && id !in pools
        && outcome.lease.generation == old(store)[id].generation && outcome.lease.session == session
        && outcome.lease.pool == old(pools)[id].pool
        && (outcome.next in store ==> store[outcome.next] == outcome.lease)
      ensures !outcome.Renewed? && requests != old(requests) ==>
        exists next :: next !in old(given) && handedBack == old(handedBack) + [next] && next !in pools
      ensures !outcome.Renewed? && requests == old(requests) ==> handedBack == old(handedBack)
      ensures !outcome.Renewed? && !outcome.LeaseReleased? ==> KeepsBinding(old(pools), pools, id)
      ensures outcome.LeaseReleased? && requests != old(requests) ==> id !in pools
    {
      var err, spent := Lookup(id, {id});
      if err {
        return Failed;
      }
      var bound, rp := ReadBinding(id, {id});
      if spent.None? || !bound {
        return LeaseReleased;
      }
      var unavailable, next, lease := Assign(rp.pool, session, rp.tenant, spent.value.generation, {id});
      if next.None? {
        return if unavailable then InfraUnavailable else Failed;
      }
      var err2, still := Lookup(id, {id, next.value});
      if err2 || still.None? {
        ReleaseReplacement(next.value, {id, next.value});
        if err2 {
          return Failed;
        }
        pools := pools - {id};
        return LeaseReleased;
      }
      pools := (pools - {id})[next.value := rp];
      outcome := Renewed(next.value, lease);
    }

    /** Renews a lease and its replacements, over and over, as the worker does. */
    method RenewOver(id: LeaseId, session: string, times: nat) returns (last: LeaseId, done: nat, outcome: RenewalOutcome)
      requires Valid() && id in given && id in pools && id in store
      modifies this
      ensures Valid() && done <= times && old(requests) <= requests
      ensures forall r <- requests[|old(requests)|..] ::
        r == MintRequest(old(pools)[id].pool, session, old(pools)[id].tenant, old(store)[id].generation)
      ensures done == times ==> last in pools && pools[last] == old(pools)[id] && handedBack == old(handedBack)
      ensures |handedBack| <= |old(handedBack)| + 1
      ensures |requests| == |old(requests)| + done + (|handedBack| - |old(handedBack)|)
    {
      last, done, outcome := id, 0, LeaseReleased;
      while done < times
        invariant Valid() && done <= times && last in given && last in pools && pools[last] == old(pools)[id]
        invariant last in store ==> store[last].generation == old(store)[id].generation
        invariant old(requests) <= requests && |requests| == |old(requests)| + done
        invariant handedBack == old(handedBack)
        invariant forall r <- requests[|old(requests)|..] ::
          r == MintRequest(old(pools)[id].pool, session, old(pools)[id].tenant, old(store)[id].generation)
      {
        ghost var before := requests;
        outcome := Renew(last, session);
        if requests != before {
          assert requests[|old(requests)|..] == before[|old(requests)|..] + [requests[|before|]];
        }
        if !outcome.Renewed? {
          return;
        }
        last := outcome.next;
        done := done + 1;
      }
    }
  }

  ghost predicate KeepsBinding(before: map<LeaseId, PoolBinding>, after: map<LeaseId, PoolBinding>, id: LeaseId) {
    (id in before <==> id in after) && (id in before ==> after[id] == before[id])
  }
}
