/**
 The sweep worker's walk. Other processes may change the tree between any two calls unless the
 tree is quiet, and any call may fail.
 */
module Sweep {
  import opened Base
  import opened WaitStatus
  import opened FileTree

  const ENOENT := 2
  const EIO := 5
  const ENOTDIR := 20
  const EISDIR := 21
  const ENOTEMPTY := 39
  const EEXIST := 17

  const SWEEP_MAX_DEPTH: nat := 64

  /** A volume of the container, and the child of its root that is left to others. */
  datatype Volume = Volume(root: Path, skip: Option<Name>)

  /** The message queue mount, then the writable volumes; the workspace keeps its slots. */
  const VOLUMES: seq<Volume> := [
    Volume(["dev", "mqueue"], None),
    Volume(["sessions"], None), Volume(["artifacts"], None), Volume(["tmp"], None),
    Volume(["dev", "shm"], None), Volume(["workspace"], Some("slots"))]

  /** The worker's exit status: a bound that was reached prevails over a failure. */
  function SweepStatus(boundReached: bool, failed: bool): (r: nat)
    ensures r == WORKER_BOUND <==> boundReached
    ensures r == WORKER_FAILED <==> failed && !boundReached
    ensures r == WORKER_OK <==> !failed && !boundReached
  {
    if boundReached then WORKER_BOUND else if failed then WORKER_FAILED else WORKER_OK
  }

  /** The places a sweep clears, written out: the volumes a session may write to, but not the workspace's slots. */
  predicate Swept(p: Path) {
    || ["sessions"] < p || ["artifacts"] < p || ["tmp"] < p
    || ["dev", "shm"] < p || ["dev", "mqueue"] < p
    || (["workspace"] < p && p[1] != "slots")
  }

  /** Storage a sweep gets through: each place within its depth and its number of entries, message queues lying flat. */
  ghost predicate WithinBounds(t: Tree, room: nat) {
    && Sized(t, ["sessions"], None, 64, room) && Sized(t, ["artifacts"], None, 64, room) && Sized(t, ["tmp"], None, 64, room)
    && Sized(t, ["dev", "shm"], None, 64, room) && Sized(t, ["dev", "mqueue"], None, 0, room)
    && Sized(t, ["workspace"], Some("slots"), 64, room)
  }

  // ------------------------------------------------------------------ a directory part of the way through

  /** Children not reached yet are as they were, and nothing outside was touched. */
  ghost predicate Untouched(before: Tree, now: Tree, d: Path, skip: Option<Name>, left: set<Name>) {
    forall p <- before :: !Within(p, d, skip) || p[|d|] in left ==> p in now
  }

  /** Below the children already handled, exactly what has to stay is left. */
  ghost predicate HalfSwept(
    before: Tree, now: Tree, d: Path, skip: Option<Name>, left: set<Name>, uid: nat, denied: set<Path>)
  {
    forall p <- before :: Within(p, d, skip) && p[|d|] !in left ==> (p in now <==> Stays(before, p, uid, denied))
  }

  /** Paths noted while walking a directory lie below children already handled. */
  ghost predicate GrewBelow(now: set<Path>, was: set<Path>, d: Path, skip: Option<Name>, left: set<Name>) {
    was <= now && forall x <- now :: x !in was ==> Within(x, d, skip) && x[|d|] !in left
  }

  /** Paths noted while walking a directory lie in it. */
  ghost predicate NotedWithin(now: set<Path>, was: set<Path>, d: Path, skip: Option<Name>) {
    was <= now && forall x <- now :: x !in was ==> Within(x, d, skip)
  }

  lemma StartsSwept(t: Tree, d: Path, skip: Option<Name>, uid: nat, denied: set<Path>)
    requires WellFormed(t)
    ensures Untouched(t, t, d, skip, Children(t, d)) && HalfSwept(t, t, d, skip, Children(t, d), uid, denied)
  {
    forall p | p in t && Within(p, d, skip)
      ensures p[|d|] in Children(t, d)
    {
      ChildBelow(t, d, p);
    }
  }

  /** Skipping a child takes nothing away. */
  lemma SkipsSwept(
    before: Tree, now: Tree, d: Path, skip: Option<Name>, left: set<Name>, name: Name, uid: nat, denied: set<Path>)
    requires Untouched(before, now, d, skip, left) && skip == Some(name)
    ensures Untouched(before, now, d, skip, left - {name})
    ensures HalfSwept(before, now, d, skip, left, uid, denied) ==> HalfSwept(before, now, d, skip, left - {name}, uid, denied)
  {
  }

  lemma EntryUntouched(
    before: Tree, mid: Tree, after: Tree, d: Path, skip: Option<Name>, left: set<Name>, name: Name, uid: nat)
    requires Untouched(before, mid, d, skip, left) && Pruned(before, mid, uid) && Pruned(mid, after, uid)
    requires name in left && skip != Some(name) && OnlyAt(mid, after, d + [name])
    ensures Pruned(before, after, uid) && Untouched(before, after, d, skip, left - {name})
    ensures SameAt(before, mid, d + [name])
  {
    var e := d + [name];
    forall p | p in before && (!Within(p, d, skip) || p[|d|] in left - {name})
      ensures p in after
    {
      ChildPrefix(d, name, p);
      assert p in mid;
    }
    forall p | p in before && e <= p
      ensures p in mid && mid[p] == before[p]
    {
      ChildPrefix(d, name, p);
    }
  }

  /** Handling one child carries the directory one child further. */
  lemma EntrySwept(
    before: Tree, mid: Tree, after: Tree, d: Path, skip: Option<Name>, left: set<Name>, name: Name, uid: nat,
    few: set<Path>, many: set<Path>)
    requires HalfSwept(before, mid, d, skip, left, uid, few) && Pruned(before, mid, uid) && Pruned(mid, after, uid)
    requires name in left && skip != Some(name) && OnlyAt(mid, after, d + [name]) && SameAt(before, mid, d + [name])
    requires SweptAt(mid, after, d + [name], uid, many)
    requires few <= many && forall x <- many :: x !in few ==> d + [name] <= x
    ensures HalfSwept(before, after, d, skip, left - {name}, uid, many)
  {
    hide Stays;
    var e := d + [name];
    forall p | p in before && Within(p, d, skip) && p[|d|] !in left - {name}
      ensures p in after <==> Stays(before, p, uid, many)
    {
      ChildPrefix(d, name, p);
      if p[|d|] == name {
        StaysLocal(before, mid, e, p, uid, many);
      } else {
        forall x | x in many && x !in few
          ensures !(x < p)
        {
          if x < p {
            PrefixTrans(e, x, p);
          }
        }
        StaysDenied(before, p, uid, few, many);
      }
    }
  }

  lemma ApartFromChild(denied: set<Path>, was: set<Path>, d: Path, skip: Option<Name>, left: set<Name>, name: Name)
    requires GrewBelow(denied, was, d, skip, left) && Apart(was, d) && name in left
    ensures Apart(denied, d + [name])
  {
    var e := d + [name];
    forall x | x in denied
      ensures !(x <= e) && !(e <= x)
    {
      ChildPrefix(d, name, x);
      SameLength(x, e);
      if x in was && x <= e {
        Comparable(x, d, e);
      }
    }
  }

  lemma NothingNoted(was: set<Path>, d: Path, skip: Option<Name>, left: set<Name>)
    ensures GrewBelow(was, was, d, skip, left)
  {
  }

  lemma LeftShrinks(now: set<Path>, was: set<Path>, d: Path, skip: Option<Name>, left: set<Name>, name: Name)
    requires GrewBelow(now, was, d, skip, left)
    ensures GrewBelow(now, was, d, skip, left - {name})
  {
  }

  lemma Noted(now: set<Path>, was: set<Path>, d: Path, skip: Option<Name>, left: set<Name>)
    ensures GrewBelow(now, was, d, skip, left) ==> NotedWithin(now, was, d, skip)
  {
  }

  lemma InsideOnly(before: Tree, now: Tree, d: Path, skip: Option<Name>, left: set<Name>)
    requires Untouched(before, now, d, skip, left)
    ensures OnlyWithin(before, now, d, skip)
  {
  }

  lemma AllHandled(before: Tree, now: Tree, d: Path, skip: Option<Name>, uid: nat, denied: set<Path>)
    requires HalfSwept(before, now, d, skip, {}, uid, denied)
    ensures SweptWithin(before, now, d, skip, uid, denied)
  {
  }

  /** A child not reached yet holds no path noted so far. */
  lemma NotReached(now: set<Path>, was: set<Path>, d: Path, skip: Option<Name>, left: set<Name>, name: Name)
    requires GrewBelow(now, was, d, skip, left) && name in left && forall x <- was :: !(d < x)
    ensures forall x <- now :: !(d + [name] <= x)
  {
    forall x | x in now
      ensures !(d + [name] <= x)
    {
      ChildPrefix(d, name, x);
    }
  }

  lemma BelowGrows(denied: set<Path>, more: set<Path>, was: set<Path>, d: Path, skip: Option<Name>, left: set<Name>, name: Name)
    requires GrewBelow(denied, was, d, skip, left) && denied <= more && name in left && skip != Some(name)
    requires forall x <- more :: x !in denied ==> d + [name] <= x
    ensures GrewBelow(more, was, d, skip, left - {name})
  {
    forall x | x in more && x !in was
      ensures Within(x, d, skip) && x[|d|] !in left - {name}
    {
      ChildPrefix(d, name, x);
    }
  }

  /** No directory at or below a path has a longer path than the limit. */
  ghost predicate Shallow(t: Tree, e: Path, limit: int) {
    forall p <- t :: e <= p && t[p].dir ==> |p| <= limit
  }

  lemma TooDeep(t: Tree, e: Path, limit: int)
    requires e in t && t[e].dir && |e| > limit
    ensures !Shallow(t, e, limit)
  {
  }

  lemma ShallowChild(before: Tree, now: Tree, d: Path, name: Name, limit: int, uid: nat)
    requires Shallow(before, d, limit) && Pruned(before, now, uid)
    ensures Shallow(now, d + [name], limit)
  {
    forall p | p in now && d + [name] <= p && now[p].dir
      ensures |p| <= limit
    {
      ChildPrefix(d, name, p);
    }
  }

  lemma ChildThere(before: Tree, now: Tree, d: Path, skip: Option<Name>, left: set<Name>, name: Name)
    requires Untouched(before, now, d, skip, left) && name in left && name in Children(before, d)
    ensures d + [name] in now
  {
    var p :| p in before && |p| == |d| + 1 && p[..|d|] == d && p[|d|] == name;
    assert p == d + [name];
  }

  // ------------------------------------------------------------------ the walk

  class Sweeper {
    const uid: nat
    const quiet: bool
    const reliable: bool
    const maxEntries: nat
    var fs: Tree
    var entries: nat
    var boundReached: bool
    var failed: bool
    ghost var denied: set<Path>
    ghost var visited: set<Path>

    constructor (fs: Tree, uid: nat, quiet: bool, reliable: bool, maxEntries: nat)
      ensures this.fs == fs && this.uid == uid && this.quiet == quiet && this.reliable == reliable
      ensures this.maxEntries == maxEntries && entries == 0 && !boundReached && !failed && denied == {} && visited == {}
    {
      this.fs, this.uid, this.quiet, this.reliable, this.maxEntries := fs, uid, quiet, reliable, maxEntries;
      entries, boundReached, failed, denied, visited := 0, false, false, {}, {};
    }

    /** Whether a call fails; on reliable storage none does. */
    method Fails() returns (fails: bool)
      ensures reliable ==> !fails
    {
      fails := *;
      fails := fails && !reliable;
    }

    /** Other processes at work. */
    method Disturb()
      requires WellFormed(fs)
      modifies this`fs
      ensures WellFormed(fs) && (quiet ==> fs == old(fs))
    {
      if !quiet {
        assert WellFormed(map[]);
        var other: Tree :| WellFormed(other);
        fs := other;
      }
    }

    method Statx(e: Path) returns (r: int, meta: Meta)
      requires WellFormed(fs)
      modifies this`fs
      ensures WellFormed(fs) && (quiet ==> fs == old(fs))
      ensures r <= 0 && (r == 0 ==> e in old(fs) && meta == old(fs)[e])
      ensures r == -ENOENT ==> e !in old(fs)
      ensures reliable ==> r == 0 || r == -ENOENT
    {
      var fails := Fails();
      if fails {
        r, meta := -EIO, Meta(false, 0);
      } else if e in fs {
        r, meta := 0, fs[e];
      } else {
        r, meta := -ENOENT, Meta(false, 0);
      }
      Disturb();
    }

    /** Opens a directory without following a link. */
    method OpenDir(e: Path) returns (r: int)
      requires WellFormed(fs)
      modifies this`fs
      ensures WellFormed(fs) && (quiet ==> fs == old(fs))
      ensures r >= 0 ==> e in old(fs) && old(fs)[e].dir
      ensures r == -ENOENT <==> e !in old(fs)
      ensures reliable && e in old(fs) && old(fs)[e].dir ==> r >= 0
    {
      var fails := Fails();
      r := if e !in fs then -ENOENT else if fails then -EIO else if fs[e].dir then 3 else -ENOTDIR;
      Disturb();
    }

    method Unlink(e: Path) returns (r: int)
      requires WellFormed(fs)
      modifies this`fs
      ensures WellFormed(fs)
      ensures r <= 0 && (quiet && r == 0 ==> e in old(fs) && fs == old(fs) - {e})
      ensures quiet && r != 0 ==> fs == old(fs) && (r == -ENOENT ==> e !in fs)
      ensures reliable && e in old(fs) && !old(fs)[e].dir ==> r == 0
    {
      var fails := Fails();
      if e !in fs {
        r := -ENOENT;
      } else if fails {
        r := -EIO;
      } else if fs[e].dir {
        r := -EISDIR;
      } else {
        fs := fs - {e};
        r := 0;
      }
      Disturb();
    }

    method Rmdir(e: Path) returns (r: int)
      requires WellFormed(fs)
      modifies this`fs
      ensures WellFormed(fs)
      ensures r <= 0 && (quiet && r == 0 ==> e in old(fs) && fs == old(fs) - {e} && Children(old(fs), e) == {})
      ensures quiet && r != 0 ==>
        && fs == old(fs) && (r == -ENOENT ==> e !in fs)
        && (r == -ENOTEMPTY || r == -EEXIST ==> Children(fs, e) != {})
      ensures reliable && e in old(fs) && old(fs)[e].dir ==> r == 0 || r == -ENOTEMPTY
    {
      var fails := Fails();
      if e !in fs {
        r := -ENOENT;
      } else if fails {
        r := -EIO;
      } else if !fs[e].dir {
        r := -ENOTDIR;
      } else if Children(fs, e) != {} {
        r := -ENOTEMPTY;
      } else {
        RemovesEmpty(fs, e);
        fs := fs - {e};
        r := 0;
      }
      Disturb();
    }

    ghost predicate Ready(depth: nat, maxDepth: nat)
      reads this
    {
      WellFormed(fs) && !boundReached && entries <= maxEntries && depth <= maxDepth
    }

    ghost predicate Counted()
      reads this
    {
      WellFormed(fs) && entries <= maxEntries + 1 && (!boundReached ==> entries <= maxEntries)
    }

    /** Handles one entry: a directory is walked and then removed, anything else is unlinked, when the user owns it. */
    method WalkEntry(d: Path, name: Name, depth: nat, maxDepth: nat, ghost limit: int)
      requires Ready(depth, maxDepth) && limit == |d| + maxDepth - depth
      requires quiet ==> d + [name] in fs && DeniedIn(fs, denied, uid) && Apart(denied, d + [name])
      requires forall x <- visited :: !(d + [name] <= x)
      modifies this
      ensures Counted() && (old(failed) ==> failed) && (quiet && reliable ==> failed == old(failed) && denied == old(denied))
      ensures entries - old(entries) == |visited| - |old(visited)| && old(visited) <= visited
      ensures forall x <- visited :: x !in old(visited) ==> d + [name] <= x && (quiet ==> x in old(fs))
      ensures quiet && boundReached && Shallow(old(fs), d + [name], limit) ==> entries > maxEntries
      ensures quiet ==>
        && Pruned(old(fs), fs, uid) && OnlyAt(old(fs), fs, d + [name])
        && old(denied) <= denied && DeniedIn(fs, denied, uid)
        && forall x <- denied :: x !in old(denied) ==> d + [name] <= x
      ensures quiet && !failed && !boundReached ==> SweptAt(old(fs), fs, d + [name], uid, denied)
      decreases maxDepth - depth, 0
    {
      hide SweptAt, Pruned, OnlyAt, DeniedIn, Apart, WellFormed, Shallow;
      var e := d + [name];
      NothingGone(fs, e, uid);
      visited := visited + {e};
      entries := entries + 1;
      if entries > maxEntries {
        boundReached := true;
        return;
      }
      var r, meta := Statx(e);
      if r == -ENOENT {
        return;
      }
      if r < 0 {
        failed := true;
        return;
      }
      var owned := meta.uid == uid;
      if meta.dir {
        if depth + 1 > maxDepth {
          if quiet {
            TooDeep(fs, e, limit);
          }
          boundReached := true;
          return;
        }
        WalkChild(e, owned, depth, maxDepth, limit);
        return;
      }
      if !owned {
        if quiet {
          OwnedFile(fs, fs, e, uid, denied);
        }
        return;
      }
      ghost var mid := fs;
      r := Unlink(e);
      if r < 0 && r != -ENOENT {
        failed := true;
      } else if quiet {
        OneGone(mid, e, uid, denied);
        OwnedFile(mid, fs, e, uid, denied);
      }
    }

    /** Handles a directory: opens and walks it, then removes it when the user owns it. */
    method WalkChild(e: Path, owned: bool, depth: nat, maxDepth: nat, ghost limit: int)
      requires Ready(depth, maxDepth) && depth + 1 <= maxDepth && limit == |e| + maxDepth - (depth + 1)
      requires quiet ==> e in fs && fs[e].dir && owned == (fs[e].uid == uid) && DeniedIn(fs, denied, uid) && Apart(denied, e)
      requires e != [] && forall x <- visited :: !(e < x)
      modifies this
      ensures Counted() && (old(failed) ==> failed) && (quiet && reliable ==> failed == old(failed) && denied == old(denied))
      ensures entries - old(entries) == |visited| - |old(visited)| && old(visited) <= visited
      ensures forall x <- visited :: x !in old(visited) ==> e <= x && (quiet ==> x in old(fs))
      ensures quiet && boundReached && Shallow(old(fs), e, limit) ==> entries > maxEntries
      ensures quiet ==>
        && Pruned(old(fs), fs, uid) && OnlyAt(old(fs), fs, e)
        && old(denied) <= denied && DeniedIn(fs, denied, uid)
        && forall x <- denied :: x !in old(denied) ==> e <= x
      ensures quiet && !failed && !boundReached ==> SweptAt(old(fs), fs, e, uid, denied)
      decreases maxDepth - depth - 1, 2
    {
      hide SweptAt, SweptWithin, Pruned, OnlyAt, OnlyWithin, DeniedIn, Apart, WellFormed, Children, Shallow;
      NothingGone(fs, e, uid);
      var fd := OpenDir(e);
      if fd == -ENOENT {
        return;
      }
      if fd < 0 {
        if owned {
          failed := true;
        } else if quiet {
          denied := denied + {e};
          ClosedDir(fs, e, uid, denied);
          OneMoreDenied(fs, e, uid, old(denied));
        }
        return;
      }
      WalkDir(e, depth + 1, maxDepth, None, limit);
      if quiet {
        AtAndBelow(old(fs), fs, e, uid, old(denied), denied);
      }
      if boundReached {
        return;
      }
      ghost var mid := fs;
      if owned {
        var r := Rmdir(e);
        if r < 0 && r != -ENOENT && r != -ENOTEMPTY && r != -EEXIST {
          failed := true;
        } else if quiet {
          OneGone(mid, e, uid, denied);
          GoneTwice(old(fs), mid, fs, e, uid);
          if !failed {
            RemovedDir(old(fs), mid, fs, e, uid, denied);
          }
        }
      } else if quiet && !failed {
        ForeignDir(old(fs), fs, e, uid, denied);
      }
    }

    /** Walks a directory, except for one child of it. */
    method WalkDir(d: Path, depth: nat, maxDepth: nat, skip: Option<Name>, ghost limit: int)
      requires Ready(depth, maxDepth) && limit == |d| + maxDepth - depth
      requires quiet ==> d in fs && DeniedIn(fs, denied, uid) && Apart(denied, d)
      requires forall x <- visited :: !(d < x)
      modifies this
      ensures Counted() && (old(failed) ==> failed) && (quiet && reliable ==> failed == old(failed) && denied == old(denied))
      ensures entries - old(entries) == |visited| - |old(visited)| && NotedWithin(visited, old(visited), d, skip)
      ensures quiet ==> visited <= old(visited) + old(fs).Keys
      ensures quiet && boundReached && Shallow(old(fs), d, limit) ==> entries > maxEntries
      ensures quiet ==>
        && Pruned(old(fs), fs, uid) && OnlyWithin(old(fs), fs, d, skip)
        && DeniedIn(fs, denied, uid) && NotedWithin(denied, old(denied), d, skip)
      ensures quiet && !failed && !boundReached ==> SweptWithin(old(fs), fs, d, skip, uid, denied)
      decreases maxDepth - depth, 1
    {
      hide Stays, Apart, Pruned, Untouched, HalfSwept, GrewBelow, DeniedIn, SameAt, SweptAt, OnlyAt, OnlyWithin,
        SweptWithin, WellFormed, Shallow, Within, NotedWithin;
      var left := Children(fs, d);
      StartsSwept(fs, d, skip, uid, denied);
      NothingNoted(denied, d, skip, left);
      NothingNoted(visited, d, skip, left);
      PrunedSelf(fs, uid);
      while left != {}
        invariant Ready(depth, maxDepth) && (old(failed) ==> failed)
        invariant quiet && reliable ==> failed == old(failed) && denied == old(denied)
        invariant entries - old(entries) == |visited| - |old(visited)|
        invariant GrewBelow(visited, old(visited), d, skip, left)
        invariant quiet ==> visited <= old(visited) + old(fs).Keys && left <= Children(old(fs), d)
        invariant quiet ==>
          && Pruned(old(fs), fs, uid) && Untouched(old(fs), fs, d, skip, left) && DeniedIn(fs, denied, uid)
          && GrewBelow(denied, old(denied), d, skip, left)
        invariant quiet && !failed ==> HalfSwept(old(fs), fs, d, skip, left, uid, denied)
        decreases |left|
      {
        Noted(denied, old(denied), d, skip, left);
        Noted(visited, old(visited), d, skip, left);
        if quiet {
          InsideOnly(old(fs), fs, d, skip, left);
        }
        var fails := Fails();
        if fails {
          failed := true;
          return;
        }
        var name :| name in left;
        ghost var was := left;
        left := left - {name};
        if skip == Some(name) {
          if quiet {
            SkipsSwept(old(fs), fs, d, skip, was, name, uid, denied);
            LeftShrinks(denied, old(denied), d, skip, was, name);
          }
          LeftShrinks(visited, old(visited), d, skip, was, name);
          continue;
        }
        ghost var mid, few, seen := fs, denied, visited;
        NotReached(visited, old(visited), d, skip, was, name);
        if quiet {
          ApartFromChild(denied, old(denied), d, skip, was, name);
          ChildThere(old(fs), fs, d, skip, was, name);
          if Shallow(old(fs), d, limit) {
            ShallowChild(old(fs), fs, d, name, limit, uid);
          }
        }
        WalkEntry(d, name, depth, maxDepth, limit);
        BelowGrows(seen, visited, old(visited), d, skip, was, name);
        if quiet {
          EntryUntouched(old(fs), mid, fs, d, skip, was, name, uid);
          BelowGrows(few, denied, old(denied), d, skip, was, name);
          if !failed && !boundReached {
            EntrySwept(old(fs), mid, fs, d, skip, was, name, uid, few, denied);
          }
        }
        if boundReached {
          Noted(denied, old(denied), d, skip, left);
          Noted(visited, old(visited), d, skip, left);
          if quiet {
            InsideOnly(old(fs), fs, d, skip, left);
          }
          return;
        }
      }
      Noted(denied, old(denied), d, skip, left);
      Noted(visited, old(visited), d, skip, left);
      if quiet {
        InsideOnly(old(fs), fs, d, skip, left);
        if !failed {
          AllHandled(old(fs), fs, d, skip, uid, denied);
        }
      }
    }

    /** Walks a volume that was opened. */
    method WalkVolume(root: Path, skip: Option<Name>, maxDepth: nat, ghost room: int)
      requires room == maxEntries - entries && Ready(0, maxDepth) && visited == {}
      requires quiet ==> root in fs && DeniedIn(fs, denied, uid) && Apart(denied, root)
      modifies this
      ensures Counted() && entries >= old(entries) && (old(failed) ==> failed)
      ensures quiet ==>
        && Pruned(old(fs), fs, uid) && OnlyWithin(old(fs), fs, root, skip)
        && DeniedIn(fs, denied, uid) && NotedWithin(denied, old(denied), root, skip)
      ensures quiet && !failed && !boundReached ==> SweptWithin(old(fs), fs, root, skip, uid, denied)
      ensures quiet && reliable ==> failed == old(failed) && denied == old(denied)
      ensures quiet && Sized(old(fs), root, skip, maxDepth, room) ==> !boundReached
    {
      hide Stays, Pruned, DeniedIn, Apart, WellFormed, OnlyWithin, SweptWithin, Sized, Shallow, Within, NotedWithin;
      SizedMeans(fs, root, skip, maxDepth, room);
      WalkDir(root, 0, maxDepth, skip, |root| + maxDepth);
      if quiet && Sized(old(fs), root, skip, maxDepth, room) {
        FewVisited(old(fs), root, skip, maxDepth, room, visited);
      }
    }

    /** Sweeps one volume; one that is not mounted is no failure. */
    method SweepTree(root: Path, skip: Option<Name>, maxDepth: nat, ghost room: int)
      requires room == maxEntries - entries && Ready(0, maxDepth) && (quiet ==> DeniedIn(fs, denied, uid) && Apart(denied, root))
      modifies this
      ensures Counted() && entries >= old(entries) && (old(failed) ==> failed)
      ensures quiet ==>
        && Pruned(old(fs), fs, uid) && OnlyWithin(old(fs), fs, root, skip)
        && DeniedIn(fs, denied, uid) && NotedWithin(denied, old(denied), root, skip)
      ensures quiet && !failed && !boundReached ==> SweptWithin(old(fs), fs, root, skip, uid, denied)
      ensures quiet && reliable && Sized(old(fs), root, skip, maxDepth, room) ==>
        !boundReached && failed == old(failed) && denied == old(denied)
    {
      hide Stays, Pruned, DeniedIn, Apart, WellFormed, OnlyWithin, SweptWithin, Sized, Shallow, Within, NotedWithin;
      PrunedSelf(fs, uid);
      NothingWithin(fs, root, skip, uid, denied);
      SizedMeans(fs, root, skip, maxDepth, room);
      visited := {};
      var fd := OpenDir(root);
      if fd == -ENOENT {
        return;
      }
      if fd < 0 {
        failed := true;
        return;
      }
      WalkVolume(root, skip, maxDepth, room);
    }

    /** Sweeps the volume of an index, counting its entries on their own. */
    method SweepVolume(k: nat, ghost before: Tree)
      requires k < |VOLUMES| && WellFormed(fs) && !boundReached
      requires quiet ==>
        Pruned(before, fs, uid) && DeniedIn(fs, denied, uid) && Waiting(before, fs, k, denied)
      requires quiet && !failed ==> SweptSoFar(before, fs, k, uid, denied)
      modifies this
      ensures WellFormed(fs) && (old(failed) ==> failed)
      ensures old(entries) <= entries <= old(entries) + maxEntries + 1
      ensures !boundReached ==> entries <= old(entries) + maxEntries
      ensures quiet ==>
        Pruned(before, fs, uid) && DeniedIn(fs, denied, uid) && Waiting(before, fs, k + 1, denied)
      ensures quiet && !failed && !boundReached ==> SweptSoFar(before, fs, k + 1, uid, denied)
      ensures quiet && reliable && VolumeSized(before, k, maxEntries) ==>
        !boundReached && failed == old(failed) && denied == old(denied)
    {
      hide Stays, Pruned, DeniedIn, OnlyWithin, SweptWithin, Waiting, SweptSoFar, Sized, VOLUMES, SameAt, Apart,
        WellFormed, Within, DepthOf;
      var v := VOLUMES[k];
      var earlier := entries;
      ghost var mid, few := fs, denied;
      entries := 0;
      if quiet {
        NextWaits(before, fs, k, denied);
        VolumeSame(before, fs, k, denied, uid);
        SizedSame(before, fs, v.root, v.skip, DepthOf(k), maxEntries);
      }
      SweepTree(v.root, v.skip, DepthOf(k), maxEntries);
      if quiet {
        VolumeWaits(before, mid, fs, k, few, denied, uid);
        if !failed && !boundReached {
          VolumeSwept(before, mid, fs, k, few, denied, uid);
        }
      }
      entries := entries + earlier;
    }

    /** Sweeps every volume until a bound is reached; the IPC objects were removed before it. */
    method SweepAll(ipcFailed: bool) returns (status: nat)
      requires WellFormed(fs) && entries == 0 && !boundReached && !failed && denied == {}
      modifies this
      ensures WellFormed(fs) && status == if boundReached then 2 else if failed then 1 else 0
      ensures ipcFailed ==> failed
      ensures entries <= 6 * (maxEntries + 1)
      ensures quiet ==> Pruned(old(fs), fs, uid) && forall p <- old(fs) :: !Swept(p) ==> p in fs
      ensures quiet && status == WORKER_OK ==>
        forall p <- old(fs) :: Swept(p) ==> (p in fs <==> Stays(old(fs), p, uid, denied))
      ensures quiet && reliable && WithinBounds(old(fs), maxEntries) ==>
        denied == {} && (status == WORKER_OK <==> !ipcFailed)
    {
      hide Stays, Pruned, DeniedIn, Waiting, SweptSoFar, SweptWithin, WellFormed, VOLUMES, VolumeSized, Swept, WithinBounds;
      failed := ipcFailed;
      AllSized(fs, maxEntries);
      SixVolumes();
      AllWait(fs, uid);
      var k := 0;
      while k < |VOLUMES| && !boundReached
        invariant k <= |VOLUMES| && WellFormed(fs) && (ipcFailed ==> failed)
        invariant entries <= k * (maxEntries + 1)
        invariant quiet ==>
          && Pruned(old(fs), fs, uid) && DeniedIn(fs, denied, uid) && Waiting(old(fs), fs, k, denied)
        invariant quiet && !failed && !boundReached ==> SweptSoFar(old(fs), fs, k, uid, denied)
        invariant quiet && reliable && (forall j :: 0 <= j < |VOLUMES| ==> VolumeSized(old(fs), j, maxEntries)) ==>
          !boundReached && failed == ipcFailed && denied == {}
      {
        SweepVolume(k, old(fs));
        k := k + 1;
      }
      assert k * (maxEntries + 1) <= |VOLUMES| * (maxEntries + 1);
      AtTheEnd(old(fs), fs, k, uid, denied);
      AllVolumes(old(fs), fs, uid, denied);
      status := SweepStatus(boundReached, failed);
    }
  }

  /** What a walk of a volume would visit if nothing stopped it. */
  ghost function EntriesIn(t: Tree, root: Path, skip: Option<Name>): set<Path> {
    set p | p in t && Within(p, root, skip)
  }

  /** A volume within the bounds of a walk. */
  ghost predicate Sized(t: Tree, root: Path, skip: Option<Name>, maxDepth: nat, room: int) {
    && (root in t ==> t[root].dir) && Shallow(t, root, |root| + maxDepth)
    && |EntriesIn(t, root, skip)| <= room
  }

  /** How deep the walk of a volume may go: the message queue mount is flat. */
  function DepthOf(k: nat): nat {
    if k == 0 then 0 else SWEEP_MAX_DEPTH
  }

  ghost predicate VolumeSized(t: Tree, k: nat, room: nat)
    requires k < |VOLUMES|
  {
    Sized(t, VOLUMES[k].root, VOLUMES[k].skip, DepthOf(k), room)
  }

  lemma SizedSame(a: Tree, b: Tree, root: Path, skip: Option<Name>, maxDepth: nat, room: int)
    requires SameAt(a, b, root)
    ensures Sized(a, root, skip, maxDepth, room) ==> Sized(b, root, skip, maxDepth, room)
  {
    assert (set p | p in a && Within(p, root, skip)) == (set p | p in b && Within(p, root, skip));
  }

  lemma SixVolumes()
    ensures |VOLUMES| == 6
  {
  }

  /** The volumes are the places a sweep clears. */
  lemma VolumesAre(p: Path)
    ensures Swept(p) <==> exists j :: 0 <= j < |VOLUMES| && Within(p, VOLUMES[j].root, VOLUMES[j].skip)
  {
    assert Within(p, VOLUMES[0].root, VOLUMES[0].skip) <==> ["dev", "mqueue"] < p;
    assert Within(p, VOLUMES[1].root, VOLUMES[1].skip) <==> ["sessions"] < p;
    assert Within(p, VOLUMES[2].root, VOLUMES[2].skip) <==> ["artifacts"] < p;
    assert Within(p, VOLUMES[3].root, VOLUMES[3].skip) <==> ["tmp"] < p;
    assert Within(p, VOLUMES[4].root, VOLUMES[4].skip) <==> ["dev", "shm"] < p;
    assert Within(p, VOLUMES[5].root, VOLUMES[5].skip) <==> ["workspace"] < p && p[1] != "slots";
  }

  lemma AllSized(t: Tree, room: nat)
    ensures WithinBounds(t, room) ==> forall j :: 0 <= j < |VOLUMES| ==> VolumeSized(t, j, room)
  {
    hide Sized;
    if WithinBounds(t, room) {
      assert VolumeSized(t, 0, room) && VolumeSized(t, 1, room) && VolumeSized(t, 2, room);
      assert VolumeSized(t, 3, room) && VolumeSized(t, 4, room) && VolumeSized(t, 5, room);
    }
  }

  /** What holds of every volume, in terms of the places themselves. */
  lemma AllVolumes(before: Tree, after: Tree, uid: nat, denied: set<Path>)
    ensures (forall p <- before ::
               (forall j :: 0 <= j < |VOLUMES| ==> !Within(p, VOLUMES[j].root, VOLUMES[j].skip)) ==> p in after) ==>
      forall p <- before :: !Swept(p) ==> p in after
    ensures (forall j :: 0 <= j < |VOLUMES| ==> SweptWithin(before, after, VOLUMES[j].root, VOLUMES[j].skip, uid, denied)) ==>
      forall p <- before :: Swept(p) ==> (p in after <==> Stays(before, p, uid, denied))
  {
    hide VOLUMES, Within, Stays, Swept;
    forall p
      ensures Swept(p) <==> exists j :: 0 <= j < |VOLUMES| && Within(p, VOLUMES[j].root, VOLUMES[j].skip)
    {
      VolumesAre(p);
    }
  }

  /**
   A sweep that cleared everything leaves the user nothing in the places it clears but directories
   that still hold an entry of another user.
   */
  lemma NothingOwnedIsLeft(before: Tree, after: Tree, uid: nat, p: Path)
    requires Pruned(before, after, uid) && forall q <- before :: Swept(q) ==> (q in after <==> Stays(before, q, uid, {}))
    requires p in after && Swept(p) && after[p].uid == uid
    ensures after[p].dir && exists q :: q in after && p < q && after[q].uid != uid
  {
    hide Swept;
    assert Stays(before, p, uid, {});
    var q :| q in before && p < q && before[q].uid != uid;
    assert q in after;
  }

  /** Where nothing was closed to the sweep, what the user still owns is directories that hold another's entry. */
  lemma SurvivorsHoldForeign(before: Tree, after: Tree, d: Path, skip: Option<Name>, uid: nat, p: Path)
    requires Pruned(before, after, uid) && SweptWithin(before, after, d, skip, uid, {})
    requires p in after && Within(p, d, skip) && after[p].uid == uid
    ensures after[p].dir && exists q :: q in after && p < q && after[q].uid != uid
  {
    assert Stays(before, p, uid, {});
    var q :| q in before && p < q && before[q].uid != uid;
    assert q in after;
  }

  lemma SizedMeans(t: Tree, root: Path, skip: Option<Name>, maxDepth: nat, room: int)
    ensures Sized(t, root, skip, maxDepth, room) ==> (root in t ==> t[root].dir) && Shallow(t, root, |root| + maxDepth)
  {
  }

  lemma NothingWithin(t: Tree, root: Path, skip: Option<Name>, uid: nat, denied: set<Path>)
    requires WellFormed(t)
    ensures OnlyWithin(t, t, root, skip) && NotedWithin(denied, denied, root, skip)
    ensures root !in t ==> SweptWithin(t, t, root, skip, uid, denied)
  {
    PrefixClosed(t, root);
  }

  lemma FewVisited(t: Tree, root: Path, skip: Option<Name>, maxDepth: nat, room: int, visited: set<Path>)
    requires Sized(t, root, skip, maxDepth, room) && visited <= t.Keys && NotedWithin(visited, {}, root, skip)
    ensures |visited| <= room
  {
    hide Within, Shallow;
    SubsetSize(visited, EntriesIn(t, root, skip));
  }

  lemma {:induction false} SubsetSize(a: set<Path>, b: set<Path>)
    requires a <= b
    ensures |a| <= |b|
  {
    if a != {} {
      var x :| x in a;
      SubsetSize(a - {x}, b - {x});
    }
  }

  // ------------------------------------------------------------------ all volumes

  /** The volumes swept so far hold exactly what has to stay. */
  ghost predicate SweptSoFar(before: Tree, now: Tree, k: nat, uid: nat, denied: set<Path>) {
    forall j :: 0 <= j < k && j < |VOLUMES| ==>
      SweptWithin(before, now, VOLUMES[j].root, VOLUMES[j].skip, uid, denied)
  }

  /** The other volumes, and everything outside, are as they were. */
  ghost predicate Waiting(before: Tree, now: Tree, k: nat, denied: set<Path>) {
    && (forall j :: k <= j < |VOLUMES| ==> Apart(denied, VOLUMES[j].root))
    && forall p <- before :: (forall j :: 0 <= j < k && j < |VOLUMES| ==> !Within(p, VOLUMES[j].root, VOLUMES[j].skip)) ==> p in now
  }

  lemma AtTheEnd(before: Tree, now: Tree, k: nat, uid: nat, denied: set<Path>)
    requires k <= |VOLUMES|
    ensures Waiting(before, now, k, denied) ==>
      forall p <- before :: (forall j :: 0 <= j < |VOLUMES| ==> !Within(p, VOLUMES[j].root, VOLUMES[j].skip)) ==> p in now
    ensures SweptSoFar(before, now, k, uid, denied) && k == |VOLUMES| ==>
      forall j :: 0 <= j < |VOLUMES| ==> SweptWithin(before, now, VOLUMES[j].root, VOLUMES[j].skip, uid, denied)
  {
  }

  ghost predicate Separate(a: Path, b: Path) {
    !(a <= b) && !(b <= a)
  }

  lemma VolumesSeparate(i: nat, j: nat)
    requires i < |VOLUMES| && j < |VOLUMES| && i != j
    ensures Separate(VOLUMES[i].root, VOLUMES[j].root)
  {
    var a, b := VOLUMES[i].root, VOLUMES[j].root;
    assert a[0] != b[0] || (|a| == 2 && |b| == 2 && a[1] != b[1]);
  }

  lemma AllWait(t: Tree, uid: nat)
    ensures Pruned(t, t, uid) && DeniedIn(t, {}, uid) && Waiting(t, t, 0, {}) && SweptSoFar(t, t, 0, uid, {})
  {
  }

  /** A volume whose turn has not come is as it was. */
  lemma VolumeSame(before: Tree, now: Tree, k: nat, denied: set<Path>, uid: nat)
    requires Waiting(before, now, k, denied) && Pruned(before, now, uid) && k < |VOLUMES|
    ensures SameAt(before, now, VOLUMES[k].root)
  {
    var r := VOLUMES[k].root;
    forall p | p in before && r <= p
      ensures p in now
    {
      forall j | 0 <= j < k
        ensures !Within(p, VOLUMES[j].root, VOLUMES[j].skip)
      {
        VolumesSeparate(j, k);
        if VOLUMES[j].root < p {
          Comparable(VOLUMES[j].root, r, p);
        }
      }
    }
  }

  lemma NextWaits(before: Tree, now: Tree, k: nat, denied: set<Path>)
    requires Waiting(before, now, k, denied) && k < |VOLUMES|
    ensures Apart(denied, VOLUMES[k].root)
  {
  }

  lemma VolumeWaits(before: Tree, mid: Tree, after: Tree, k: nat, few: set<Path>, many: set<Path>, uid: nat)
    requires k < |VOLUMES| && Waiting(before, mid, k, few)
    requires Pruned(before, mid, uid) && Pruned(mid, after, uid)
    requires OnlyWithin(mid, after, VOLUMES[k].root, VOLUMES[k].skip)
    requires few <= many && forall x <- many :: x !in few ==> Within(x, VOLUMES[k].root, VOLUMES[k].skip)
    ensures Pruned(before, after, uid) && Waiting(before, after, k + 1, many)
  {
    forall j, x | k < j < |VOLUMES| && x in many
      ensures !(x <= VOLUMES[j].root) && !(VOLUMES[j].root <= x)
    {
      if x !in few {
        VolumesSeparate(j, k);
        if x <= VOLUMES[j].root {
          PrefixTrans(VOLUMES[k].root, x, VOLUMES[j].root);
        }
        if VOLUMES[j].root <= x {
          Comparable(VOLUMES[j].root, VOLUMES[k].root, x);
        }
      }
    }
  }

  lemma VolumeSwept(before: Tree, mid: Tree, after: Tree, k: nat, few: set<Path>, many: set<Path>, uid: nat)
    requires k < |VOLUMES| && Waiting(before, mid, k, few) && SweptSoFar(before, mid, k, uid, few)
    requires Pruned(before, mid, uid) && Pruned(mid, after, uid)
    requires OnlyWithin(mid, after, VOLUMES[k].root, VOLUMES[k].skip)
    requires few <= many && forall x <- many :: x !in few ==> Within(x, VOLUMES[k].root, VOLUMES[k].skip)
    requires SweptWithin(mid, after, VOLUMES[k].root, VOLUMES[k].skip, uid, many)
    ensures SweptSoFar(before, after, k + 1, uid, many)
  {
    hide Stays, Waiting;
    VolumeSame(before, mid, k, few, uid);
    forall j | 0 <= j <= k
      ensures SweptWithin(before, after, VOLUMES[j].root, VOLUMES[j].skip, uid, many)
    {
      if j < k {
        OtherVolume(before, mid, after, j, k, few, many, uid);
      } else {
        ThisVolume(before, mid, after, k, many, uid);
      }
    }
  }

  lemma ThisVolume(before: Tree, mid: Tree, after: Tree, k: nat, denied: set<Path>, uid: nat)
    requires k < |VOLUMES| && SameAt(before, mid, VOLUMES[k].root)
    requires SweptWithin(mid, after, VOLUMES[k].root, VOLUMES[k].skip, uid, denied)
    ensures SweptWithin(before, after, VOLUMES[k].root, VOLUMES[k].skip, uid, denied)
  {
    hide Stays;
    var v := VOLUMES[k];
    forall p | p in before && Within(p, v.root, v.skip)
      ensures p in after <==> Stays(before, p, uid, denied)
    {
      StaysLocal(before, mid, v.root, p, uid, denied);
    }
  }

  lemma OtherVolume(
    before: Tree, mid: Tree, after: Tree, j: nat, k: nat, few: set<Path>, many: set<Path>, uid: nat)
    requires j < k < |VOLUMES| && SweptWithin(before, mid, VOLUMES[j].root, VOLUMES[j].skip, uid, few)
    requires Pruned(before, mid, uid) && Pruned(mid, after, uid)
    requires OnlyWithin(mid, after, VOLUMES[k].root, VOLUMES[k].skip)
    requires few <= many && forall x <- many :: x !in few ==> Within(x, VOLUMES[k].root, VOLUMES[k].skip)
    ensures SweptWithin(before, after, VOLUMES[j].root, VOLUMES[j].skip, uid, many)
  {
    hide Stays;
    var u, v := VOLUMES[j], VOLUMES[k];
    VolumesSeparate(j, k);
    forall p | p in before && Within(p, u.root, u.skip)
      ensures p in after <==> Stays(before, p, uid, many)
    {
      if v.root <= p {
        Comparable(u.root, v.root, p);
      }
      forall x | x in many && x !in few
        ensures !(x < p)
      {
        if x < p {
          PrefixTrans(v.root, x, p);
        }
      }
      StaysDenied(before, p, uid, few, many);
    }
  }

  // ------------------------------------------------------------------ one entry

  lemma PrunedSelf(t: Tree, uid: nat)
    ensures Pruned(t, t, uid)
  {
  }

  lemma RemovesEmpty(t: Tree, e: Path)
    requires WellFormed(t) && Children(t, e) == {}
    ensures WellFormed(t - {e})
  {
    forall p | p in t && p != []
      ensures p[|p| - 1] in Children(t, p[..|p| - 1])
    {
      ChildOf(t, p);
    }
  }

  /** An entry that is no directory stays exactly when another user owns it. */
  lemma OwnedFile(before: Tree, after: Tree, e: Path, uid: nat, denied: set<Path>)
    requires WellFormed(before) && e in before && !before[e].dir && Apart(denied, e)
    requires after == if before[e].uid == uid then before - {e} else before
    ensures SweptAt(before, after, e, uid, denied)
  {
    PrefixClosed(before, e);
    forall p | p in before && e <= p
      ensures p == e
    {
      SameLength(e, p);
    }
  }

  /** A directory of another user that was not opened, and everything in it, stays. */
  lemma ClosedDir(t: Tree, e: Path, uid: nat, denied: set<Path>)
    requires e in t && t[e].uid != uid && e in denied
    ensures SweptAt(t, t, e, uid, denied)
  {
    forall p | p in t && e <= p
      ensures Stays(t, p, uid, denied)
    {
      if p != e {
        assert e in denied && e < p;
      }
    }
  }

  lemma NothingGone(t: Tree, e: Path, uid: nat)
    ensures Pruned(t, t, uid) && OnlyAt(t, t, e)
  {
  }

  lemma OneGone(t: Tree, e: Path, uid: nat, denied: set<Path>)
    requires e in t && t[e].uid == uid
    ensures Pruned(t, t - {e}, uid) && OnlyAt(t, t - {e}, e)
    ensures DeniedIn(t, denied, uid) ==> DeniedIn(t - {e}, denied, uid)
    ensures Pruned(t, t, uid) && OnlyAt(t, t, e)
  {
  }

  lemma GoneTwice(a: Tree, b: Tree, c: Tree, e: Path, uid: nat)
    requires Pruned(a, b, uid) && Pruned(b, c, uid) && OnlyAt(a, b, e) && OnlyAt(b, c, e)
    ensures Pruned(a, c, uid) && OnlyAt(a, c, e)
  {
  }

  lemma OneMoreDenied(t: Tree, e: Path, uid: nat, denied: set<Path>)
    requires DeniedIn(t, denied, uid) && e in t && t[e].uid != uid
    ensures DeniedIn(t, denied + {e}, uid) && forall x <- denied + {e} :: x !in denied ==> e <= x
  {
  }

  /** What was done within a directory was done at it. */
  lemma AtAndBelow(before: Tree, mid: Tree, e: Path, uid: nat, few: set<Path>, many: set<Path>)
    requires OnlyWithin(before, mid, e, None) && Pruned(before, mid, uid) && e in before
    requires DeniedIn(mid, many, uid) && Apart(few, e) && forall x <- many :: x !in few ==> Within(x, e, None)
    ensures OnlyAt(before, mid, e) && e in mid && mid[e] == before[e] && DeniedIn(before, many, uid)
    ensures forall x <- many :: !(x <= e)
    ensures forall x <- many :: x !in few ==> e <= x
  {
  }

  /** A directory of another user stays, whatever was swept in it. */
  lemma ForeignDir(before: Tree, mid: Tree, e: Path, uid: nat, denied: set<Path>)
    requires e in mid && e in before && before[e].uid != uid && SweptWithin(before, mid, e, None, uid, denied)
    ensures SweptAt(before, mid, e, uid, denied)
  {
    hide Foreign, ShutOut;
    forall p | p in before && e <= p
      ensures p in mid <==> Stays(before, p, uid, denied)
    {
      SameLength(e, p);
      assert e < p ==> Within(p, e, None);
    }
  }

  /** A directory the user owns is removed exactly when nothing below it has to stay. */
  lemma RemovedDir(before: Tree, mid: Tree, after: Tree, e: Path, uid: nat, denied: set<Path>)
    requires WellFormed(before) && WellFormed(mid) && Pruned(before, mid, uid) && e in mid && before[e].dir
    requires before[e].uid == uid
    requires SweptWithin(before, mid, e, None, uid, denied)
    requires DeniedIn(before, denied, uid) && forall x <- denied :: !(x <= e)
    requires after == if Children(mid, e) == {} then mid - {e} else mid
    ensures SweptAt(before, after, e, uid, denied)
  {
    hide Stays, Foreign, Children;
    assert forall p :: e < p ==> Within(p, e, None);
    EmptyExactly(before, mid, e, uid, denied);
    ChildrenExactly(mid, e);
    TopStays(before, e, uid, denied);
    forall p | p in before && e <= p
      ensures p in after <==> Stays(before, p, uid, denied)
    {
      SameLength(e, p);
    }
  }

  lemma TopStays(before: Tree, e: Path, uid: nat, denied: set<Path>)
    requires e in before && before[e].dir && before[e].uid == uid && forall x <- denied :: !(x <= e)
    ensures Stays(before, e, uid, denied) <==> Foreign(before, e, uid)
  {
  }
}
