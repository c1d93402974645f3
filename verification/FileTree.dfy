/** A file tree as a map from paths, and which of its entries a sweep for one user has to leave. */
module FileTree {
  import opened Base

  type Name = seq<byte>
  type Path = seq<Name>

  datatype Meta = Meta(dir: bool, uid: nat)

  type Tree = map<Path, Meta>

  /** Every entry lies in a directory of the tree. */
  predicate WellFormed(t: Tree) {
    forall p <- t :: p != [] ==> p[..|p| - 1] in t && t[p[..|p| - 1]].dir
  }

  function Children(t: Tree, d: Path): set<Name> {
    set p | p in t && |p| == |d| + 1 && p[..|d|] == d :: p[|d|]
  }

  /** Something below the entry belongs to another user. */
  ghost predicate Foreign(t: Tree, p: Path, uid: nat) {
    exists q :: q in t && p < q && t[q].uid != uid
  }

  /** Something above the entry was closed to the sweep. */
  ghost predicate ShutOut(denied: set<Path>, p: Path) {
    exists x :: x in denied && x < p
  }

  /**
   What a sweep leaves: entries of other users, directories that hold one, and what lies in a
   directory that could not be opened.
   */
  ghost predicate Stays(t: Tree, p: Path, uid: nat, denied: set<Path>)
    requires p in t
  {
    t[p].uid != uid || (t[p].dir && Foreign(t, p, uid)) || ShutOut(denied, p)
  }

  /** Nothing appeared or changed, and what is gone belonged to the user. */
  ghost predicate Pruned(before: Tree, after: Tree, uid: nat) {
    && (forall p <- after :: p in before && after[p] == before[p])
    && (forall p <- before :: p !in after ==> before[p].uid == uid)
  }

  /** The two trees are the same at and below a path. */
  ghost predicate SameAt(a: Tree, b: Tree, e: Path) {
    && (forall p <- a :: e <= p ==> p in b && b[p] == a[p])
    && (forall p <- b :: e <= p ==> p in a)
  }

  /** Only entries at or below the path are gone. */
  ghost predicate OnlyAt(before: Tree, after: Tree, e: Path) {
    forall p <- before :: !(e <= p) ==> p in after
  }

  /** At and below the path, exactly what has to stay is left. */
  ghost predicate SweptAt(before: Tree, after: Tree, e: Path, uid: nat, denied: set<Path>) {
    forall p <- before :: e <= p ==> (p in after <==> Stays(before, p, uid, denied))
  }

  /** Whether a path lies in a directory, under a child that is not the skipped one. */
  predicate Within(p: Path, d: Path, skip: Option<Name>) {
    d < p && Some(p[|d|]) != skip
  }

  ghost predicate OnlyWithin(before: Tree, after: Tree, d: Path, skip: Option<Name>) {
    forall p <- before :: !Within(p, d, skip) ==> p in after
  }

  ghost predicate SweptWithin(before: Tree, after: Tree, d: Path, skip: Option<Name>, uid: nat, denied: set<Path>) {
    forall p <- before :: Within(p, d, skip) ==> (p in after <==> Stays(before, p, uid, denied))
  }

  /** Closed directories: they belong to other users. */
  ghost predicate DeniedIn(t: Tree, denied: set<Path>, uid: nat) {
    forall x <- denied :: x in t && t[x].uid != uid
  }

  /** None of them lies above, at or below the path. */
  ghost predicate Apart(denied: set<Path>, e: Path) {
    forall x <- denied :: !(x <= e) && !(e <= x)
  }

  // ------------------------------------------------------------------ paths

  lemma PrefixTrans(a: Path, b: Path, c: Path)
    requires a <= b && b <= c
    ensures a <= c
    ensures a < b || b < c ==> a < c
  {
    assert c[..|a|] == b[..|a|];
  }

  /** Two prefixes of one path are prefixes of each other. */
  lemma Comparable(a: Path, b: Path, p: Path)
    requires a <= p && b <= p
    ensures a <= b || b <= a
    ensures |a| <= |b| ==> a <= b
    ensures |a| < |b| ==> a < b
  {
    if |a| <= |b| {
      assert a == p[..|a|] == p[..|b|][..|a|] == b[..|a|];
    } else {
      assert b == p[..|b|] == p[..|a|][..|b|] == a[..|b|];
    }
  }

  lemma ChildPrefix(d: Path, n: Name, p: Path)
    ensures d + [n] <= p <==> d < p && p[|d|] == n
  {
    if d + [n] <= p {
      assert p[..|d|] == (d + [n])[..|d|] == d;
      assert p[|d|] == (d + [n])[|d|];
    }
    if d < p && p[|d|] == n {
      assert p[..|d| + 1] == p[..|d|] + [p[|d|]];
    }
  }

  lemma {:induction false} AncestorIn(t: Tree, p: Path, k: nat)
    requires WellFormed(t) && p in t && k <= |p|
    ensures p[..k] in t && (k < |p| ==> t[p[..k]].dir)
    decreases |p|
  {
    if k == |p| {
      assert p[..k] == p;
    } else {
      AncestorIn(t, p[..|p| - 1], k);
      assert p[..|p| - 1][..k] == p[..k];
    }
  }

  lemma PrefixClosed(t: Tree, e: Path)
    requires WellFormed(t)
    ensures forall p <- t :: e <= p ==> e in t && (e < p ==> t[e].dir)
  {
    forall p | p in t && e <= p
      ensures e in t && (e < p ==> t[e].dir)
    {
      AncestorIn(t, p, |e|);
      assert p[..|e|] == e;
    }
  }

  lemma SameLength(a: Path, b: Path)
    ensures a <= b && |a| >= |b| ==> a == b
  {
  }

  lemma ChildOf(t: Tree, p: Path)
    requires p in t && p != []
    ensures p[|p| - 1] in Children(t, p[..|p| - 1])
  {
  }

  /** A directory has children exactly when something lies below it. */
  lemma ChildrenExactly(t: Tree, e: Path)
    requires WellFormed(t)
    ensures Children(t, e) != {} <==> exists q :: q in t && e < q
  {
    if q :| q in t && e < q {
      ChildBelow(t, e, q);
    }
    if Children(t, e) != {} {
      var n :| n in Children(t, e);
      var p :| p in t && |p| == |e| + 1 && p[..|e|] == e && p[|e|] == n;
      assert e < p;
    }
  }

  /** Something below a directory means a child in it. */
  lemma ChildBelow(t: Tree, d: Path, p: Path)
    requires WellFormed(t) && p in t && d < p
    ensures p[|d|] in Children(t, d)
  {
    AncestorIn(t, p, |d| + 1);
    var c := p[..|d| + 1];
    assert c[..|d|] == d && c[|d|] == p[|d|];
  }

  // ------------------------------------------------------------------ what stays is decided below an entry

  lemma StaysLocal(a: Tree, b: Tree, e: Path, p: Path, uid: nat, denied: set<Path>)
    requires SameAt(a, b, e) && e <= p && p in a && p in b
    ensures Stays(a, p, uid, denied) == Stays(b, p, uid, denied)
  {
    if Foreign(a, p, uid) {
      var q :| q in a && p < q && a[q].uid != uid;
      PrefixTrans(e, p, q);
      assert q in b && b[q].uid != uid;
    }
    if Foreign(b, p, uid) {
      var q :| q in b && p < q && b[q].uid != uid;
      PrefixTrans(e, p, q);
      assert q in a && a[q].uid != uid;
    }
  }

  /** Closed directories elsewhere do not matter to an entry. */
  lemma StaysDenied(t: Tree, p: Path, uid: nat, few: set<Path>, many: set<Path>)
    requires p in t && few <= many && forall x <- many :: x !in few ==> !(x < p)
    ensures Stays(t, p, uid, few) == Stays(t, p, uid, many)
  {
    if ShutOut(many, p) {
      var x :| x in many && x < p;
      assert x in few;
    }
  }

  /**
   The heart of the walk: after everything below a directory was swept, nothing is left below
   it exactly when nothing below it belonged to another user.
   */
  lemma EmptyExactly(before: Tree, mid: Tree, e: Path, uid: nat, denied: set<Path>)
    requires WellFormed(before) && Pruned(before, mid, uid)
    requires forall p <- before :: e < p ==> (p in mid <==> Stays(before, p, uid, denied))
    requires DeniedIn(before, denied, uid) && forall x <- denied :: !(x <= e)
    ensures (exists q :: q in mid && e < q) <==> Foreign(before, e, uid)
  {
    if exists q :: q in mid && e < q {
      var q :| q in mid && e < q;
      if before[q].uid == uid {
        if before[q].dir && Foreign(before, q, uid) {
          var r :| r in before && q < r && before[r].uid != uid;
          PrefixTrans(e, q, r);
        } else {
          var x :| x in denied && x < q;
          Comparable(e, x, q);
          assert e < x;
        }
      }
    }
    if Foreign(before, e, uid) {
      var q :| q in before && e < q && before[q].uid != uid;
      assert q in mid;
    }
  }
}
