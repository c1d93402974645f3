/** The table of an object's members: what it holds, and that the order of the members does not matter. */
module Tables {
  import opened Base
  import opened Grammar

  /** Every key's name is within the limit on names. */
  lemma KeysAreShort(name: seq<byte>)
    ensures KeyOf(name).Some? ==> |name| <= MAX_KEY_BYTES
  {
  }

  lemma {:induction false} TableHolds(ms: seq<Member>)
    requires MembersOk(ms)
    ensures TableOk(Table(ms))
    ensures forall i :: 0 <= i < |ms| ==> KeyIn(ms[i]) in Table(ms) && Table(ms)[KeyIn(ms[i])] == ms[i].value
    ensures forall k <- Table(ms) :: exists i :: 0 <= i < |ms| && KeyIn(ms[i]) == k
  {
    hide Fits, KeyOf, ValueOk, Decoded, ShapeOf, KeyIn, MemberOk, Table;
    if ms == [] {
      NoMembers(ms);
    } else {
      var front, last := ms[..|ms| - 1], ms[|ms| - 1];
      TableHolds(front);
      FitsIn(last);
      TableGrows(ms);
      forall k | k in Table(ms)
        ensures exists i :: 0 <= i < |ms| && KeyIn(ms[i]) == k
      {
        if k == KeyIn(last) {
          assert KeyIn(ms[|ms| - 1]) == k;
        } else {
          var i :| 0 <= i < |front| && KeyIn(front[i]) == k;
          assert KeyIn(ms[i]) == k;
        }
      }
      forall i | 0 <= i < |ms|
        ensures KeyIn(ms[i]) in Table(ms) && Table(ms)[KeyIn(ms[i])] == ms[i].value
      {
        if i < |front| {
          assert KeyIn(front[i]) != KeyIn(last);
        }
      }
    }
  }

  lemma NoMembers(ms: seq<Member>)
    requires MembersOk(ms) && ms == []
    ensures Table(ms) == map[]
  {
  }

  lemma TableGrows(ms: seq<Member>)
    requires MembersOk(ms) && ms != []
    ensures MembersOk(ms[..|ms| - 1])
    ensures Table(ms) == Table(ms[..|ms| - 1])[KeyIn(ms[|ms| - 1]) := ms[|ms| - 1].value]
  {
    hide MemberOk, KeyIn;
  }

  /** The table does not depend on the end it is built from. */
  lemma {:induction false} TableFirst(ms: seq<Member>)
    requires MembersOk(ms) && ms != []
    ensures MembersOk(ms[1..]) && Table(ms) == map[KeyIn(ms[0]) := ms[0].value] + Table(ms[1..])
    decreases |ms|
  {
    hide MemberOk, KeyIn, Table;
    TableGrows(ms);
    var front := ms[..|ms| - 1];
    assert forall i :: 0 <= i < |ms| - 1 ==> ms[1..][i] == ms[i + 1];
    if |ms| == 1 {
      NoMembers(ms[1..]);
      NoMembers(front);
    } else {
      TableFirst(front);
      TableGrows(ms[1..]);
      assert ms[1..][..|ms| - 2] == front[1..];
    }
  }

  lemma FitsIn(m: Member)
    requires MemberOk(m)
    ensures ValueOk(m.value, ShapeOf(KeyIn(m))) && Fits(KeyIn(m), m.value)
  {
  }

  /** The order of the members does not matter. */
  lemma TableOfPermuted(a: seq<Member>, b: seq<Member>)
    requires MembersOk(a) && multiset(a) == multiset(b)
    ensures MembersOk(b) && Table(a) == Table(b)
  {
    hide Fits, KeyOf, ValueOk, Decoded, ShapeOf, Table;
    PermutedDistinct(a, b);
    TableHolds(a);
    TableHolds(b);
    forall k | k in Table(a)
      ensures k in Table(b) && Table(b)[k] == Table(a)[k]
    {
      var i :| 0 <= i < |a| && KeyIn(a[i]) == k;
      assert a[i] in multiset(b);
    }
    forall k | k in Table(b)
      ensures k in Table(a)
    {
      var i :| 0 <= i < |b| && KeyIn(b[i]) == k;
      assert b[i] in multiset(a);
    }
  }

  lemma PermutedDistinct(a: seq<Member>, b: seq<Member>)
    requires MembersOk(a) && multiset(a) == multiset(b)
    ensures MembersOk(b)
  {
    assert forall i :: 0 <= i < |b| ==> b[i] in multiset(a);
    forall i, j | 0 <= i < j < |b|
      ensures KeyIn(b[i]) != KeyIn(b[j])
    {
      if KeyIn(b[i]) == KeyIn(b[j]) {
        var p :| 0 <= p < |a| && a[p] == b[i];
        var q :| 0 <= q < |a| && a[q] == b[j];
        assert p == q;
        TwiceInSeq(b, i, j);
        OnceInSeq(a, p);
        assert false;
      }
    }
  }

  lemma TwiceInSeq<T>(s: seq<T>, i: nat, j: nat)
    requires i < j < |s| && s[i] == s[j]
    ensures multiset(s)[s[i]] >= 2
  {
    assert s == s[..j] + [s[j]] + s[j + 1..];
    assert s[i] in s[..j];
  }

  lemma OnceInSeq(ms: seq<Member>, p: nat)
    requires MembersOk(ms) && p < |ms|
    ensures multiset(ms)[ms[p]] == 1
  {
    hide MemberOk, KeyIn;
    OnceApart(ms, p);
  }

  lemma OnceApart<T>(s: seq<T>, p: nat)
    requires p < |s| && forall i :: 0 <= i < |s| && i != p ==> s[i] != s[p]
    ensures multiset(s)[s[p]] == 1
  {
    assert s == s[..p] + [s[p]] + s[p + 1..];
    assert s[p] !in s[..p];
    assert s[p] !in s[p + 1..];
  }

  lemma Without<T>(s: seq<T>, j: nat)
    requires j < |s|
    ensures multiset(s[..j] + s[j + 1..]) == multiset(s) - multiset{s[j]}
  {
    assert s == s[..j] + [s[j]] + s[j + 1..];
  }

  /** How long a line is does not depend on the order of its members either. */
  lemma {:induction false} LengthOfPermuted(a: seq<Member>, b: seq<Member>)
    requires multiset(a) == multiset(b)
    ensures |WrittenMembers(a)| == |WrittenMembers(b)|
    decreases |a|
  {
    hide WrittenMember, WrittenMembers;
    SameSize(a, b);
    if |a| > 1 {
      var j := FirstElsewhere(a, b);
      LengthOfPermuted(a[1..], b[..j] + b[j + 1..]);
      assert a[..0] + a[1..] == a[1..];
      LengthWithout(a, 0);
      LengthWithout(b, j);
    } else if |a| == 1 {
      var j := FirstElsewhere(a, b);
      assert a == b;
    } else {
      assert a == b;
    }
  }

  lemma SameSize<T>(a: seq<T>, b: seq<T>)
    requires multiset(a) == multiset(b)
    ensures |a| == |b|
  {
    assert |multiset(a)| == |a| && |multiset(b)| == |b|;
  }

  /** The first element of a sequence stands somewhere in each permutation of it. */
  lemma FirstElsewhere<T>(a: seq<T>, b: seq<T>) returns (j: nat)
    requires multiset(a) == multiset(b) && a != []
    ensures j < |b| && b[j] == a[0] && multiset(a[1..]) == multiset(b[..j] + b[j + 1..])
  {
    assert a[0] in multiset(b);
    j :| 0 <= j < |b| && b[j] == a[0];
    assert a[..0] + a[1..] == a[1..];
    Without(a, 0);
    Without(b, j);
  }

  lemma {:induction false} LengthWithout(ms: seq<Member>, j: nat)
    requires j < |ms| && |ms| > 1
    ensures |WrittenMembers(ms)| == |WrittenMember(ms[j])| + 1 + |WrittenMembers(ms[..j] + ms[j + 1..])|
  {
    if j == 0 {
      assert ms[..j] + ms[j + 1..] == ms[1..];
    } else {
      var rest := ms[..j] + ms[j + 1..];
      assert rest[0] == ms[0];
      if |ms| > 2 {
        LengthWithout(ms[1..], j - 1);
        assert rest[1..] == ms[1..][..j - 1] + ms[1..][j..];
      } else {
        assert rest == [ms[0]];
        assert ms[1..] == [ms[1]];
      }
    }
  }
}
