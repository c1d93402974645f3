/** How decoded strings and argument vectors lie in the request's storage, and how they are read back. */
module Storage {
  import opened Base

  /** The string is stored at an offset of the arena, with its terminator. */
  ghost predicate StringIn(arena: seq<byte>, at: nat, str: seq<byte>) {
    at + |str| < |arena| && arena[at..at + |str|] == str && arena[at + |str|] == '\0'
  }

  /** The slots point at the strings, in order. */
  ghost predicate PointAt(slots: seq<Option<nat>>, arena: seq<byte>, strings: seq<seq<byte>>) {
    && |slots| == |strings|
    && forall j :: 0 <= j < |slots| ==> slots[j].Some? && StringIn(arena, slots[j].value, strings[j])
  }

  /** The strings are stored at consecutive slots, with the null slot after them. */
  ghost predicate ArgvIn(store: seq<Option<nat>>, arena: seq<byte>, at: nat, argv: seq<seq<byte>>) {
    && at + |argv| < |store| && store[at + |argv|].None?
    && PointAt(store[at..at + |argv|], arena, argv)
  }

  ghost predicate CommandsIn(
    starts: seq<nat>, store: seq<Option<nat>>, arena: seq<byte>, commands: seq<seq<seq<byte>>>)
  {
    |starts| == |commands| && forall c :: 0 <= c < |commands| ==> ArgvIn(store, arena, starts[c], commands[c])
  }

  /** A string as its reader sees it: the bytes up to the terminator. */
  function StringAt(arena: seq<byte>, at: nat): seq<byte>
    decreases |arena| - at
  {
    if at >= |arena| || arena[at] == '\0' then [] else [arena[at]] + StringAt(arena, at + 1)
  }

  /** An argument vector as its reader sees it: the strings up to the null slot. */
  function ArgvAt(store: seq<Option<nat>>, arena: seq<byte>, at: nat): seq<seq<byte>>
    decreases |store| - at
  {
    if at >= |store| || store[at].None? then []
    else [StringAt(arena, store[at].value)] + ArgvAt(store, arena, at + 1)
  }

  function CommandsAt(starts: seq<nat>, store: seq<Option<nat>>, arena: seq<byte>): seq<seq<seq<byte>>> {
    seq(|starts|, c requires 0 <= c < |starts| => ArgvAt(store, arena, starts[c]))
  }

  lemma {:induction false} StringReadBack(arena: seq<byte>, at: nat, str: seq<byte>)
    requires StringIn(arena, at, str) && '\0' !in str
    ensures StringAt(arena, at) == str
    decreases |str|
  {
    if str != [] {
      assert arena[at] == arena[at..at + |str|][0];
      assert arena[at + 1..at + |str|] == arena[at..at + |str|][1..];
      StringReadBack(arena, at + 1, str[1..]);
    }
  }

  lemma {:induction false} ArgvReadBack(store: seq<Option<nat>>, arena: seq<byte>, at: nat, argv: seq<seq<byte>>)
    requires ArgvIn(store, arena, at, argv) && forall j :: 0 <= j < |argv| ==> '\0' !in argv[j]
    ensures ArgvAt(store, arena, at) == argv
    decreases |argv|
  {
    hide StringIn;
    if argv != [] {
      var slots := store[at..at + |argv|];
      assert slots[0] == store[at];
      StringReadBack(arena, store[at].value, argv[0]);
      assert store[at + 1..at + 1 + |argv[1..]|] == slots[1..];
      assert PointAt(slots[1..], arena, argv[1..]);
      ArgvReadBack(store, arena, at + 1, argv[1..]);
    }
  }

  /** What is stored stays readable as more is stored after it. */
  lemma StringStays(a: seq<byte>, b: seq<byte>, at: nat, str: seq<byte>)
    requires StringIn(a, at, str) && a <= b
    ensures StringIn(b, at, str)
  {
    assert b[at..at + |str|] == a[at..at + |str|];
  }

  lemma ArgvStays(
    s: seq<Option<nat>>, t: seq<Option<nat>>, a: seq<byte>, b: seq<byte>, at: nat, argv: seq<seq<byte>>)
    requires ArgvIn(s, a, at, argv) && s <= t && a <= b
    ensures ArgvIn(t, b, at, argv)
  {
    hide StringIn;
    var slots := s[at..at + |argv|];
    assert t[at..at + |argv|] == slots;
    PointsStay(slots, a, b, argv);
  }

  lemma PointsStay(slots: seq<Option<nat>>, a: seq<byte>, b: seq<byte>, strings: seq<seq<byte>>)
    requires PointAt(slots, a, strings) && a <= b
    ensures PointAt(slots, b, strings)
  {
    hide StringIn;
    forall j | 0 <= j < |slots|
      ensures StringIn(b, slots[j].value, strings[j])
    {
      StringStays(a, b, slots[j].value, strings[j]);
    }
  }

  lemma CommandsStay(
    starts: seq<nat>, s: seq<Option<nat>>, t: seq<Option<nat>>, a: seq<byte>, b: seq<byte>,
    commands: seq<seq<seq<byte>>>)
    requires CommandsIn(starts, s, a, commands) && s <= t && a <= b
    ensures CommandsIn(starts, t, b, commands)
  {
    hide ArgvIn;
    forall c | 0 <= c < |commands|
      ensures ArgvIn(t, b, starts[c], commands[c])
    {
      ArgvStays(s, t, a, b, starts[c], commands[c]);
    }
  }
}
