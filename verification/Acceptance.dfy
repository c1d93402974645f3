/** Which lines are requests: the verdict on a line against the grammar it is written in. */
module Acceptance {
  import opened Base
  import opened Messages
  import opened LineReader
  import opened Grammar
  import opened Tables
  import opened Recognizer

  // ------------------------------------------------------------------ what a scan has read was written there

  /** The first member of a scan that goes past it. */
  ghost predicate ReadsOne(s: seq<byte>, seen: map<Key, Value>, m: Member, r: seq<byte>)
    requires TableOk(seen)
  {
    && MemberOk(m) && KeyIn(m) !in seen && m.after == r[..Blank(r)]
    && s == WrittenMember(m) + r[Blank(r)..] && |r| < |s| && TableOk(seen[KeyIn(m) := m.value])
    && ScanMembers(s, seen) ==
       if Next(r, ',') then ScanMembers(Past(r), seen[KeyIn(m) := m.value])
       else Done(seen[KeyIn(m) := m.value], r)
  }

  lemma MemberRead(s: seq<byte>, seen: map<Key, Value>, name: Value, r: seq<byte>, k: Key, v: Value, r2: seq<byte>)
    requires TableOk(seen) && ReadString(s) == Got(name, r) && Next(r, ':')
    requires TextOk(name.text) && KeyOf(Decoded(name.text)) == Some(k)
    requires ReadMember(k, Past(r)) == Got(v, r2)
    ensures var m := Member(name, r[..Blank(r)], v, r2[..Blank(r2)]);
      MemberOk(m) && KeyIn(m) == k && s == WrittenMember(m) + r2[Blank(r2)..]
  {
    hide Blank, Past, Next, Decoded, KeyOf, Fits, WrittenValue, ReadString, Read, Spaces;
    StringSound(s);
    SplitNext(r, ':');
    ReadSound(ShapeOf(k), Past(r));
    BlankIsSpaces(r);
    BlankIsSpaces(r2);
    Joined(WrittenValue(name), r[..Blank(r)], WrittenValue(v), r2[..Blank(r2)], r2[Blank(r2)..]);
    assert r2 == r2[..Blank(r2)] + r2[Blank(r2)..];
  }

  lemma Joined(key: seq<byte>, colon: seq<byte>, value: seq<byte>, after: seq<byte>, rest: seq<byte>)
    ensures key + (colon + [':'] + (value + (after + rest))) == (key + colon + [':'] + value + after) + rest
  {
  }

  /** The first step of a scan: it ends with nothing new read, or reads one member. */
  lemma FirstRead(s: seq<byte>, seen: map<Key, Value>) returns (one: Option<(Member, seq<byte>)>)
    requires TableOk(seen)
    ensures one.Some? ==> ReadsOne(s, seen, one.value.0, one.value.1)
    ensures one.None? ==>
      var scan := ScanMembers(s, seen); scan.Broken? || (!scan.Done? && scan.seen == seen)
  {
    hide Decoded, Read, Fits, ReadString, ReadMember, Blank, Past, KeyOf, WrittenMember, ValueOk;
    one := None;
    if ReadString(s).Got? {
      var name, r := ReadString(s).value, ReadString(s).rest;
      StringText(s);
      if |Decoded(name.text)| <= MAX_KEY_BYTES && Next(r, ':') && KeyOf(Decoded(name.text)).Some? {
        var k := KeyOf(Decoded(name.text)).value;
        if k !in seen && ReadMember(k, Past(r)).Got? {
          var v, r2 := ReadMember(k, Past(r)).value, ReadMember(k, Past(r)).rest;
          MemberRead(s, seen, name, r, k, v, r2);
          var m := Member(name, r[..Blank(r)], v, r2[..Blank(r2)]);
          one := Some((m, r2));
        }
      }
    }
  }

  lemma StringText(s: seq<byte>)
    requires ReadString(s).Got?
    ensures TextOk(ReadString(s).value.text)
  {
    StringSound(s);
  }

  /** Everything a scan has seen stands at the front of its input, as well-formed members with new keys. */
  ghost predicate HasRead(s: seq<byte>, seen: map<Key, Value>, ms: seq<Member>, scan: Scan)
    requires TableOk(seen)
  {
    && !scan.Broken?
    && MembersOk(ms) && NewKeys(ms, seen) && scan.seen == seen + Table(ms) && WrittenMembers(ms) <= s
    && (scan.Done? ==> ms != [] && s == WrittenMembers(ms) + scan.rest[Blank(scan.rest)..])
  }

  lemma {:induction false} ScanReads(s: seq<byte>, seen: map<Key, Value>) returns (ms: seq<Member>)
    requires TableOk(seen)
    ensures ScanMembers(s, seen).Broken? || HasRead(s, seen, ms, ScanMembers(s, seen))
    decreases |s|
  {
    hide ScanMembers, MemberOk, KeyIn, Table, WrittenMembers, TableOk, MembersOk, NewKeys, WrittenMember, Blank, Past;
    ms := [];
    var one := FirstRead(s, seen);
    EmptyTable(seen, ms);
    Nothing(ms, seen);
    if one.Some? {
      var (m, r) := one.value;
      if Next(r, ',') {
        PastShorter(r);
        var others := ScanReads(Past(r), seen[KeyIn(m) := m.value]);
        if !ScanMembers(s, seen).Broken? {
          ms := [m] + others;
          SplitNext(r, ',');
          assert r[Blank(r)..] == [','] + Past(r) by { CommaThere(r); }
          ReadMore(s, seen, m, r, others, ScanMembers(s, seen));
        }
      } else {
        ms := [m];
        JustOne(m, seen);
        assert s == WrittenMembers(ms) + r[Blank(r)..];
      }
    }
  }

  lemma PastShorter(r: seq<byte>)
    requires Next(r, ',')
    ensures |Past(r)| < |r|
  {
  }

  lemma CommaThere(r: seq<byte>)
    requires Next(r, ',')
    ensures r[Blank(r)..] == [','] + Past(r)
  {
  }

  lemma Nothing(ms: seq<Member>, seen: map<Key, Value>)
    requires ms == []
    ensures MembersOk(ms) && NewKeys(ms, seen) && WrittenMembers(ms) == []
  {
  }

  lemma JustOne(m: Member, seen: map<Key, Value>)
    requires MemberOk(m) && KeyIn(m) !in seen
    ensures MembersOk([m]) && NewKeys([m], seen) && WrittenMembers([m]) == WrittenMember(m)
    ensures seen + Table([m]) == seen[KeyIn(m) := m.value]
  {
    hide MemberOk, KeyIn, WrittenMember;
    assert [m][..0] == [];
  }

  lemma ReadMore(s: seq<byte>, seen: map<Key, Value>, m: Member, r: seq<byte>, others: seq<Member>, scan: Scan)
    requires TableOk(seen) && MemberOk(m) && KeyIn(m) !in seen && TableOk(seen[KeyIn(m) := m.value])
    requires Next(r, ',') && s == WrittenMember(m) + ([','] + Past(r))
    requires HasRead(Past(r), seen[KeyIn(m) := m.value], others, scan)
    ensures HasRead(s, seen, [m] + others, scan)
  {
    hide MemberOk, KeyIn, Table, WrittenMember, Blank, Past, Next, TableOk;
    var ms := [m] + others;
    assert ms[1..] == others;
    Distinct(m, others, seen);
    TableFromFront(ms, seen);
    if others == [] {
      assert WrittenMembers(ms) == WrittenMember(m);
    } else if scan.Done? {
      assert s == WrittenMembers(ms) + scan.rest[Blank(scan.rest)..];
    }
  }

  lemma Distinct(m: Member, others: seq<Member>, seen: map<Key, Value>)
    requires MemberOk(m) && MembersOk(others) && KeyIn(m) !in seen && NewKeys(others, seen[KeyIn(m) := m.value])
    ensures MembersOk([m] + others) && NewKeys([m] + others, seen)
  {
    hide MemberOk, KeyIn;
  }

  // ------------------------------------------------------------------ the accepted lines

  lemma ClosedOf(after: seq<byte>, end: seq<byte>)
    requires Spaces(after) && Spaces(end)
    ensures Closed(after + ['}'] + end)
  {
    NextOf(after, '}', end);
    BlankOf(end, []);
    assert end + [] == end;
  }

  /** The brace of an object whose members are written after it is not followed by the closing one. */
  lemma NotEmptyObject(ms: seq<Member>, more: seq<byte>)
    requires ms != [] && ValueOk(ms[0].key, Text)
    ensures !Next(WrittenMembers(ms) + more, '}')
  {
    var m := ms[0];
    var s := WrittenMembers(ms) + more;
    var t := s[|m.key.ws|..];
    assert s[..|m.key.ws|] == m.key.ws && t[0] == '"';
    assert s == m.key.ws + t;
    BlankOf(m.key.ws, t);
  }

  /** The verdict on an object whose members are well formed, each key once, depends on its table alone. */
  lemma MembersJudged(d: Document)
    requires Spaces(d.before) && Spaces(d.end) && MembersOk(d.members) && d.members != []
    requires |WrittenDocument(d)| <= MAX_LINE
    ensures TableOk(Table(d.members)) && Parse(WrittenDocument(d)) == TableVerdict(Table(d.members))
  {
    hide ScanMembers, WrittenMembers, Table, Blank, Next, Past, Closed, TableOk, Meaning, KindIn, NumberIn, MembersOk;
    var ms, line := d.members, WrittenDocument(d);
    var body := WrittenMembers(ms) + ['}'] + d.end;
    assert line == d.before + ['{'] + body;
    NextOf(d.before, '{', body);
    assert body == WrittenMembers(ms) + (['}'] + d.end);
    FirstKey(ms);
    NotEmptyObject(ms, ['}'] + d.end);
    NoKeys(ms);
    ScanWhole(ms, d.end, map[]);
    LastSpaces(ms);
    ClosedOf(ms[|ms| - 1].after, d.end);
    assert map[] + Table(ms) == Table(ms);
  }

  /** What is made of a whole object with these members. */
  function TableVerdict(t: map<Key, Value>): Outcome
    requires TableOk(t)
  {
    if !(HEAD <= t.Keys) then Unreadable
    else if t.Keys == Required(KindIn(t)) then Ok(Meaning(t))
    else Malformed(KindIn(t), NumberIn(t, Gen), NumberIn(t, Id))
  }

  lemma FirstKey(ms: seq<Member>)
    requires MembersOk(ms) && ms != []
    ensures ValueOk(ms[0].key, Text)
  {
  }

  lemma LastSpaces(ms: seq<Member>)
    requires MembersOk(ms) && ms != []
    ensures Spaces(ms[|ms| - 1].after)
  {
    AfterSpaces(ms[|ms| - 1]);
  }

  /** Every document of the grammar that is short enough is read as what it means. */
  lemma DocumentAccepted(d: Document)
    requires DocumentOk(d) && |WrittenDocument(d)| <= MAX_LINE
    ensures Parse(WrittenDocument(d)) == Ok(Meaning(Table(d.members)))
  {
    hide Parse, WrittenMembers, Table, TableOk, Meaning, KindIn, NumberIn, MembersOk;
    HasMembers(d.members);
    MembersJudged(d);
    HeadRequired(KindIn(Table(d.members)));
  }

  lemma HasMembers(ms: seq<Member>)
    requires MembersOk(ms) && Type in Table(ms)
    ensures ms != []
  {
  }

  lemma HeadRequired(kind: RequestType)
    ensures HEAD <= Required(kind)
  {
  }

  lemma NoKeys(ms: seq<Member>)
    requires MembersOk(ms)
    ensures TableOk(map[]) && NewKeys(ms, map[])
  {
  }

  /** Every line read as a request is a document of the grammar, and means that request. */
  lemma AcceptedDocument(line: seq<byte>) returns (d: Document)
    requires Parse(line).Ok?
    ensures DocumentOk(d) && WrittenDocument(d) == line && Parse(line).req == Meaning(Table(d.members))
  {
    hide ScanMembers, WrittenMembers, Table, Blank, Past, TableOk, Meaning, KindIn, MembersOk, NewKeys, Required,
      Spaces;
    EmptyTable(map[], []);
    NoKeys([]);
    var scan := ScanMembers(Past(line), map[]);
    var ms := ScanReads(Past(line), map[]);
    var end := Past(scan.rest);
    d := Document(line[..Blank(line)], ms, end);
    assert map[] + Table(ms) == Table(ms);
    SplitNext(line, '{');
    BlankIsSpaces(line);
    BlankIsSpaces(end);
    assert end[..|end|] == end;
    SplitNext(scan.rest, '}');
    BraceThere(scan.rest);
    var before, body := d.before, WrittenMembers(ms);
    assert before + ['{'] + (body + (['}'] + end)) == before + ['{'] + body + ['}'] + end;
  }

  lemma BraceThere(r: seq<byte>)
    requires Next(r, '}')
    ensures r[Blank(r)..] == ['}'] + Past(r)
  {
  }

  /** A line is a request exactly when it is a document of the grammar that means it, no longer than allowed. */
  ghost predicate Means(line: seq<byte>, req: Request) {
    exists d: Document :: DocumentOk(d) && WrittenDocument(d) == line && Meaning(Table(d.members)) == req
  }

  lemma AcceptedExactly(line: seq<byte>, req: Request)
    ensures Parse(line) == Ok(req) <==> |line| <= 65536 && Means(line, req)
  {
    hide Table, Meaning, TableOk;
    if Parse(line) == Ok(req) {
      var d := AcceptedDocument(line);
    }
    if |line| <= MAX_LINE && Means(line, req) {
      var d: Document :| DocumentOk(d) && WrittenDocument(d) == line && Meaning(Table(d.members)) == req;
      DocumentAccepted(d);
    }
  }

  /** Permuting the members of an accepted line changes neither the verdict nor the request. */
  lemma MembersInAnyOrder(d: Document, ms: seq<Member>)
    requires DocumentOk(d) && multiset(ms) == multiset(d.members)
    ensures Parse(WrittenDocument(d.(members := ms))) == Parse(WrittenDocument(d))
  {
    hide Parse, WrittenMembers, Table, TableOk, Meaning;
    TableOfPermuted(d.members, ms);
    LengthOfPermuted(d.members, ms);
    var other := d.(members := ms);
    assert |WrittenDocument(d)| == |WrittenDocument(other)|;
    if |WrittenDocument(d)| <= MAX_LINE {
      DocumentAccepted(d);
      DocumentAccepted(other);
    } else {
      LongUnreadable(WrittenDocument(d));
      LongUnreadable(WrittenDocument(other));
    }
  }

  lemma LongUnreadable(line: seq<byte>)
    requires |line| > 65536
    ensures Parse(line) == Unreadable
  {
  }

  /** Nothing but white space may come before the object. */
  lemma StrayByteUnreadable(ws: seq<byte>, c: byte, more: seq<byte>)
    requires (forall i :: 0 <= i < |ws| ==> ws[i] in {' ', '\t', '\r', '\n'}) && c !in {' ', '\t', '\r', '\n', '{'}
    ensures Parse(ws + [c] + more) == Unreadable
  {
    hide ScanMembers, Judge;
    NextOf(ws, c, more);
  }

  // ------------------------------------------------------------------ lines that are not requests but can be answered

  /** The head of a table: the type, generation and identifier in it. */
  function HeadIn(t: map<Key, Value>): (RequestType, nat, nat)
    requires TableOk(t) && HEAD <= t.Keys
  {
    (KindIn(t), NumberIn(t, Gen), NumberIn(t, Id))
  }

  /** The line opens an object whose first members are these. */
  ghost predicate Opens(line: seq<byte>, before: seq<byte>, ms: seq<Member>) {
    Spaces(before) && MembersOk(ms) && before + ['{'] + WrittenMembers(ms) <= line
  }

  /**
   A line that can be attributed opens with well-formed members, each key once, that include the
   type, the generation and the identifier, and its head is theirs.
   */
  lemma HeadWasRead(line: seq<byte>) returns (before: seq<byte>, ms: seq<Member>)
    requires !Parse(line).Unreadable?
    ensures Opens(line, before, ms) && TableOk(Table(ms)) && HEAD <= Table(ms).Keys
    ensures Parse(line).Head() == HeadIn(Table(ms))
  {
    hide ScanMembers, WrittenMembers, Table, Blank, Past, TableOk, KindIn, NumberIn, MembersOk, NewKeys, Required,
      Spaces, Closed;
    EmptyTable(map[], []);
    NoKeys([]);
    before := line[..Blank(line)];
    ms := ScanReads(Past(line), map[]);
    assert map[] + Table(ms) == Table(ms);
    TableHolds(ms);
    SplitNext(line, '{');
    BlankIsSpaces(line);
    PrefixJoins(before + ['{'], WrittenMembers(ms), Past(line));
  }

  lemma PrefixJoins(a: seq<byte>, b: seq<byte>, c: seq<byte>)
    requires b <= c
    ensures a + b <= a + c
  {
    assert c == b + c[|b|..];
    assert a + c == (a + b) + c[|b|..];
  }

  /**
   Whatever comes after members that include the type, the generation and the identifier, a
   repeated key among it, the line is answered with their values or not at all.
   */
  lemma HeadIsFixed(line: seq<byte>, before: seq<byte>, ms: seq<Member>, more: seq<byte>)
    requires Spaces(before) && MembersOk(ms) && line == before + ['{'] + WrittenMembers(ms) + [','] + more
    requires TableOk(Table(ms)) && HEAD <= Table(ms).Keys
    ensures Parse(line).Unreadable? || Parse(line).Head() == HeadIn(Table(ms))
  {
    hide ScanMembers, WrittenMembers, Table, Blank, Next, Past, TableOk, KindIn, MembersOk, NewKeys, Required,
      Spaces, Closed;
    assert ms != [] by { HasMembers(ms); }
    var body := WrittenMembers(ms) + [','] + more;
    assert line == before + ['{'] + body;
    NextOf(before, '{', body);
    NoKeys(ms);
    ScanList(ms, more, map[]);
    assert map[] + Table(ms) == Table(ms);
    var others := ScanReads(more, Table(ms));
    if !ScanMembers(more, Table(ms)).Broken? {
      Kept(Table(ms), others);
    }
  }

  lemma Kept(t: map<Key, Value>, others: seq<Member>)
    requires TableOk(t) && HEAD <= t.Keys && MembersOk(others) && NewKeys(others, t)
    ensures TableOk(t + Table(others)) && HeadIn(t + Table(others)) == HeadIn(t)
  {
    hide MemberOk, KeyIn, Table, Fits;
    TableHolds(others);
    forall k | k in HEAD
      ensures k !in Table(others)
    {
    }
  }

  /** After members and a comma, the verdict is that of what follows with their table. */
  lemma GoesOn(line: seq<byte>, before: seq<byte>, ms: seq<Member>, tail: seq<byte>)
    requires Spaces(before) && MembersOk(ms) && ms != [] && TableOk(Table(ms)) && |line| <= MAX_LINE
    requires line == before + ['{'] + WrittenMembers(ms) + [','] + tail
    ensures Parse(line) == Judge(ScanMembers(tail, Table(ms)))
  {
    hide ScanMembers, WrittenMembers, Table, Blank, Next, Past, TableOk, KindIn, MembersOk, NewKeys, Spaces, Closed, Judge;
    var body := WrittenMembers(ms) + [','] + tail;
    assert line == before + ['{'] + body;
    NextOf(before, '{', body);
    assert body == WrittenMembers(ms) + ([','] + tail);
    FirstKey(ms);
    NotEmptyObject(ms, [','] + tail);
    NoKeys(ms);
    ScanList(ms, tail, map[]);
    assert map[] + Table(ms) == Table(ms);
  }

  /** A well-formed member with a key that was seen is refused; the head stays. */
  lemma RepeatedKey(line: seq<byte>, before: seq<byte>, ms: seq<Member>, again: Member, more: seq<byte>)
    requires Spaces(before) && MembersOk(ms) && MemberOk(again) && |line| <= MAX_LINE
    requires TableOk(Table(ms)) && HEAD <= Table(ms).Keys && KeyIn(again) in Table(ms)
    requires line == before + ['{'] + WrittenMembers(ms) + [','] + (WrittenMember(again) + more)
    ensures Parse(line).Malformed? && Parse(line).Head() == HeadIn(Table(ms))
  {
    hide WrittenMembers, Table, TableOk, KindIn, MembersOk, Spaces, WrittenMember, ReadString, Decoded, Fits, KeyOf, ValueOk,
      Parse;
    assert ms != [] by { HasMembers(ms); }
    GoesOn(line, before, ms, WrittenMember(again) + more);
    MemberName(again, more);
  }

  /**
   A name that is no key is refused whatever its value looks like, and the head stays; only a name
   longer than any key may be makes the line unreadable.
   */
  lemma UnknownKey(line: seq<byte>, before: seq<byte>, ms: seq<Member>, name: Value, colon: seq<byte>, more: seq<byte>)
    requires Spaces(before) && MembersOk(ms) && |line| <= MAX_LINE && TableOk(Table(ms)) && HEAD <= Table(ms).Keys
    requires ValueOk(name, Text) && Spaces(colon) && KeyOf(Decoded(name.text)).None?
    requires line == before + ['{'] + WrittenMembers(ms) + [','] + (WrittenValue(name) + (colon + [':'] + more))
    ensures if |Decoded(name.text)| > 32 then Parse(line) == Unreadable
            else Parse(line).Malformed? && Parse(line).Head() == HeadIn(Table(ms))
  {
    hide WrittenMembers, Table, TableOk, KindIn, MembersOk, Spaces, WrittenValue, ReadString, Decoded, KeyOf, ValueOk, Parse,
      Next, Past;
    assert ms != [] by { HasMembers(ms); }
    GoesOn(line, before, ms, WrittenValue(name) + (colon + [':'] + more));
    StringComplete(name, colon + [':'] + more);
    NextOf(colon, ':', more);
  }
}
