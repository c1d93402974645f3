/**
 The adapter's requests letter by letter. Each line is written out here with its names, its
 punctuation and its escapes, and is shown to be what the adapter writes and what the supervisor
 reads as that request, member by member.
 */
module Spelling {
  import opened Base
  import opened Messages
  import opened Unicode
  import opened LineReader
  import opened Grammar
  import opened Recognizer
  import opened Escaping
  import opened Numbers
  import opened GoJson
  import opened Adapter

  // ------------------------------------------------------------------ values

  function HexText(u: nat): seq<byte>
    requires u < 0x10000
  {
    var digits: seq<byte> := "0123456789abcdef";
    ['\\', 'u', digits[u / 4096], digits[u / 256 % 16], digits[u / 16 % 16], digits[u % 16]]
  }

  /** One character inside a string. */
  function Typed(u: scalar): seq<byte> {
    if u == 0x22 then "\\\""
    else if u == 0x5C then "\\\\"
    else if u == 0x08 then "\\b"
    else if u == 0x09 then "\\t"
    else if u == 0x0A then "\\n"
    else if u == 0x0C then "\\f"
    else if u == 0x0D then "\\r"
    else if u < 0x20 || u == 0x2028 || u == 0x2029 then HexText(u)
    else Encode(u)
  }

  function TypedAll(us: seq<scalar>): seq<byte> {
    if us == [] then [] else Typed(us[0]) + TypedAll(us[1..])
  }

  function TextTyped(us: seq<scalar>): seq<byte> {
    "\"" + TypedAll(us) + "\""
  }

  function Commas(parts: seq<seq<byte>>): seq<byte> {
    if parts == [] then [] else parts[0] + if |parts| == 1 then [] else "," + Commas(parts[1..])
  }

  function ListTyped(parts: seq<seq<byte>>): seq<byte> {
    "[" + Commas(parts) + "]"
  }

  function ArgvTyped(argv: seq<seq<scalar>>): seq<byte> {
    ListTyped(seq(|argv|, i requires 0 <= i < |argv| => TextTyped(argv[i])))
  }

  function CommandsTyped(commands: seq<seq<seq<scalar>>>): seq<byte> {
    ListTyped(seq(|commands|, i requires 0 <= i < |commands| => ArgvTyped(commands[i])))
  }

  lemma HexTyped(u: nat)
    requires u < 0x10000
    ensures WrittenHex(HexOf(u)) == HexText(u)
  {
    DigitTyped(u / 4096);
    DigitTyped(u / 256 % 16);
    DigitTyped(u / 16 % 16);
    DigitTyped(u % 16);
  }

  lemma DigitTyped(n: nat)
    requires n < 16
    ensures HexChar(n) == "0123456789abcdef"[n]
  {
  }

  lemma PieceTyped(u: scalar)
    ensures Written(PiecesOf(u)) == Typed(u)
  {
    if u == 0x22 || u == 0x5C || u == 8 || u == 9 || u == 10 || u == 12 || u == 13 {
      OneWritten(PiecesOf(u)[0]);
    } else if u < 0x20 || u == 0x2028 || u == 0x2029 {
      OneWritten(PiecesOf(u)[0]);
      HexTyped(u);
    } else {
      RawWritten(Encode(u));
    }
  }

  lemma {:induction false} PiecesTyped(us: seq<scalar>)
    ensures Written(Pieces(us)) == TypedAll(us)
  {
    hide PiecesOf, Written, Typed;
    if us == [] {
      EmptyWritten();
    } else {
      PieceTyped(us[0]);
      PiecesTyped(us[1..]);
      WrittenAppend(PiecesOf(us[0]), Pieces(us[1..]));
    }
  }

  lemma TextIsTyped(us: seq<scalar>)
    ensures WrittenValue(TextValue(us)) == TextTyped(us)
  {
    hide Pieces, Written, TypedAll;
    PiecesTyped(us);
  }

  lemma {:induction false} ElementsTyped(vs: seq<Value>, parts: seq<seq<byte>>)
    requires vs != [] && |vs| == |parts| && forall i :: 0 <= i < |vs| ==> WrittenValue(vs[i]) == parts[i]
    ensures WrittenElements(Listed(vs)) == Commas(parts)
    decreases |vs|
  {
    hide WrittenValue;
    if |vs| > 1 {
      ElementsTyped(vs[1..], parts[1..]);
    }
  }

  lemma ListIsTyped(vs: seq<Value>, parts: seq<seq<byte>>)
    requires |vs| == |parts| && forall i :: 0 <= i < |vs| ==> WrittenValue(vs[i]) == parts[i]
    ensures WrittenValue(ListValue(vs)) == ListTyped(parts)
  {
    if vs != [] {
      ElementsTyped(vs, parts);
    }
  }

  lemma ArgvIsTyped(argv: seq<seq<scalar>>)
    ensures WrittenValue(ArgvValue(argv)) == ArgvTyped(argv)
  {
    hide TextValue, TextTyped, WrittenValue, ListTyped;
    var vs := seq(|argv|, i requires 0 <= i < |argv| => TextValue(argv[i]));
    var parts := seq(|argv|, i requires 0 <= i < |argv| => TextTyped(argv[i]));
    forall i | 0 <= i < |argv|
      ensures WrittenValue(vs[i]) == parts[i]
    {
      TextIsTyped(argv[i]);
    }
    ListIsTyped(vs, parts);
  }

  lemma CommandsAreTyped(commands: seq<seq<seq<scalar>>>)
    ensures WrittenValue(CommandsValue(commands)) == CommandsTyped(commands)
  {
    hide ArgvValue, ArgvTyped, WrittenValue, ListTyped;
    var vs := seq(|commands|, i requires 0 <= i < |commands| => ArgvValue(commands[i]));
    var parts := seq(|commands|, i requires 0 <= i < |commands| => ArgvTyped(commands[i]));
    forall i | 0 <= i < |commands|
      ensures WrittenValue(vs[i]) == parts[i]
    {
      ArgvIsTyped(commands[i]);
    }
    ListIsTyped(vs, parts);
  }

  // ------------------------------------------------------------------ members

  lemma MemberTyped(f: Field)
    ensures WrittenMember(MemberOf(f)) == "\"" + TagName(f.key) + "\":" + WrittenValue(f.value)
  {
    hide TagName;
    RawWritten(TagName(f.key));
  }

  lemma NameTyped(name: seq<byte>)
    ensures WrittenValue(NameValue(name)) == "\"" + name + "\""
  {
    RawWritten(name);
  }

  /** An object of these members. */
  function ObjectTyped(members: seq<seq<byte>>): seq<byte> {
    "{" + Commas(members) + "}"
  }

  lemma {:induction false} MembersTyped(ms: seq<Member>, parts: seq<seq<byte>>)
    requires |ms| == |parts| && forall i :: 0 <= i < |ms| ==> WrittenMember(ms[i]) == parts[i]
    ensures WrittenMembers(ms) == Commas(parts)
    decreases |ms|
  {
    hide WrittenMember;
    if |ms| > 1 {
      MembersTyped(ms[1..], parts[1..]);
    }
  }

  lemma ObjectIsTyped(fs: seq<Field>, parts: seq<seq<byte>>)
    requires |fs| == |parts| && forall i :: 0 <= i < |fs| ==> WrittenMember(MemberOf(fs[i])) == parts[i]
    ensures Object(fs) == ObjectTyped(parts)
  {
    hide WrittenMember, MemberOf, WrittenMembers, Commas;
    MembersTyped(MembersOf(fs), parts);
  }

  lemma NumberTyped(k: Key, n: nat)
    ensures WrittenMember(MemberOf(Field(k, NumberValue(n)))) == "\"" + TagName(k) + "\":" + Printed(n)
  {
    hide Printed, TagName, WrittenMember, MemberOf;
    MemberTyped(Field(k, NumberValue(n)));
  }

  // ------------------------------------------------------------------ requests

  /** The members every request opens with. */
  function HeadTyped(name: seq<byte>, gen: nat, id: nat): seq<seq<byte>> {
    ["\"type\":\"" + name + "\"", "\"gen\":" + Printed(gen), "\"id\":" + Printed(id)]
  }

  lemma HeadIsTyped(c: Call)
    ensures var h, t := HeadFields(c), HeadTyped(KindName(c.kind), c.gen, c.id);
      |h| == 3 == |t| && forall i :: 0 <= i < 3 ==> WrittenMember(MemberOf(h[i])) == t[i]
  {
    hide Printed, KindName, WrittenMember, MemberOf, NumberValue, NameValue, TagName;
    MemberTyped(Field(Type, NameValue(KindName(c.kind))));
    NameTyped(KindName(c.kind));
    NumberTyped(Gen, c.gen);
    NumberTyped(Id, c.id);
    PlainTags();
    TypeTyped(KindName(c.kind));
  }

  lemma TypeTyped(name: seq<byte>)
    ensures "\"" + TagName(Type) + "\":" + ("\"" + name + "\"") == "\"type\":\"" + name + "\""
  {
  }

  lemma PlainTags()
    ensures "\"" + TagName(Gen) + "\":" == "\"gen\":" && "\"" + TagName(Id) + "\":" == "\"id\":"
    ensures "\"" + TagName(Grace) + "\":" == "\"graceMs\":"
  {
  }

  /** A launch, a sweep and a ping have their head only. */
  lemma PlainIsSpelled(kind: RequestType, gen: nat, id: nat)
    requires kind != End && kind != Cleanup && gen <= MAX_JSON_INT && id <= MAX_JSON_INT
    ensures var name := if kind == Launch then "launch" else if kind == Sweep then "sweep" else "ping";
      var line := ObjectTyped(HeadTyped(name, gen, id));
      && line == Line(Call(kind, gen, id, None, [], None, None, None))
      && (|line| <= MAX_LINE ==> Parse(line) == Ok(Request(kind, gen, id, 0, 0, [], [], [])))
  {
    hide Parse, Object, ObjectTyped, HeadTyped, HeadFields, WrittenMember, MemberOf;
    var c := Call(kind, gen, id, None, [], None, None, None);
    HeadIsTyped(c);
    assert Fields(c) == HeadFields(c);
    ObjectIsTyped(Fields(c), HeadTyped(KindName(kind), gen, id));
    LinesAreJudgedExactly(c);
  }

  lemma EndFields(c: Call)
    requires c.kind == End && c.graceMs.Some? && Bare(c)
    ensures Fields(c) == HeadFields(c) + [Field(Grace, NumberValue(c.graceMs.value))]
  {
    hide HeadFields, NumberValue;
  }

  /** An end has its grace, in the member of that name. */
  lemma EndIsSpelled(gen: nat, id: nat, graceMs: nat)
    requires gen <= MAX_JSON_INT && id <= MAX_JSON_INT && graceMs <= MAX_JSON_INT
    ensures var line := ObjectTyped(HeadTyped("end", gen, id) + ["\"graceMs\":" + Printed(graceMs)]);
      && line == Line(Call(End, gen, id, Some(graceMs), [], None, None, None))
      && (|line| <= MAX_LINE ==> Parse(line) == Ok(Request(End, gen, id, graceMs, 0, [], [], [])))
  {
    hide Parse, Object, ObjectTyped, HeadTyped, HeadFields, WrittenMember, MemberOf, NumberValue, Printed, TagName;
    var c := Call(End, gen, id, Some(graceMs), [], None, None, None);
    HeadIsTyped(c);
    NumberTyped(Grace, graceMs);
    PlainTags();
    EndFields(c);
    ObjectIsTyped(Fields(c), HeadTyped("end", gen, id) + ["\"graceMs\":" + Printed(graceMs)]);
    LinesAreJudgedExactly(c);
  }

  /** What a cleanup has besides its head. */
  function CleanupTyped(commands: seq<seq<seq<scalar>>>, timeoutMs: nat, provider: seq<scalar>, lease: seq<scalar>)
    : seq<seq<byte>>
  {
    ["\"commands\":" + CommandsTyped(commands), "\"timeoutMs\":" + Printed(timeoutMs),
     "\"prevProvider\":" + TextTyped(provider), "\"prevLeaseId\":" + TextTyped(lease)]
  }

  lemma CleanupMembers(c: Call)
    requires c.kind == Cleanup && c.timeoutMs.Some? && c.prevProvider.Some? && c.prevLease.Some?
    ensures var o := OtherFields(c);
      var t := CleanupTyped(c.commands, c.timeoutMs.value, c.prevProvider.value, c.prevLease.value);
      |o| == 4 == |t| && forall i :: 0 <= i < 4 ==> WrittenMember(MemberOf(o[i])) == t[i]
  {
    hide Printed, WrittenMember, MemberOf, NumberValue, TextValue, CommandsValue, CommandsTyped, TextTyped, WrittenValue,
      TagName;
    var provider, lease := c.prevProvider.value, c.prevLease.value;
    MemberTyped(Field(Commands, CommandsValue(c.commands)));
    CommandsAreTyped(c.commands);
    NumberTyped(Timeout, c.timeoutMs.value);
    MemberTyped(Field(PrevProvider, TextValue(provider)));
    TextIsTyped(provider);
    MemberTyped(Field(PrevLease, TextValue(lease)));
    TextIsTyped(lease);
    CleanupTags();
  }

  lemma CleanupTags()
    ensures "\"" + TagName(Commands) + "\":" == "\"commands\":" && "\"" + TagName(Timeout) + "\":" == "\"timeoutMs\":"
    ensures "\"" + TagName(PrevProvider) + "\":" == "\"prevProvider\":"
    ensures "\"" + TagName(PrevLease) + "\":" == "\"prevLeaseId\":"
  {
  }

  /** A cleanup within its limits has its four members, each in the member of its name. */
  lemma CleanupIsSpelled(gen: nat, id: nat, commands: seq<seq<seq<scalar>>>, timeoutMs: nat, provider: seq<scalar>,
      lease: seq<scalar>)
    requires gen <= MAX_JSON_INT && id <= MAX_JSON_INT
    ensures var line := ObjectTyped(HeadTyped("cleanup", gen, id) + CleanupTyped(commands, timeoutMs, provider, lease));
      var c := Call(Cleanup, gen, id, None, commands, Some(timeoutMs), Some(provider), Some(lease));
      && line == Line(c)
      && (|line| <= MAX_LINE && Sendable(c) ==>
            Parse(line) == Ok(Request(Cleanup, gen, id, 0, timeoutMs, EncodedCommands(commands), EncodeAll(provider),
                                      EncodeAll(lease))))
  {
    hide Parse, Object, ObjectTyped, HeadTyped, HeadFields, OtherFields, WrittenMember, MemberOf, CleanupTyped, Sendable,
      EncodedCommands, EncodeAll;
    var c := Call(Cleanup, gen, id, None, commands, Some(timeoutMs), Some(provider), Some(lease));
    HeadIsTyped(c);
    CleanupMembers(c);
    ObjectIsTyped(Fields(c), HeadTyped("cleanup", gen, id) + CleanupTyped(commands, timeoutMs, provider, lease));
    LinesAreJudgedExactly(c);
  }
}
