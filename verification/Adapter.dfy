/** The line the adapter writes for a request, and what the supervisor makes of it. */
module Adapter {
  import opened Base
  import opened Messages
  import opened Unicode
  import opened LineReader
  import opened Grammar
  import opened Recognizer
  import opened Acceptance
  import opened Escaping
  import opened Numbers
  import opened GoJson

  /** A request as the adapter holds it. Absent members are not written, but a cleanup writes them all. */
  datatype Call = Call(
    kind: RequestType,
    gen: nat,
    id: nat,
    graceMs: Option<nat>,
    commands: seq<seq<seq<scalar>>>,
    timeoutMs: Option<nat>,
    prevProvider: Option<seq<scalar>>,
    prevLease: Option<seq<scalar>>)

  function KindName(kind: RequestType): seq<byte> {
    match kind
    case Launch => "launch"
    case End => "end"
    case Sweep => "sweep"
    case Cleanup => "cleanup"
    case Ping => "ping"
  }

  function Or<T>(o: Option<T>, otherwise: T): T {
    if o.Some? then o.value else otherwise
  }

  function IfSome(k: Key, v: Option<Value>): seq<Field> {
    if v.Some? then [Field(k, v.value)] else []
  }

  function Numeric(n: Option<nat>): Option<Value> {
    if n.Some? then Some(NumberValue(n.value)) else None
  }

  function Textual(us: Option<seq<scalar>>): Option<Value> {
    if us.Some? then Some(TextValue(us.value)) else None
  }

  function HeadFields(c: Call): seq<Field> {
    [Field(Type, NameValue(KindName(c.kind))), Field(Gen, NumberValue(c.gen)), Field(Id, NumberValue(c.id))]
  }

  function OtherFields(c: Call): seq<Field> {
    if c.kind == Cleanup then
      [Field(Commands, CommandsValue(c.commands)), Field(Timeout, NumberValue(Or(c.timeoutMs, 0))),
       Field(PrevProvider, TextValue(Or(c.prevProvider, []))), Field(PrevLease, TextValue(Or(c.prevLease, [])))]
    else
      IfSome(Grace, Numeric(c.graceMs))
      + (IfSome(Commands, if c.commands == [] then None else Some(CommandsValue(c.commands)))
         + (IfSome(Timeout, Numeric(c.timeoutMs))
            + (IfSome(PrevProvider, Textual(c.prevProvider)) + IfSome(PrevLease, Textual(c.prevLease)))))
  }

  function Fields(c: Call): seq<Field> {
    HeadFields(c) + OtherFields(c)
  }

  /** The line without its terminator. */
  function Line(c: Call): seq<byte> {
    Object(Fields(c))
  }

  // ------------------------------------------------------------------ which of them are requests

  /** No member but the head and the grace is written. */
  predicate Bare(c: Call) {
    c.commands == [] && c.timeoutMs.None? && c.prevProvider.None? && c.prevLease.None?
  }

  predicate TextFits(us: seq<scalar>) {
    0 !in us && |EncodeAll(us)| <= 4096
  }

  function CountAll(commands: seq<seq<seq<scalar>>>): nat {
    if commands == [] then 0 else |commands[0]| + CountAll(commands[1..])
  }

  /** At most 64 commands of 256 arguments of 4096 bytes, and 1024 arguments in all; no command is without a name. */
  predicate CommandsAllowed(commands: seq<seq<seq<scalar>>>) {
    && |commands| <= 64 && CountAll(commands) <= 1024
    && forall i :: 0 <= i < |commands| ==>
         && 1 <= |commands[i]| <= 256 && commands[i][0] != []
         && forall j :: 0 <= j < |commands[i]| ==> TextFits(commands[i][j])
  }

  /** The requests the supervisor serves: the members their type needs, each within its limits. */
  predicate Sendable(c: Call) {
    match c.kind
    case Cleanup =>
      && Or(c.timeoutMs, 0) <= 9007199254740991 && TextFits(Or(c.prevProvider, [])) && TextFits(Or(c.prevLease, []))
      && CommandsAllowed(c.commands)
    case End => c.graceMs.Some? && c.graceMs.value <= 9007199254740991 && Bare(c)
    case _ => c.graceMs.None? && Bare(c)
  }

  /** The same request as the supervisor holds it. */
  function RequestOf(c: Call): Request {
    if c.kind == Cleanup then
      Request(c.kind, c.gen, c.id, 0, Or(c.timeoutMs, 0), EncodedCommands(c.commands),
              EncodeAll(Or(c.prevProvider, [])), EncodeAll(Or(c.prevLease, [])))
    else
      Request(c.kind, c.gen, c.id, if c.kind == End then Or(c.graceMs, 0) else 0, 0, [], [], [])
  }

  // ------------------------------------------------------------------ the fields

  lemma NumberField(k: Key, n: nat)
    requires ShapeOf(k) == Number
    ensures Shaped(NumberValue(n), ShapeOf(k)) && (Good(Field(k, NumberValue(n))) <==> n <= MAX_JSON_INT)
  {
    NumberValueRead(n);
  }

  lemma TextField(k: Key, us: seq<scalar>)
    requires k == PrevProvider || k == PrevLease
    ensures Shaped(TextValue(us), ShapeOf(k)) && (Good(Field(k, TextValue(us))) <==> TextFits(us))
  {
    hide TextValue, EncodeAll, Decoded;
    TextValueRead(us);
  }

  lemma CommandsField(commands: seq<seq<seq<scalar>>>)
    ensures Shaped(CommandsValue(commands), ShapeOf(Commands))
    ensures Good(Field(Commands, CommandsValue(commands))) <==> CommandsAllowed(commands)
  {
    hide CommandsValue, EncodedCommands, CommandLists, CommandsFit, NoNulInAny, CommandsAllowed;
    CommandsValueRead(commands);
    AllowedExactly(commands);
  }

  lemma {:induction false} CountEncoded(commands: seq<seq<seq<scalar>>>)
    ensures Total(EncodedCommands(commands)) == CountAll(commands)
    decreases |commands|
  {
    hide EncodedArgv;
    if commands != [] {
      CountEncoded(commands[1..]);
      assert EncodedCommands(commands)[1..] == EncodedCommands(commands[1..]);
      EncodedSize(commands[0]);
    }
  }

  lemma EncodedSize(argv: seq<seq<scalar>>)
    ensures |EncodedArgv(argv)| == |argv| && forall j :: 0 <= j < |argv| ==> EncodedArgv(argv)[j] == EncodeAll(argv[j])
    ensures forall j :: 0 <= j < |argv| ==> (EncodeAll(argv[j]) == [] <==> argv[j] == [])
  {
  }

  lemma ArgvAllowed(argv: seq<seq<scalar>>)
    ensures NoNulIn(argv) && ArgvFits(EncodedArgv(argv)) <==>
      1 <= |argv| <= 256 && argv[0] != [] && forall j :: 0 <= j < |argv| ==> TextFits(argv[j])
  {
    hide EncodedArgv, EncodeAll;
    EncodedSize(argv);
  }

  /** The limits of the grammar on commands, in terms of what the adapter holds. */
  lemma AllowedExactly(commands: seq<seq<seq<scalar>>>)
    ensures NoNulInAny(commands) && CommandsFit(EncodedCommands(commands)) <==> CommandsAllowed(commands)
  {
    hide EncodedArgv, NoNulIn, ArgvFits, TextFits;
    CountEncoded(commands);
    forall i | 0 <= i < |commands|
      ensures EncodedCommands(commands)[i] == EncodedArgv(commands[i])
      ensures NoNulIn(commands[i]) && ArgvFits(EncodedArgv(commands[i])) <==>
        1 <= |commands[i]| <= 256 && commands[i][0] != [] && forall j :: 0 <= j < |commands[i]| ==> TextFits(commands[i][j])
    {
      ArgvAllowed(commands[i]);
    }
  }

  lemma TypeField(kind: RequestType)
    ensures Shaped(NameValue(KindName(kind)), Text) && Good(Field(Type, NameValue(KindName(kind))))
    ensures KindOf(Decoded(NameValue(KindName(kind)).text)) == Some(kind)
  {
    hide NameValue, Decoded;
    NameRead(KindName(kind));
    NameShaped(KindName(kind));
  }

  lemma NameShaped(name: seq<byte>)
    requires ValueOk(NameValue(name), Text)
    ensures Shaped(NameValue(name), Text)
  {
  }

  function Rank(k: Key): nat {
    match k
    case Type => 0
    case Gen => 1
    case Id => 2
    case Grace => 3
    case Commands => 4
    case Timeout => 5
    case PrevProvider => 6
    case PrevLease => 7
  }

  /** Fields in the order of their keys, from low up to but not including high. */
  ghost predicate InOrder(fs: seq<Field>, low: nat, high: nat) {
    && (forall i :: 0 <= i < |fs| ==> Shaped(fs[i].value, ShapeOf(fs[i].key)) && low <= Rank(fs[i].key) < high)
    && (forall i, j :: 0 <= i < j < |fs| ==> Rank(fs[i].key) < Rank(fs[j].key))
  }

  lemma OrderJoins(a: seq<Field>, b: seq<Field>, low: nat, middle: nat, high: nat)
    requires low <= middle <= high && InOrder(a, low, middle) && InOrder(b, middle, high)
    ensures InOrder(a + b, low, high)
  {
    hide Shaped;
  }

  lemma OrderedOne(k: Key, v: Option<Value>)
    requires v.Some? ==> Shaped(v.value, ShapeOf(k))
    ensures InOrder(IfSome(k, v), Rank(k), Rank(k) + 1)
  {
    hide Shaped;
  }

  lemma HeadOrdered(c: Call)
    ensures InOrder(HeadFields(c), 0, 3)
  {
    hide Shaped, NameValue, NumberValue;
    TypeField(c.kind);
    NumberField(Gen, c.gen);
    NumberField(Id, c.id);
  }

  lemma OthersOrdered(c: Call)
    ensures InOrder(OtherFields(c), 3, 8)
  {
    hide Shaped, NumberValue, TextValue, CommandsValue, InOrder, IfSome;
    if c.kind == Cleanup {
      CleanupOrdered(c);
    } else {
      OptionOrdered(Grace, c.graceMs);
      OptionOrdered(Timeout, c.timeoutMs);
      TextOrdered(PrevProvider, c.prevProvider);
      TextOrdered(PrevLease, c.prevLease);
      CommandsField(c.commands);
      var commands := if c.commands == [] then None else Some(CommandsValue(c.commands));
      OrderedOne(Commands, commands);
      var lease, provider, timeout := IfSome(PrevLease, Textual(c.prevLease)), IfSome(PrevProvider, Textual(c.prevProvider)),
        IfSome(Timeout, Numeric(c.timeoutMs));
      OrderJoins(provider, lease, 6, 7, 8);
      OrderJoins(timeout, provider + lease, 5, 6, 8);
      OrderJoins(IfSome(Commands, commands), timeout + (provider + lease), 4, 5, 8);
      OrderJoins(IfSome(Grace, Numeric(c.graceMs)), IfSome(Commands, commands) + (timeout + (provider + lease)), 3, 4, 8);
    }
  }

  lemma OptionOrdered(k: Key, n: Option<nat>)
    requires ShapeOf(k) == Number
    ensures InOrder(IfSome(k, Numeric(n)), Rank(k), Rank(k) + 1)
  {
    hide InOrder, Shaped, NumberValue;
    if n.Some? {
      NumberField(k, n.value);
    }
    OrderedOne(k, Numeric(n));
  }

  lemma TextOrdered(k: Key, us: Option<seq<scalar>>)
    requires k == PrevProvider || k == PrevLease
    ensures InOrder(IfSome(k, Textual(us)), Rank(k), Rank(k) + 1)
  {
    hide InOrder, Shaped, TextValue;
    if us.Some? {
      TextField(k, us.value);
    }
    OrderedOne(k, Textual(us));
  }

  lemma CleanupOrdered(c: Call)
    requires c.kind == Cleanup
    ensures InOrder(OtherFields(c), 3, 8)
  {
    hide Shaped, NumberValue, TextValue, CommandsValue;
    CommandsField(c.commands);
    NumberField(Timeout, Or(c.timeoutMs, 0));
    TextField(PrevProvider, Or(c.prevProvider, []));
    TextField(PrevLease, Or(c.prevLease, []));
  }

  lemma FieldsAreShaped(c: Call)
    ensures FieldsShaped(Fields(c))
  {
    hide Shaped, HeadFields, OtherFields;
    HeadOrdered(c);
    OthersOrdered(c);
    OrderJoins(HeadFields(c), OtherFields(c), 0, 3, 8);
  }

  // ------------------------------------------------------------------ the verdict

  lemma {:induction false} FirstBad(fs: seq<Field>) returns (j: nat)
    requires !AllGood(fs)
    ensures j < |fs| && !Good(fs[j]) && AllGood(fs[..j])
    decreases |fs|
  {
    hide Good;
    var n := |fs| - 1;
    if AllGood(fs[..n]) {
      j := n;
    } else {
      j := FirstBad(fs[..n]);
      assert fs[..n][..j] == fs[..j];
    }
  }

  lemma HeadGood(c: Call)
    ensures |Fields(c)| >= 3 && Fields(c)[..3] == HeadFields(c)
    ensures Good(Fields(c)[0]) && (Good(Fields(c)[1]) <==> c.gen <= MAX_JSON_INT)
    ensures Good(Fields(c)[2]) <==> c.id <= MAX_JSON_INT
  {
    hide Good, NameValue, NumberValue, OtherFields;
    TypeField(c.kind);
    NumberField(Gen, c.gen);
    NumberField(Id, c.id);
  }

  /** The head the supervisor takes from a table that holds the fields of the call up to j. */
  lemma HeadTaken(c: Call, j: nat)
    requires 3 <= j <= |Fields(c)| && FieldsShaped(Fields(c)[..j]) && AllGood(Fields(c)[..j])
    ensures var t := TableOf(Fields(c)[..j]);
      && HEAD <= t.Keys && HeadIn(t) == (c.kind, c.gen, c.id)
  {
    hide FieldsShaped, AllGood, NameValue, NumberValue, OtherFields, Decoded, KindOf, Decimal;
    var fs := Fields(c)[..j];
    HeadGood(c);
    assert fs[0] == HeadFields(c)[0] && fs[1] == HeadFields(c)[1] && fs[2] == HeadFields(c)[2];
    var t := TableOf(fs);
    assert fs[0] in fs && fs[1] in fs && fs[2] in fs;
    assert t[Type] == fs[0].value && t[Gen] == fs[1].value && t[Id] == fs[2].value;
    TypeField(c.kind);
    NumberValueRead(c.gen);
    NumberValueRead(c.id);
  }

  lemma GoodJoins(a: seq<Field>, b: seq<Field>)
    ensures AllGood(a + b) <==> AllGood(a) && AllGood(b)
  {
    hide Good;
    assert forall i :: 0 <= i < |a| ==> (a + b)[i] == a[i];
    assert forall i :: 0 <= i < |b| ==> (a + b)[|a| + i] == b[i];
  }

  lemma CleanupSendable(c: Call)
    requires c.kind == Cleanup && c.gen <= MAX_JSON_INT && c.id <= MAX_JSON_INT
    ensures AllGood(Fields(c)) <==> Sendable(c)
    ensures KeysOf(Fields(c)) == Required(Cleanup)
  {
    hide Good, NumberValue, TextValue, CommandsValue, TextFits, CommandsFit, EncodedCommands, NoNulInAny,
      HeadFields, KeysOf;
    HeadAllGood(c);
    GoodJoins(HeadFields(c), OtherFields(c));
    CommandsField(c.commands);
    NumberField(Timeout, Or(c.timeoutMs, 0));
    TextField(PrevProvider, Or(c.prevProvider, []));
    TextField(PrevLease, Or(c.prevLease, []));
    GoodFour(OtherFields(c));
    CleanupKeys(c);
  }

  lemma GoodFour(fs: seq<Field>)
    requires |fs| == 4
    ensures AllGood(fs) <==> Good(fs[0]) && Good(fs[1]) && Good(fs[2]) && Good(fs[3])
  {
    hide Good;
  }

  lemma HeadAllGood(c: Call)
    requires c.gen <= MAX_JSON_INT && c.id <= MAX_JSON_INT
    ensures AllGood(HeadFields(c))
  {
    hide Good, NameValue, NumberValue;
    TypeField(c.kind);
    NumberField(Gen, c.gen);
    NumberField(Id, c.id);
  }

  lemma CleanupKeys(c: Call)
    requires c.kind == Cleanup
    ensures KeysOf(Fields(c)) == Required(Cleanup)
  {
    hide NameValue, NumberValue, TextValue, CommandsValue, KeysOf, HeadFields;
    var o := OtherFields(c);
    KeysJoin(HeadFields(c), o);
    HeadKeys(c);
    assert o == [o[0], o[1]] + [o[2], o[3]];
    KeysJoin([o[0], o[1]], [o[2], o[3]]);
    KeysOfTwo(o[0], o[1]);
    KeysOfTwo(o[2], o[3]);
  }

  lemma KeysOfTwo(f: Field, g: Field)
    ensures KeysOf([f, g]) == {f.key, g.key}
  {
    assert f in [f, g] && g in [f, g];
  }

  function Present(k: Key, there: bool): set<Key> {
    if there then {k} else {}
  }

  lemma PlainKeysAre(c: Call)
    requires c.kind != Cleanup
    ensures KeysOf(Fields(c)) ==
      HEAD + Present(Grace, c.graceMs.Some?) + Present(Commands, c.commands != []) + Present(Timeout, c.timeoutMs.Some?)
      + Present(PrevProvider, c.prevProvider.Some?) + Present(PrevLease, c.prevLease.Some?)
  {
    hide NumberValue, TextValue, CommandsValue, KeysOf, IfSome, HeadFields;
    var commands := if c.commands == [] then None else Some(CommandsValue(c.commands));
    InJoined(HeadFields(c), IfSome(Grace, Numeric(c.graceMs)), IfSome(Commands, commands),
             IfSome(Timeout, Numeric(c.timeoutMs)), IfSome(PrevProvider, Textual(c.prevProvider)),
             IfSome(PrevLease, Textual(c.prevLease)));
    OneKey(Grace, Numeric(c.graceMs));
    OneKey(Commands, commands);
    OneKey(Timeout, Numeric(c.timeoutMs));
    OneKey(PrevProvider, Textual(c.prevProvider));
    OneKey(PrevLease, Textual(c.prevLease));
    HeadKeys(c);
  }

  /** Only the members written are among the keys. */
  lemma PlainKeys(c: Call)
    requires c.kind != Cleanup
    ensures HEAD <= KeysOf(Fields(c)) && (Grace in KeysOf(Fields(c)) <==> c.graceMs.Some?)
    ensures KeysOf(Fields(c)) <= HEAD + {Grace} <==> Bare(c)
  {
    hide Fields, KeysOf;
    PlainKeysAre(c);
  }

  lemma OneKey(k: Key, v: Option<Value>)
    ensures KeysOf(IfSome(k, v)) == Present(k, v.Some?)
  {
    if v.Some? {
      assert IfSome(k, v)[0] in IfSome(k, v);
    }
  }

  lemma HeadKeys(c: Call)
    ensures KeysOf(HeadFields(c)) == HEAD
  {
    hide NameValue, NumberValue;
    var h := HeadFields(c);
    assert h[0] in h && h[1] in h && h[2] in h;
  }

  lemma KeysJoin(a: seq<Field>, b: seq<Field>)
    ensures KeysOf(a + b) == KeysOf(a) + KeysOf(b)
  {
    forall f | f in a
      ensures f.key in KeysOf(a + b)
    {
      assert f in a + b;
    }
    forall f | f in b
      ensures f.key in KeysOf(a + b)
    {
      assert f in a + b;
    }
  }

  lemma InJoined(h: seq<Field>, g: seq<Field>, m: seq<Field>, t: seq<Field>, p: seq<Field>, l: seq<Field>)
    ensures KeysOf(h + (g + (m + (t + (p + l))))) == KeysOf(h) + KeysOf(g) + KeysOf(m) + KeysOf(t) + KeysOf(p) + KeysOf(l)
  {
    hide KeysOf;
    KeysJoin(p, l);
    KeysJoin(t, p + l);
    KeysJoin(m, t + (p + l));
    KeysJoin(g, m + (t + (p + l)));
    KeysJoin(h, g + (m + (t + (p + l))));
  }

  lemma PlainSendable(c: Call)
    requires c.kind != Cleanup && c.gen <= MAX_JSON_INT && c.id <= MAX_JSON_INT
    ensures AllGood(Fields(c)) && KeysOf(Fields(c)) == Required(c.kind) <==> Sendable(c)
  {
    hide Good, NameValue, NumberValue, TextValue, CommandsValue, KeysOf;
    PlainKeys(c);
    HeadGood(c);
    if Bare(c) {
      assert OtherFields(c) == IfSome(Grace, Numeric(c.graceMs));
      if c.graceMs.Some? {
        NumberField(Grace, c.graceMs.value);
        assert Fields(c)[3] == Field(Grace, NumberValue(c.graceMs.value));
      }
    }
  }

  /** A table with this head and no member but the grace stands for the call. */
  lemma MeaningOfPlain(c: Call, t: map<Key, Value>)
    requires c.kind != Cleanup && TableOk(t) && t.Keys == Required(c.kind) && HeadIn(t) == (c.kind, c.gen, c.id)
    requires c.kind == End ==> NumberIn(t, Grace) == Or(c.graceMs, 0)
    ensures Meaning(t) == RequestOf(c)
  {
    hide TableOk, KindIn, Decimal;
  }

  lemma PlainMeaning(c: Call)
    requires c.kind != Cleanup && Sendable(c) && FieldsShaped(Fields(c)) && AllGood(Fields(c))
    requires KeysOf(Fields(c)) == Required(c.kind) && HeadIn(TableOf(Fields(c))) == (c.kind, c.gen, c.id)
    ensures Meaning(TableOf(Fields(c))) == RequestOf(c)
  {
    hide FieldsShaped, AllGood, NumberValue, KindIn, TableOk, HeadFields, KeysOf, HeadIn, TableOf, Meaning, RequestOf;
    var t := TableOf(Fields(c));
    if c.kind == End {
      HeadSize(c);
      assert OtherFields(c) == [Field(Grace, NumberValue(c.graceMs.value))];
      assert Fields(c)[3] == Field(Grace, NumberValue(c.graceMs.value));
      NumberTaken(t, Grace, c.graceMs.value);
    }
    MeaningOfPlain(c, t);
  }

  lemma NumberTaken(t: map<Key, Value>, k: Key, n: nat)
    requires TableOk(t) && ShapeOf(k) == Number && k in t && t[k] == NumberValue(n)
    ensures NumberIn(t, k) == n
  {
    NumberValueRead(n);
  }

  lemma TextTaken(t: map<Key, Value>, k: Key, us: seq<scalar>)
    requires TableOk(t) && ShapeOf(k) == Text && k in t && t[k] == TextValue(us)
    ensures TextIn(t, k) == EncodeAll(us)
  {
    hide TextValue, EncodeAll, Decoded, Fits;
    assert ValueOk(t[k], Text);
    TextValueRead(us);
  }

  lemma CommandsTaken(t: map<Key, Value>, commands: seq<seq<seq<scalar>>>)
    requires TableOk(t) && Commands in t && t[Commands] == CommandsValue(commands)
    ensures ValueOk(t[Commands], ShapeOf(Commands)) && CommandLists(t[Commands]) == EncodedCommands(commands)
  {
    hide CommandsValue, EncodedCommands, CommandLists, Fits;
    CommandsValueRead(commands);
  }

  lemma CleanupTable(c: Call)
    requires c.kind == Cleanup && FieldsShaped(Fields(c)) && AllGood(Fields(c))
    requires KeysOf(Fields(c)) == Required(c.kind)
    ensures var t := TableOf(Fields(c));
      && t[Commands] == CommandsValue(c.commands) && t[Timeout] == NumberValue(Or(c.timeoutMs, 0))
      && t[PrevProvider] == TextValue(Or(c.prevProvider, [])) && t[PrevLease] == TextValue(Or(c.prevLease, []))
  {
    hide FieldsShaped, AllGood, NumberValue, TextValue, CommandsValue, TableOk, HeadFields, KeysOf, TableOf;
    HeadSize(c);
    var fs, o := Fields(c), OtherFields(c);
    assert fs[3] == o[0] && fs[4] == o[1] && fs[5] == o[2] && fs[6] == o[3];
  }

  lemma CleanupMeaning(c: Call)
    requires c.kind == Cleanup && FieldsShaped(Fields(c)) && AllGood(Fields(c))
    requires KeysOf(Fields(c)) == Required(c.kind) && HeadIn(TableOf(Fields(c))) == (c.kind, c.gen, c.id)
    ensures Meaning(TableOf(Fields(c))) == RequestOf(c)
  {
    hide FieldsShaped, AllGood, NumberValue, TextValue, CommandsValue, KindIn, TableOk, Fields, KeysOf, EncodeAll,
      EncodedCommands, CommandLists, TableOf, TextIn;
    var t := TableOf(Fields(c));
    CleanupTable(c);
    NumberTaken(t, Timeout, Or(c.timeoutMs, 0));
    TextTaken(t, PrevProvider, Or(c.prevProvider, []));
    TextTaken(t, PrevLease, Or(c.prevLease, []));
    CommandsTaken(t, c.commands);
  }

  lemma GoodJudged(c: Call)
    requires AllGood(Fields(c)) && FieldsShaped(Fields(c)) && |Line(c)| <= MAX_LINE
    requires c.gen <= MAX_JSON_INT && c.id <= MAX_JSON_INT
    ensures Parse(Line(c)) == if Sendable(c) then Ok(RequestOf(c)) else Malformed(c.kind, c.gen, c.id)
  {
    hide Parse, FieldsShaped, AllGood, Table, TableOk, MembersOk, OtherFields, HeadFields, KindIn, NumberIn,
      Meaning, Sendable,
      KeysOf, Required;
    var fs := Fields(c);
    assert fs[..|fs|] == fs;
    HeadGood(c);
    GoodMembers(fs);
    HeadTaken(c, |fs|);
    MembersJudged(Document([], MembersOf(fs), []));
    if c.kind == Cleanup {
      CleanupSendable(c);
      if Sendable(c) {
        CleanupMeaning(c);
      }
    } else {
      PlainSendable(c);
      if Sendable(c) {
        PlainMeaning(c);
      }
    }
  }

  lemma BadJudged(c: Call, j: nat)
    requires FieldsShaped(Fields(c)) && |Line(c)| <= MAX_LINE
    requires j < |Fields(c)| && !Good(Fields(c)[j]) && AllGood(Fields(c)[..j])
    ensures Parse(Line(c)) == if j < 3 then Unreadable else Malformed(c.kind, c.gen, c.id)
  {
    hide Parse, FieldsShaped, AllGood, ScanMembers, OtherFields, HeadFields, TableOk, KindIn, NumberIn, Good,
      TableOf, KeysOf;
    var fs := Fields(c);
    PrefixShaped(fs, j);
    HeadSize(c);
    ObjectOpens(fs);
    BadFieldScanned(fs, j);
    if j >= 3 {
      HeadTaken(c, j);
      OthersFollow(c, j);
    } else {
      HeadFirst(c, j);
    }
  }

  lemma HeadFirst(c: Call, j: nat)
    requires j < 3
    ensures |Fields(c)| >= 3 && Fields(c)[j].key in HEAD
  {
    hide OtherFields;
    assert Fields(c)[j] == HeadFields(c)[j];
  }

  lemma OthersFollow(c: Call, j: nat)
    requires 3 <= j < |Fields(c)|
    ensures Fields(c)[j].key !in HEAD
  {
    hide OtherFields, HeadFields, Shaped;
    OthersOrdered(c);
    HeadSize(c);
    assert Fields(c)[j] == OtherFields(c)[j - 3];
  }

  lemma HeadSize(c: Call)
    ensures |HeadFields(c)| == 3
  {
  }

  /**
   What the supervisor makes of every line the adapter can write: a request exactly when the call
   has the members its type needs within their limits, and then that very request; otherwise a
   malformed line it answers with the call's own head. It cannot read the line only when that is
   too long or its generation or identifier is beyond 2^53 - 1.
   */
  lemma LinesAreJudgedExactly(c: Call)
    ensures Parse(Line(c)) ==
      if |Line(c)| > 65536 || c.gen > 9007199254740991 || c.id > 9007199254740991 then Unreadable
      else if Sendable(c) then Ok(RequestOf(c))
      else Malformed(c.kind, c.gen, c.id)
  {
    hide Parse, Object, FieldsShaped, OtherFields, HeadFields, Good, Sendable;
    FieldsAreShaped(c);
    HeadGood(c);
    if |Line(c)| > MAX_LINE {
      LongUnreadable(Line(c));
    } else if AllGood(Fields(c)) {
      GoodJudged(c);
    } else {
      var j := FirstBad(Fields(c));
      BadJudged(c, j);
      BadHead(c, j);
      if c.gen <= MAX_JSON_INT && c.id <= MAX_JSON_INT && Sendable(c) {
        SendableIsGood(c);
      }
    }
  }

  lemma BadHead(c: Call, j: nat)
    requires |Fields(c)| >= 3 && Good(Fields(c)[0]) && (Good(Fields(c)[1]) <==> c.gen <= MAX_JSON_INT)
    requires Good(Fields(c)[2]) <==> c.id <= MAX_JSON_INT
    requires j < |Fields(c)| && !Good(Fields(c)[j]) && AllGood(Fields(c)[..j])
    ensures j < 3 <==> c.gen > MAX_JSON_INT || c.id > MAX_JSON_INT
  {
    hide Good, OtherFields, HeadFields;
    if j >= 3 {
      assert Fields(c)[..j][1] == Fields(c)[1] && Fields(c)[..j][2] == Fields(c)[2];
    }
  }

  lemma SendableIsGood(c: Call)
    requires Sendable(c) && c.gen <= MAX_JSON_INT && c.id <= MAX_JSON_INT
    ensures AllGood(Fields(c))
  {
    hide Good, OtherFields, HeadFields, Sendable, KeysOf, Required, AllGood;
    if c.kind == Cleanup {
      CleanupSendable(c);
    } else {
      PlainSendable(c);
    }
  }

  // ------------------------------------------------------------------ one call, one line

  ghost predicate OneLine(fs: seq<Field>) {
    forall i :: 0 <= i < |fs| ==> NL !in WrittenValue(fs[i].value)
  }

  lemma OneLineJoins(a: seq<Field>, b: seq<Field>)
    requires OneLine(a) && OneLine(b)
    ensures OneLine(a + b)
  {
    hide WrittenValue;
  }

  lemma NumericOneLine(k: Key, n: Option<nat>)
    ensures OneLine(IfSome(k, Numeric(n)))
  {
    hide WrittenValue, NumberValue;
    if n.Some? {
      NumberOneLine(n.value);
    }
  }

  lemma TextualOneLine(k: Key, us: Option<seq<scalar>>)
    ensures OneLine(IfSome(k, Textual(us)))
  {
    hide WrittenValue, TextValue;
    if us.Some? {
      TextOneLine(us.value);
    }
  }

  lemma HeadOneLine(c: Call)
    ensures OneLine(HeadFields(c))
  {
    hide WrittenValue, NameValue, NumberValue;
    NumberOneLine(c.gen);
    NumberOneLine(c.id);
    NameOneLine(KindName(c.kind));
  }

  lemma OthersOneLine(c: Call)
    ensures OneLine(OtherFields(c))
  {
    hide WrittenValue, NumberValue, TextValue, CommandsValue, IfSome, OneLine;
    CommandsOneLine(c.commands);
    if c.kind == Cleanup {
      CleanupOneLine(c);
    } else {
      var commands := if c.commands == [] then None else Some(CommandsValue(c.commands));
      OneOneLine(Commands, commands);
      NumericOneLine(Grace, c.graceMs);
      NumericOneLine(Timeout, c.timeoutMs);
      TextualOneLine(PrevProvider, c.prevProvider);
      TextualOneLine(PrevLease, c.prevLease);
      var t, p, l := IfSome(Timeout, Numeric(c.timeoutMs)), IfSome(PrevProvider, Textual(c.prevProvider)),
        IfSome(PrevLease, Textual(c.prevLease));
      OneLineJoins(p, l);
      OneLineJoins(t, p + l);
      OneLineJoins(IfSome(Commands, commands), t + (p + l));
      OneLineJoins(IfSome(Grace, Numeric(c.graceMs)), IfSome(Commands, commands) + (t + (p + l)));
    }
  }

  lemma OneOneLine(k: Key, v: Option<Value>)
    requires v.Some? ==> NL !in WrittenValue(v.value)
    ensures OneLine(IfSome(k, v))
  {
    hide WrittenValue;
  }

  lemma CleanupOneLine(c: Call)
    requires c.kind == Cleanup && NL !in WrittenValue(CommandsValue(c.commands))
    ensures OneLine(OtherFields(c))
  {
    hide WrittenValue, NumberValue, TextValue, CommandsValue;
    NumberOneLine(Or(c.timeoutMs, 0));
    TextOneLine(Or(c.prevProvider, []));
    TextOneLine(Or(c.prevLease, []));
  }

  /** A call is one line, whatever its strings hold: the reader splits it off as it was written. */
  lemma CallIsOneLine(c: Call)
    ensures NL !in Line(c)
  {
    hide WrittenValue, HeadFields, OtherFields, Object;
    HeadOneLine(c);
    OthersOneLine(c);
    OneLineJoins(HeadFields(c), OtherFields(c));
    ObjectOneLine(Fields(c));
  }

  // ------------------------------------------------------------------ a call within every limit that cannot be read

  /** A command of so many arguments, each so many bytes long. */
  function LongCommand(arguments: nat, size: nat): seq<seq<scalar>> {
    seq(arguments, _ => seq(size, _ => 'a' as int))
  }

  function LongCleanup(): Call {
    Call(Cleanup, 0, 1, None, [LongCommand(17, MAX_ARG_BYTES)], Some(0), None, None)
  }

  lemma {:induction false} PlainSize(us: seq<scalar>)
    requires forall i :: 0 <= i < |us| ==> us[i] == 'a' as int
    ensures |EncodeAll(us)| == |us| && |Written(Pieces(us))| == |us| && 0 !in us
  {
    if us == [] {
      EmptyWritten();
    } else {
      PlainSize(us[1..]);
      RawWritten(Encode(us[0]));
      WrittenAppend(PiecesOf(us[0]), Pieces(us[1..]));
      assert us == [us[0]] + us[1..];
    }
  }

  lemma {:induction false} ListSize(vs: seq<Value>, size: nat)
    requires vs != [] && forall i :: 0 <= i < |vs| ==> |WrittenValue(vs[i])| >= size
    ensures |WrittenElements(Listed(vs))| >= |vs| * size
    decreases |vs|
  {
    hide WrittenValue;
    if |vs| > 1 {
      ListSize(vs[1..], size);
      assert |vs| * size == size + (|vs| - 1) * size;
    }
  }

  lemma LongArguments(arguments: nat, size: nat)
    requires arguments > 0
    ensures |WrittenValue(ArgvValue(LongCommand(arguments, size)))| >= arguments * size
    ensures |LongCommand(arguments, size)| == arguments && NoNulIn(LongCommand(arguments, size))
    ensures forall i :: 0 <= i < arguments ==> |EncodedArgv(LongCommand(arguments, size))[i]| == size
  {
    hide WrittenValue, Listed, WrittenElements, TextValue;
    var argv := LongCommand(arguments, size);
    var vs := seq(|argv|, i requires 0 <= i < |argv| => TextValue(argv[i]));
    forall i | 0 <= i < arguments
      ensures 0 !in argv[i] && |EncodeAll(argv[i])| == size && |WrittenValue(vs[i])| >= size
    {
      PlainSize(argv[i]);
      TextSize(argv[i]);
    }
    ListSize(vs, size);
    ListIsElements(vs);
  }

  lemma TextSize(us: seq<scalar>)
    ensures |WrittenValue(TextValue(us))| == |Written(Pieces(us))| + 2
  {
  }

  lemma ListIsElements(vs: seq<Value>)
    requires vs != []
    ensures |WrittenValue(ListValue(vs))| == |WrittenElements(Listed(vs))| + 2
  {
  }

  lemma {:induction false} MembersSize(ms: seq<Member>, j: nat)
    requires j < |ms|
    ensures |WrittenMembers(ms)| >= |WrittenMember(ms[j])|
    decreases |ms|
  {
    hide WrittenMember;
    if j > 0 {
      MembersSize(ms[1..], j - 1);
    }
  }

  /** Every limit on a cleanup's members can be met by a call whose line is still too long to be read. */
  lemma SendableButTooLong()
    ensures Sendable(LongCleanup()) && Parse(Line(LongCleanup())) == Unreadable
  {
    hide WrittenMembers, WrittenMember, WrittenValue, CommandsValue, LongCommand, ArgvValue, Parse, NoNulIn,
      EncodedArgv;
    var c := LongCleanup();
    var argv := LongCommand(17, MAX_ARG_BYTES);
    LongArguments(17, MAX_ARG_BYTES);
    LongFits(argv);
    var ms := MembersOf(Fields(c));
    FourthIsCommands(c);
    MembersSize(ms, 3);
    CommandsSize(argv);
    MemberSize(Fields(c)[3]);
    LinesAreJudgedExactly(c);
  }

  lemma LongFits(argv: seq<seq<scalar>>)
    requires |argv| == 17 && NoNulIn(argv) && forall i :: 0 <= i < 17 ==> |EncodedArgv(argv)[i]| == MAX_ARG_BYTES
    ensures CommandsAllowed([argv]) && TextFits([])
  {
    hide NoNulIn;
    var commands := EncodedCommands([argv]);
    assert commands == [EncodedArgv(argv)];
    assert Total(commands) == |commands[0]| + Total(commands[1..]);
    assert Total(commands[1..]) == 0;
    AllowedExactly([argv]);
  }

  lemma FourthIsCommands(c: Call)
    requires c.kind == Cleanup
    ensures |Fields(c)| == 7 && Fields(c)[3] == Field(Commands, CommandsValue(c.commands))
  {
    hide NumberValue, TextValue, CommandsValue, NameValue;
  }

  lemma CommandsSize(argv: seq<seq<scalar>>)
    ensures |WrittenValue(CommandsValue([argv]))| >= |WrittenValue(ArgvValue(argv))|
  {
    hide WrittenValue, ArgvValue;
    ListSize([ArgvValue(argv)], |WrittenValue(ArgvValue(argv))|);
    ListIsElements([ArgvValue(argv)]);
    assert seq(1, i requires 0 <= i < 1 => ArgvValue([argv][i])) == [ArgvValue(argv)];
  }

  lemma MemberSize(f: Field)
    ensures |WrittenMember(MemberOf(f))| >= |WrittenValue(f.value)|
  {
    hide WrittenValue;
  }
}
