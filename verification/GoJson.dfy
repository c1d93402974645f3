/**
 Objects as Go's encoding/json writes them, with HTML escaping off and valid UTF-8 in the strings,
 and how the supervisor's reader takes them.
 */
module GoJson {
  import opened Base
  import opened Unicode
  import opened LineReader
  import opened Grammar
  import opened Tables
  import opened Recognizer
  import opened Acceptance
  import opened Escaping
  import opened Numbers

  // ------------------------------------------------------------------ strings

  function PiecesOf(u: scalar): seq<Piece> {
    if u == '"' as int || u == '\\' as int then [Short(Byte(u))]
    else if u == 8 then [Short('b')]
    else if u == 9 then [Short('t')]
    else if u == 10 then [Short('n')]
    else if u == 12 then [Short('f')]
    else if u == 13 then [Short('r')]
    else if u < 0x20 || u == 0x2028 || u == 0x2029 then [Unit(HexOf(u))]
    else RawPieces(Encode(u))
  }

  function Pieces(us: seq<scalar>): seq<Piece> {
    if us == [] then [] else PiecesOf(us[0]) + Pieces(us[1..])
  }

  lemma PiecesSpell(u: scalar)
    requires u != 0
    ensures SpellsOne(PiecesOf(u), u)
  {
    if u == 9 || u == 10 || u == 13 || u == 8 || u == 12 || u == '"' as int || u == '\\' as int {
    } else if u < 0x20 || u == 0x2028 || u == 0x2029 {
    } else {
      EncodedIsRaw(u);
    }
  }

  /** A byte that stands for itself in a string literal. */
  predicate Plain(c: byte) {
    c as int >= 0x20 && c != '"' && c != '\\'
  }

  lemma EncodedIsRaw(u: scalar)
    requires u >= 0x20 && u != '"' as int && u != '\\' as int
    ensures TextOk(RawPieces(Encode(u))) && forall i :: 0 <= i < |Encode(u)| ==> Plain(Encode(u)[i])
  {
  }

  lemma {:induction false} PiecesDecode(us: seq<scalar>)
    requires 0 !in us
    ensures TextOk(Pieces(us)) && Decoded(Pieces(us)) == EncodeAll(us)
  {
    hide PiecesOf, SpellsOne, Encode;
    if us == [] {
      EmptyDecoded();
    } else {
      PiecesSpell(us[0]);
      SpelledOk(PiecesOf(us[0]), us[0]);
      OneDecoded(PiecesOf(us[0]), us[0]);
      PiecesDecode(us[1..]);
      DecodedAppend(PiecesOf(us[0]), Pieces(us[1..]));
    }
  }

  /** The rest of a literal that no reader accepts. */
  ghost predicate NotRead(text: seq<Piece>) {
    forall more: seq<byte> :: ReadText(Written(text) + more).Fail?
  }

  lemma {:induction false} WrittenAppend(a: seq<Piece>, b: seq<Piece>)
    ensures Written(a + b) == Written(a) + Written(b)
  {
    hide WrittenPiece;
    if a == [] {
      assert a + b == b;
    } else {
      assert (a + b)[0] == a[0] && (a + b)[1..] == a[1..] + b;
      WrittenAppend(a[1..], b);
    }
  }

  lemma {:induction false} PiecesAppend(a: seq<scalar>, b: seq<scalar>)
    ensures Pieces(a + b) == Pieces(a) + Pieces(b)
  {
    hide PiecesOf;
    if a == [] {
      assert a + b == b;
    } else {
      assert (a + b)[0] == a[0] && (a + b)[1..] == a[1..] + b;
      PiecesAppend(a[1..], b);
    }
  }

  lemma {:induction false} FirstNul(us: seq<scalar>) returns (i: nat)
    requires 0 in us
    ensures i < |us| && us[i] == 0 && 0 !in us[..i]
  {
    if us[0] == 0 {
      i := 0;
    } else {
      i := FirstNul(us[1..]);
      assert us[..i + 1] == [us[0]] + us[1..][..i];
      i := i + 1;
    }
  }

  lemma NulSplit(us: seq<scalar>, i: nat)
    requires i < |us| && us[i] == 0
    ensures Pieces(us) == Pieces(us[..i]) + ([Unit(HexOf(0))] + Pieces(us[i + 1..]))
  {
    hide Pieces, HexOf, PiecesOf;
    var rest := us[i + 1..];
    assert us == us[..i] + ([0] + rest);
    PiecesAppend(us[..i], [0] + rest);
    PiecesAppend([0], rest);
    NulPieces();
  }

  lemma NulWritten(before: seq<Piece>, h: Hex, after: seq<Piece>, more: seq<byte>)
    ensures Written(before + ([Unit(h)] + after)) + more == Written(before) + (WrittenHex(h) + (Written(after) + more))
  {
    hide Written, WrittenHex;
    WrittenAppend(before, [Unit(h)] + after);
    WrittenAppend([Unit(h)], after);
    OneWritten(Unit(h));
  }

  /** A NUL is written as an escape the supervisor refuses. */
  lemma NulUnreadable(us: seq<scalar>)
    requires 0 in us
    ensures NotRead(Pieces(us)) && !TextOk(Pieces(us))
  {
    hide Pieces, Written, ReadText, HexOf;
    var i := FirstNul(us);
    var before, after, nul := Pieces(us[..i]), Pieces(us[i + 1..]), HexOf(0);
    NulSplit(us, i);
    PiecesDecode(us[..i]);
    assert Pieces(us)[|before|] == Unit(nul);
    forall more: seq<byte>
      ensures ReadText(Written(Pieces(us)) + more).Fail?
    {
      NulWritten(before, nul, after, more);
      LoneSurrogateRejected(before, nul, Written(after) + more);
    }
  }

  lemma NulPieces()
    ensures Pieces([0]) == [Unit(HexOf(0))]
  {
    assert Pieces([]) == [];
  }

  lemma OneWritten(p: Piece)
    ensures Written([p]) == WrittenPiece(p)
  {
    assert Written([]) == [];
  }

  // ------------------------------------------------------------------ values

  function TextValue(us: seq<scalar>): Value {
    Str([], Pieces(us))
  }

  function NumberValue(n: nat): Value {
    Num([], Printed(n))
  }

  function ListValue(vs: seq<Value>): Value {
    if vs == [] then Nothing([], []) else List([], Listed(vs))
  }

  function Listed(vs: seq<Value>): Elements
    requires vs != []
  {
    if |vs| == 1 then Last(vs[0], []) else More(vs[0], [], Listed(vs[1..]))
  }

  function ArgvValue(argv: seq<seq<scalar>>): Value {
    ListValue(seq(|argv|, i requires 0 <= i < |argv| => TextValue(argv[i])))
  }

  function CommandsValue(commands: seq<seq<seq<scalar>>>): Value {
    ListValue(seq(|commands|, i requires 0 <= i < |commands| => ArgvValue(commands[i])))
  }

  /** A value of the right shape, in which only a string literal can be wrong. */
  ghost predicate Shaped(v: Value, shape: Shape) {
    Spaces(v.ws) &&
    match v
    case Str(_, text) => shape.Text? && (TextOk(text) || NotRead(text))
    case Num(_, digits) => shape.Number? && DigitsOk(digits)
    case Nothing(_, inner) => shape.ListOf? && Spaces(inner)
    case List(_, elements) => shape.ListOf? && ElementsShaped(elements, shape.of)
  }

  ghost predicate ElementsShaped(es: Elements, shape: Shape) {
    Spaces(es.after) && Shaped(es.value, shape) && (es.More? ==> ElementsShaped(es.rest, shape))
  }

  lemma TextFails(v: Value, more: seq<byte>)
    requires v.Str? && Spaces(v.ws) && NotRead(v.text)
    ensures ReadString(WrittenValue(v) + more).Fail?
  {
    hide Written, ReadText;
    var t := Written(v.text) + (['"'] + more);
    assert WrittenValue(v) + more == v.ws + ['"'] + t;
    NextOf(v.ws, '"', t);
  }

  /** A wrong literal anywhere in a value makes the whole value unreadable. */
  lemma {:induction false} ReadFails(shape: Shape, v: Value, more: seq<byte>)
    requires Shaped(v, shape) && !ValueOk(v, shape)
    ensures Read(shape, WrittenValue(v) + more).Fail?
    decreases v, 0
  {
    hide Blank, Past, Next, ReadString, ReadNumber, Spaces, NotRead, Written;
    match v
    case Str(_, _) => TextFails(v, more);
    case List(ws, es) =>
      var t := WrittenElements(es) + [']'] + more;
      assert WrittenValue(v) + more == ws + ['['] + t;
      NextOf(ws, '[', t);
      assert Shaped(es.value, shape.of);
      ElementsStart(es, [']'] + more);
      assert t == WrittenElements(es) + ([']'] + more);
      ElementsFail(shape.of, es, more);
    case _ =>
  }

  lemma {:induction false} ElementsFail(shape: Shape, es: Elements, more: seq<byte>)
    requires ElementsShaped(es, shape) && !ElementsOk(es, shape)
    ensures ReadElements(shape, WrittenElements(es) + [']'] + more).Fail?
    decreases es, 1
  {
    hide Blank, Past, Next, Read, ValueOk, WrittenValue, Spaces, Shaped;
    var s := WrittenElements(es) + [']'] + more;
    var u := if es.More? then WrittenElements(es.rest) + [']'] + more else [];
    var t := if es.More? then es.after + [','] + u else es.after + [']'] + more;
    assert s == WrittenValue(es.value) + t;
    if ValueOk(es.value, shape) {
      assert es.More?;
      AfterValue(es.after, ',', u);
      ReadComplete(shape, es.value, t);
      NextOf(es.after, ',', u);
      ElementsFail(shape, es.rest, more);
    } else {
      ReadFails(shape, es.value, t);
    }
  }

  // ------------------------------------------------------------------ what the values say

  lemma TextValueRead(us: seq<scalar>)
    ensures Shaped(TextValue(us), Text)
    ensures ValueOk(TextValue(us), Text) <==> 0 !in us
    ensures 0 !in us ==> Decoded(TextValue(us).text) == EncodeAll(us)
  {
    hide Pieces, NotRead, EncodeAll;
    if 0 in us {
      NulUnreadable(us);
    } else {
      PiecesDecode(us);
    }
  }

  lemma NumberValueRead(n: nat)
    ensures ValueOk(NumberValue(n), Number) && Shaped(NumberValue(n), Number) && Decimal(NumberValue(n).digits) == n
  {
    NoLeadingZero(n);
  }

  lemma {:induction false} ListedShaped(vs: seq<Value>, of: Shape)
    requires vs != [] && forall i :: 0 <= i < |vs| ==> Shaped(vs[i], of)
    ensures ElementsShaped(Listed(vs), of)
    ensures ElementsOk(Listed(vs), of) <==> forall i :: 0 <= i < |vs| ==> ValueOk(vs[i], of)
    decreases |vs|
  {
    hide Shaped, ValueOk;
    if |vs| > 1 {
      assert forall i :: 0 <= i < |vs| - 1 ==> vs[1..][i] == vs[i + 1];
      ListedShaped(vs[1..], of);
      assert (forall i :: 0 <= i < |vs| ==> ValueOk(vs[i], of)) <==>
        ValueOk(vs[0], of) && forall i :: 0 <= i < |vs[1..]| ==> ValueOk(vs[1..][i], of) by {
        if ValueOk(vs[0], of) && forall i :: 0 <= i < |vs[1..]| ==> ValueOk(vs[1..][i], of) {
          forall i | 0 <= i < |vs|
            ensures ValueOk(vs[i], of)
          {
            if i > 0 {
              assert vs[1..][i - 1] == vs[i];
            }
          }
        }
      }
    }
  }

  lemma ListShaped(vs: seq<Value>, of: Shape)
    requires forall i :: 0 <= i < |vs| ==> Shaped(vs[i], of)
    ensures Shaped(ListValue(vs), ListOf(of))
    ensures ValueOk(ListValue(vs), ListOf(of)) <==> forall i :: 0 <= i < |vs| ==> ValueOk(vs[i], of)
  {
    hide Listed;
    if vs != [] {
      ListedShaped(vs, of);
    }
  }

  function EncodedArgv(argv: seq<seq<scalar>>): seq<seq<byte>> {
    seq(|argv|, i requires 0 <= i < |argv| => EncodeAll(argv[i]))
  }

  function EncodedCommands(commands: seq<seq<seq<scalar>>>): seq<seq<seq<byte>>> {
    seq(|commands|, i requires 0 <= i < |commands| => EncodedArgv(commands[i]))
  }

  predicate NoNulIn(argv: seq<seq<scalar>>) {
    forall i :: 0 <= i < |argv| ==> 0 !in argv[i]
  }

  lemma {:induction false} ListedStrings(vs: seq<Value>, bs: seq<seq<byte>>)
    requires vs != [] && |vs| == |bs| && ElementsOk(Listed(vs), Text)
    requires forall i :: 0 <= i < |vs| ==> ValueOk(vs[i], Text) && Decoded(vs[i].text) == bs[i]
    ensures Strings(Listed(vs)) == bs
    decreases |vs|
  {
    hide ValueOk, Decoded;
    if |vs| > 1 {
      ListedStrings(vs[1..], bs[1..]);
      assert bs == [bs[0]] + bs[1..];
    }
  }

  lemma ArgvValueRead(argv: seq<seq<scalar>>)
    ensures Shaped(ArgvValue(argv), ListOf(Text))
    ensures ValueOk(ArgvValue(argv), ListOf(Text)) <==> NoNulIn(argv)
    ensures NoNulIn(argv) ==> Argv(ArgvValue(argv)) == EncodedArgv(argv)
  {
    hide TextValue, EncodeAll, Decoded;
    var vs := seq(|argv|, i requires 0 <= i < |argv| => TextValue(argv[i]));
    forall i | 0 <= i < |argv|
      ensures Shaped(vs[i], Text) && (ValueOk(vs[i], Text) <==> 0 !in argv[i])
      ensures 0 !in argv[i] ==> Decoded(vs[i].text) == EncodeAll(argv[i])
    {
      TextValueRead(argv[i]);
    }
    ListShaped(vs, Text);
    assert ValueOk(ArgvValue(argv), ListOf(Text)) <==> NoNulIn(argv) by {
      ListOfTexts(vs, argv);
    }
    if NoNulIn(argv) && argv != [] {
      ListedStrings(vs, EncodedArgv(argv));
    }
  }

  lemma ListOfTexts(vs: seq<Value>, argv: seq<seq<scalar>>)
    requires |vs| == |argv| && forall i :: 0 <= i < |argv| ==> (ValueOk(vs[i], Text) <==> 0 !in argv[i])
    ensures (forall i :: 0 <= i < |vs| ==> ValueOk(vs[i], Text)) <==> NoNulIn(argv)
  {
    hide ValueOk;
    if forall i :: 0 <= i < |vs| ==> ValueOk(vs[i], Text) {
      forall i | 0 <= i < |argv|
        ensures 0 !in argv[i]
      {
        assert ValueOk(vs[i], Text);
      }
    }
  }

  predicate NoNulInAny(commands: seq<seq<seq<scalar>>>) {
    forall i :: 0 <= i < |commands| ==> NoNulIn(commands[i])
  }

  lemma {:induction false} ListedArgvs(vs: seq<Value>, bs: seq<seq<seq<byte>>>)
    requires vs != [] && |vs| == |bs| && ElementsOk(Listed(vs), ListOf(Text))
    requires forall i :: 0 <= i < |vs| ==> ValueOk(vs[i], ListOf(Text)) && Argv(vs[i]) == bs[i]
    ensures Argvs(Listed(vs)) == bs
    decreases |vs|
  {
    hide ValueOk, Argv;
    if |vs| > 1 {
      ListedArgvs(vs[1..], bs[1..]);
      assert bs == [bs[0]] + bs[1..];
    }
  }

  lemma ListOfArgvs(vs: seq<Value>, commands: seq<seq<seq<scalar>>>)
    requires |vs| == |commands|
    requires forall i :: 0 <= i < |commands| ==> (ValueOk(vs[i], ListOf(Text)) <==> NoNulIn(commands[i]))
    ensures (forall i :: 0 <= i < |vs| ==> ValueOk(vs[i], ListOf(Text))) <==> NoNulInAny(commands)
  {
    hide ValueOk, NoNulIn;
    if forall i :: 0 <= i < |vs| ==> ValueOk(vs[i], ListOf(Text)) {
      forall i | 0 <= i < |commands|
        ensures NoNulIn(commands[i])
      {
        assert ValueOk(vs[i], ListOf(Text));
      }
    }
  }

  lemma CommandsValueRead(commands: seq<seq<seq<scalar>>>)
    ensures Shaped(CommandsValue(commands), ListOf(ListOf(Text)))
    ensures ValueOk(CommandsValue(commands), ListOf(ListOf(Text))) <==> NoNulInAny(commands)
    ensures NoNulInAny(commands) ==> CommandLists(CommandsValue(commands)) == EncodedCommands(commands)
  {
    hide ArgvValue, EncodedArgv, Argv, NoNulIn;
    var vs := seq(|commands|, i requires 0 <= i < |commands| => ArgvValue(commands[i]));
    forall i | 0 <= i < |commands|
      ensures Shaped(vs[i], ListOf(Text)) && (ValueOk(vs[i], ListOf(Text)) <==> NoNulIn(commands[i]))
      ensures NoNulIn(commands[i]) ==> Argv(vs[i]) == EncodedArgv(commands[i])
    {
      ArgvValueRead(commands[i]);
    }
    ListShaped(vs, ListOf(Text));
    ListOfArgvs(vs, commands);
    if NoNulInAny(commands) && commands != [] {
      ListedArgvs(vs, EncodedCommands(commands));
    }
  }

  // ------------------------------------------------------------------ members

  datatype Field = Field(key: Key, value: Value)

  /** A name that needs no escape. */
  function NameValue(name: seq<byte>): Value {
    Str([], RawPieces(name))
  }

  lemma NameRead(name: seq<byte>)
    requires forall i :: 0 <= i < |name| ==> Plain(name[i])
    ensures ValueOk(NameValue(name), Text) && Decoded(NameValue(name).text) == name
  {
    RawDecoded(name);
  }

  /** The names the adapter's request structures give their members. */
  function TagName(k: Key): seq<byte> {
    match k
    case Type => "type"
    case Gen => "gen"
    case Id => "id"
    case Grace => "graceMs"
    case Commands => "commands"
    case Timeout => "timeoutMs"
    case PrevProvider => "prevProvider"
    case PrevLease => "prevLeaseId"
  }

  /** The supervisor takes a name for a key exactly when the adapter writes that key by that name. */
  lemma TagsAreKeys(k: Key, name: seq<byte>)
    ensures KeyOf(name) == Some(k) <==> name == TagName(k)
  {
  }

  function MemberOf(f: Field): Member {
    Member(NameValue(TagName(f.key)), [], f.value, [])
  }

  function MembersOf(fs: seq<Field>): (ms: seq<Member>)
    ensures |ms| == |fs| && forall i :: 0 <= i < |fs| ==> ms[i] == MemberOf(fs[i])
  {
    seq(|fs|, i requires 0 <= i < |fs| => MemberOf(fs[i]))
  }

  predicate Good(f: Field) {
    ValueOk(f.value, ShapeOf(f.key)) && Fits(f.key, f.value)
  }

  lemma MemberOfKey(f: Field)
    ensures NameOk(MemberOf(f)) && KeyOf(Decoded(MemberOf(f).key.text)) == Some(f.key)
    ensures MemberOk(MemberOf(f)) <==> Good(f)
    ensures Good(f) ==> KeyIn(MemberOf(f)) == f.key
  {
    hide Decoded, Fits, ValueOk, KeyOf;
    KeyIsPlain(f.key);
    NameRead(TagName(f.key));
    TagsAreKeys(f.key, TagName(f.key));
  }

  lemma KeyIsPlain(k: Key)
    ensures forall i :: 0 <= i < |TagName(k)| ==> Plain(TagName(k)[i])
  {
  }

  ghost predicate FieldsShaped(fs: seq<Field>) {
    && (forall i :: 0 <= i < |fs| ==> Shaped(fs[i].value, ShapeOf(fs[i].key)))
    && (forall i, j :: 0 <= i < j < |fs| ==> fs[i].key != fs[j].key)
  }

  predicate AllGood(fs: seq<Field>) {
    forall i :: 0 <= i < |fs| ==> Good(fs[i])
  }

  function KeysOf(fs: seq<Field>): set<Key> {
    set f | f in fs :: f.key
  }

  lemma GoodMembers(fs: seq<Field>)
    requires FieldsShaped(fs) && AllGood(fs)
    ensures MembersOk(MembersOf(fs)) && TableOk(Table(MembersOf(fs)))
    ensures Table(MembersOf(fs)).Keys == KeysOf(fs)
    ensures forall i :: 0 <= i < |fs| ==> Table(MembersOf(fs))[fs[i].key] == fs[i].value
  {
    hide MemberOf, Good, Shaped, MemberOk, KeyIn, Table, TableOk;
    var ms := MembersOf(fs);
    forall i | 0 <= i < |fs|
      ensures MemberOk(ms[i]) && KeyIn(ms[i]) == fs[i].key && ms[i].value == fs[i].value
    {
      MemberOfKey(fs[i]);
      MemberOfValue(fs[i]);
    }
    TableHolds(ms);
    forall k | k in Table(ms)
      ensures k in KeysOf(fs)
    {
      var i :| 0 <= i < |ms| && KeyIn(ms[i]) == k;
      assert fs[i] in fs;
    }
    forall i | 0 <= i < |fs|
      ensures fs[i].key in Table(ms) && Table(ms)[fs[i].key] == fs[i].value
    {
      assert KeyIn(ms[i]) == fs[i].key;
    }
  }

  lemma MemberOfValue(f: Field)
    ensures MemberOf(f).value == f.value && MemberOf(f).after == []
  {
  }

  // ------------------------------------------------------------------ the verdict on them

  /** A member whose value is refused ends the reading there. */
  lemma ScanBadField(f: Field, more: seq<byte>, seen: map<Key, Value>)
    requires TableOk(seen) && f.key !in seen && Shaped(f.value, ShapeOf(f.key)) && !Good(f) && Follows(more)
    ensures ScanMembers(WrittenMember(MemberOf(f)) + more, seen) == if f.key in HEAD then Broken else Bad(seen)
  {
    hide WrittenMember, MemberOf, ReadString, Read, Decoded, Fits, KeyOf, ValueOk, Shaped, Next, Past, Blank,
      WrittenValue;
    MemberOfKey(f);
    MemberOfValue(f);
    MemberName(MemberOf(f), more);
    assert [] + more == more;
    if ValueOk(f.value, ShapeOf(f.key)) {
      ReadComplete(ShapeOf(f.key), f.value, more);
    } else {
      ReadFails(ShapeOf(f.key), f.value, more);
    }
  }

  lemma {:induction false} WrittenSplit(ms: seq<Member>, j: nat) returns (tail: seq<byte>)
    requires j < |ms|
    ensures tail == [] || tail[0] == ','
    ensures WrittenMembers(ms) ==
      (if j == 0 then [] else WrittenMembers(ms[..j]) + [',']) + (WrittenMember(ms[j]) + tail)
    decreases j
  {
    hide WrittenMember;
    if j == 0 {
      tail := if |ms| == 1 then [] else [','] + WrittenMembers(ms[1..]);
      assert [] + (WrittenMember(ms[0]) + tail) == WrittenMember(ms[0]) + tail;
    } else {
      tail := WrittenSplit(ms[1..], j - 1);
      SplitStep(ms, j, tail);
    }
  }

  lemma SplitStep(ms: seq<Member>, j: nat, tail: seq<byte>)
    requires 0 < j < |ms|
    requires WrittenMembers(ms[1..]) ==
      (if j == 1 then [] else WrittenMembers(ms[1..][..j - 1]) + [',']) + (WrittenMember(ms[1..][j - 1]) + tail)
    ensures WrittenMembers(ms) == WrittenMembers(ms[..j]) + [','] + (WrittenMember(ms[j]) + tail)
  {
    hide WrittenMember;
    var last := WrittenMember(ms[j]) + tail;
    assert WrittenMembers(ms) == WrittenMember(ms[0]) + ([','] + WrittenMembers(ms[1..]));
    if j == 1 {
      assert ms[..1] == [ms[0]];
      assert WrittenMembers(ms[..1]) == WrittenMember(ms[0]);
      assert [] + last == last;
    } else {
      assert ms[..j][1..] == ms[1..][..j - 1];
      var front := WrittenMembers(ms[1..][..j - 1]);
      assert WrittenMembers(ms[..j]) == WrittenMember(ms[0]) + ([','] + front);
      JoinStep(WrittenMember(ms[0]), front, last);
    }
  }

  lemma JoinStep(first: seq<byte>, front: seq<byte>, last: seq<byte>)
    ensures first + ([','] + ((front + [',']) + last)) == (first + ([','] + front)) + [','] + last
  {
  }

  /** The line an object with these members is. */
  function Object(fs: seq<Field>): seq<byte> {
    WrittenDocument(Document([], MembersOf(fs), []))
  }

  ghost function TableOf(fs: seq<Field>): (t: map<Key, Value>)
    requires FieldsShaped(fs) && AllGood(fs)
    ensures TableOk(t) && t.Keys == KeysOf(fs)
    ensures forall i :: 0 <= i < |fs| ==> t[fs[i].key] == fs[i].value
  {
    GoodMembers(fs);
    Table(MembersOf(fs))
  }

  lemma ObjectOpens(fs: seq<Field>)
    requires fs != [] && |Object(fs)| <= MAX_LINE
    ensures Parse(Object(fs)) == Judge(ScanMembers(WrittenMembers(MembersOf(fs)) + ['}'], map[]))
  {
    hide ScanMembers, WrittenMembers, Blank, Next, Past, Judge, MemberOf;
    var ms := MembersOf(fs);
    var body := WrittenMembers(ms) + ['}'];
    assert Object(fs) == [] + ['{'] + body;
    NextOf([], '{', body);
    MemberOfKey(fs[0]);
    NotEmptyObject(ms, ['}']);
  }

  lemma PrefixShaped(fs: seq<Field>, j: nat)
    requires j < |fs| && FieldsShaped(fs)
    ensures FieldsShaped(fs[..j]) && fs[j].key !in KeysOf(fs[..j]) && MembersOf(fs)[..j] == MembersOf(fs[..j])
  {
    hide Shaped, MemberOf;
  }

  lemma BadFieldScanned(fs: seq<Field>, j: nat)
    requires j < |fs| && FieldsShaped(fs) && FieldsShaped(fs[..j]) && AllGood(fs[..j]) && !Good(fs[j])
    ensures ScanMembers(WrittenMembers(MembersOf(fs)) + ['}'], map[]) ==
      if fs[j].key in HEAD then Broken else Bad(TableOf(fs[..j]))
  {
    hide ScanMembers, WrittenMembers, WrittenMember, Table, TableOk, MembersOk, Good, Shaped, MemberOf, KeysOf, AllGood;
    var ms, front := MembersOf(fs), fs[..j];
    PrefixShaped(fs, j);
    GoodMembers(front);
    var tail := WrittenSplit(ms, j);
    var more := tail + ['}'];
    var last := WrittenMember(ms[j]) + more;
    NoKeys(ms[..j]);
    assert map[] + Table(ms[..j]) == Table(ms[..j]);
    if j == 0 {
      assert WrittenMembers(ms) + ['}'] == last;
      EmptyTable(map[], ms[..j]);
      ScanBadField(fs[j], more, map[]);
    } else {
      assert WrittenMembers(ms) + ['}'] == WrittenMembers(ms[..j]) + [','] + last;
      ScanList(ms[..j], last, map[]);
      ScanBadField(fs[j], more, Table(ms[..j]));
    }
  }

  // ------------------------------------------------------------------ no terminator inside

  lemma PieceOneLine(u: scalar)
    ensures NL !in Written(PiecesOf(u))
  {
    if u == '"' as int || u == '\\' as int || u == 8 || u == 9 || u == 10 || u == 12 || u == 13 {
      OneWritten(PiecesOf(u)[0]);
    } else if u < 0x20 || u == 0x2028 || u == 0x2029 {
      OneWritten(PiecesOf(u)[0]);
    } else {
      EncodedIsRaw(u);
      RawWritten(Encode(u));
    }
  }

  lemma {:induction false} RawWritten(bs: seq<byte>)
    ensures Written(RawPieces(bs)) == bs
  {
    if bs != [] {
      assert RawPieces(bs)[1..] == RawPieces(bs[1..]);
      RawWritten(bs[1..]);
      assert bs == [bs[0]] + bs[1..];
    }
  }

  lemma {:induction false} PiecesOneLine(us: seq<scalar>)
    ensures NL !in Written(Pieces(us))
  {
    hide PiecesOf, Written;
    if us == [] {
      EmptyWritten();
    } else {
      PieceOneLine(us[0]);
      PiecesOneLine(us[1..]);
      WrittenAppend(PiecesOf(us[0]), Pieces(us[1..]));
    }
  }

  lemma EmptyWritten()
    ensures Written([]) == []
  {
  }

  lemma TextOneLine(us: seq<scalar>)
    ensures NL !in WrittenValue(TextValue(us))
  {
    hide Pieces;
    PiecesOneLine(us);
  }

  lemma NumberOneLine(n: nat)
    ensures NL !in WrittenValue(NumberValue(n))
  {
    hide Printed;
    assert WrittenValue(NumberValue(n)) == Printed(n);
    assert forall i :: 0 <= i < |Printed(n)| ==> IsDigit(Printed(n)[i]);
  }

  lemma NameOneLine(name: seq<byte>)
    requires forall i :: 0 <= i < |name| ==> Plain(name[i])
    ensures NL !in WrittenValue(NameValue(name))
  {
    RawWritten(name);
  }

  lemma {:induction false} ListedOneLine(vs: seq<Value>)
    requires vs != [] && forall i :: 0 <= i < |vs| ==> NL !in WrittenValue(vs[i])
    ensures NL !in WrittenElements(Listed(vs))
    decreases |vs|
  {
    hide WrittenValue;
    if |vs| > 1 {
      ListedOneLine(vs[1..]);
    }
  }

  lemma ListOneLine(vs: seq<Value>)
    requires forall i :: 0 <= i < |vs| ==> NL !in WrittenValue(vs[i])
    ensures NL !in WrittenValue(ListValue(vs))
  {
    hide Listed;
    if vs != [] {
      ListedOneLine(vs);
    }
  }

  lemma ArgvOneLine(argv: seq<seq<scalar>>)
    ensures NL !in WrittenValue(ArgvValue(argv))
  {
    hide TextValue, WrittenValue, ListValue;
    var vs := seq(|argv|, i requires 0 <= i < |argv| => TextValue(argv[i]));
    forall i | 0 <= i < |vs|
      ensures NL !in WrittenValue(vs[i])
    {
      TextOneLine(argv[i]);
    }
    ListOneLine(vs);
  }

  lemma CommandsOneLine(commands: seq<seq<seq<scalar>>>)
    ensures NL !in WrittenValue(CommandsValue(commands))
  {
    hide ArgvValue, WrittenValue, ListValue;
    var vs := seq(|commands|, i requires 0 <= i < |commands| => ArgvValue(commands[i]));
    forall i | 0 <= i < |vs|
      ensures NL !in WrittenValue(vs[i])
    {
      ArgvOneLine(commands[i]);
    }
    ListOneLine(vs);
  }

  lemma FieldOneLine(f: Field)
    requires NL !in WrittenValue(f.value)
    ensures NL !in WrittenMember(MemberOf(f))
  {
    hide WrittenValue;
    KeyIsPlain(f.key);
    NameOneLine(TagName(f.key));
  }

  lemma {:induction false} MembersOneLine(ms: seq<Member>)
    requires forall i :: 0 <= i < |ms| ==> NL !in WrittenMember(ms[i])
    ensures NL !in WrittenMembers(ms)
    decreases |ms|
  {
    hide WrittenMember;
    if |ms| > 1 {
      MembersOneLine(ms[1..]);
    }
  }

  lemma ObjectOneLine(fs: seq<Field>)
    requires forall i :: 0 <= i < |fs| ==> NL !in WrittenValue(fs[i].value)
    ensures NL !in Object(fs)
  {
    hide WrittenMembers, WrittenMember, WrittenValue, MemberOf;
    forall i | 0 <= i < |fs|
      ensures NL !in WrittenMember(MembersOf(fs)[i])
    {
      FieldOneLine(fs[i]);
    }
    MembersOneLine(MembersOf(fs));
  }
}
