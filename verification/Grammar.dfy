/**
 The concrete syntax of request lines: how a line is written, byte by byte, and what it means.
 White space and integers are forms of sections 2 and 6 of RFC 8259, strings those of section 7,
 except that bytes from 0x80 up stand for themselves unchecked.
 */
module Grammar {
  import opened Base
  import opened Messages
  import opened Unicode

  const MAX_JSON_INT: nat := 9007199254740991
  const MAX_COMMANDS: nat := 64
  const MAX_ARGS: nat := 256
  const MAX_ARG_BYTES: nat := 4096
  const MAX_ARGV_TOTAL: nat := 1024
  const MAX_TYPE_BYTES: nat := 16
  const MAX_KEY_BYTES: nat := 32

  // ------------------------------------------------------------------ characters

  predicate IsSpace(c: byte) {
    c == ' ' || c == '\t' || c == '\r' || c == '\n'
  }

  predicate Spaces(ws: seq<byte>) {
    forall i :: 0 <= i < |ws| ==> IsSpace(ws[i])
  }

  predicate IsDigit(c: byte) {
    '0' <= c <= '9'
  }

  predicate AllDigits(s: seq<byte>) {
    forall i :: 0 <= i < |s| ==> IsDigit(s[i])
  }

  /** The number a run of decimal digits stands for. */
  function Decimal(s: seq<byte>): nat
    requires AllDigits(s)
  {
    if s == [] then 0 else Decimal(s[..|s| - 1]) * 10 + (s[|s| - 1] as int - '0' as int)
  }

  datatype Hex = Hex(a: byte, b: byte, c: byte, d: byte)

  predicate IsHex(c: byte) {
    '0' <= c <= '9' || 'a' <= c <= 'f' || 'A' <= c <= 'F'
  }

  function HexDigit(c: byte): (v: nat)
    requires IsHex(c)
    ensures v < 16
  {
    if c <= '9' then c as int - '0' as int
    else if c <= 'F' then c as int - 'A' as int + 10
    else c as int - 'a' as int + 10
  }

  predicate HexOk(h: Hex) {
    IsHex(h.a) && IsHex(h.b) && IsHex(h.c) && IsHex(h.d)
  }

  function HexValue(h: Hex): (v: nat)
    requires HexOk(h)
    ensures v < 0x10000
  {
    ((HexDigit(h.a) * 16 + HexDigit(h.b)) * 16 + HexDigit(h.c)) * 16 + HexDigit(h.d)
  }

  // ------------------------------------------------------------------ strings

  /** One character of a string as it is written: itself, a short escape, or one or two \u escapes. */
  datatype Piece = Raw(c: byte) | Short(e: byte) | Unit(h: Hex) | Pair(hi: Hex, lo: Hex)

  predicate IsShort(e: byte) {
    e in "\"\\/bfnrt"
  }

  function ShortValue(e: byte): byte
    requires IsShort(e)
  {
    match e
    case 'b' => Byte(8)
    case 'f' => Byte(12)
    case 'n' => '\n'
    case 'r' => '\r'
    case 't' => '\t'
    case _ => e
  }

  predicate IsHigh(v: nat) {
    0xD800 <= v <= 0xDBFF
  }

  predicate IsLow(v: nat) {
    0xDC00 <= v <= 0xDFFF
  }

  /** The scalar a surrogate pair stands for. */
  function Combine(hi: nat, lo: nat): (u: scalar)
    requires IsHigh(hi) && IsLow(lo)
    ensures 0x10000 <= u
  {
    0x10000 + (hi - 0xD800) * 1024 + (lo - 0xDC00)
  }

  predicate PieceOk(p: Piece) {
    match p
    case Raw(c) => c as int >= 0x20 && c != '"' && c != '\\'
    case Short(e) => IsShort(e)
    case Unit(h) => HexOk(h) && HexValue(h) != 0 && !IsHigh(HexValue(h)) && !IsLow(HexValue(h))
    case Pair(hi, lo) => HexOk(hi) && HexOk(lo) && IsHigh(HexValue(hi)) && IsLow(HexValue(lo))
  }

  predicate TextOk(text: seq<Piece>) {
    forall i :: 0 <= i < |text| ==> PieceOk(text[i])
  }

  function WrittenHex(h: Hex): seq<byte> {
    ['\\', 'u', h.a, h.b, h.c, h.d]
  }

  function WrittenPiece(p: Piece): seq<byte> {
    match p
    case Raw(c) => [c]
    case Short(e) => ['\\', e]
    case Unit(h) => WrittenHex(h)
    case Pair(hi, lo) => WrittenHex(hi) + WrittenHex(lo)
  }

  function Written(text: seq<Piece>): seq<byte> {
    if text == [] then [] else WrittenPiece(text[0]) + Written(text[1..])
  }

  function DecodedPiece(p: Piece): (bs: seq<byte>)
    requires PieceOk(p)
    ensures 1 <= |bs| <= |WrittenPiece(p)|
    ensures '\0' !in bs
  {
    match p
    case Raw(c) => [c]
    case Short(e) => [ShortValue(e)]
    case Unit(h) => Encode(HexValue(h))
    case Pair(hi, lo) => Encode(Combine(HexValue(hi), HexValue(lo)))
  }

  /** The bytes a string literal stands for. */
  function Decoded(text: seq<Piece>): (bs: seq<byte>)
    requires TextOk(text)
    ensures |bs| <= |Written(text)|
    ensures '\0' !in bs
  {
    if text == [] then [] else DecodedPiece(text[0]) + Decoded(text[1..])
  }

  // ------------------------------------------------------------------ values

  /** A value with the white space before it. Lists are never empty; an empty one is Nothing. */
  datatype Value =
    | Str(ws: seq<byte>, text: seq<Piece>)
    | Num(ws: seq<byte>, digits: seq<byte>)
    | Nothing(ws: seq<byte>, inner: seq<byte>)
    | List(ws: seq<byte>, elements: Elements)

  /** List elements, each with the white space after it. */
  datatype Elements =
    | Last(value: Value, after: seq<byte>)
    | More(value: Value, after: seq<byte>, rest: Elements)

  /** The kinds of value a member may hold. */
  datatype Shape = Text | Number | ListOf(of: Shape)

  predicate DigitsOk(digits: seq<byte>) {
    digits != [] && AllDigits(digits) && (digits[0] == '0' ==> |digits| == 1)
  }

  predicate ValueOk(v: Value, shape: Shape) {
    Spaces(v.ws) &&
    match v
    case Str(_, text) => shape.Text? && TextOk(text)
    case Num(_, digits) => shape.Number? && DigitsOk(digits)
    case Nothing(_, inner) => shape.ListOf? && Spaces(inner)
    case List(_, elements) => shape.ListOf? && ElementsOk(elements, shape.of)
  }

  predicate ElementsOk(es: Elements, shape: Shape) {
    Spaces(es.after) && ValueOk(es.value, shape) && (es.More? ==> ElementsOk(es.rest, shape))
  }

  function WrittenValue(v: Value): seq<byte> {
    v.ws +
    match v
    case Str(_, text) => ['"'] + Written(text) + ['"']
    case Num(_, digits) => digits
    case Nothing(_, inner) => ['['] + inner + [']']
    case List(_, elements) => ['['] + WrittenElements(elements) + [']']
  }

  function WrittenElements(es: Elements): seq<byte> {
    WrittenValue(es.value) + es.after + (if es.More? then [','] + WrittenElements(es.rest) else [])
  }

  /** The strings of a list of strings. */
  function Strings(es: Elements): (r: seq<seq<byte>>)
    requires ElementsOk(es, Text)
    ensures r != []
  {
    assert ValueOk(es.value, Text);
    [Decoded(es.value.text)] + if es.More? then Strings(es.rest) else []
  }

  /** An argument list: a list of strings. */
  function Argv(v: Value): seq<seq<byte>>
    requires ValueOk(v, ListOf(Text))
  {
    if v.Nothing? then [] else Strings(v.elements)
  }

  function Argvs(es: Elements): seq<seq<seq<byte>>>
    requires ElementsOk(es, ListOf(Text))
  {
    [Argv(es.value)] + if es.More? then Argvs(es.rest) else []
  }

  function CommandLists(v: Value): seq<seq<seq<byte>>>
    requires ValueOk(v, ListOf(ListOf(Text)))
  {
    if v.Nothing? then [] else Argvs(v.elements)
  }

  function Total(commands: seq<seq<seq<byte>>>): nat {
    if commands == [] then 0 else |commands[0]| + Total(commands[1..])
  }

  predicate ArgvFits(argv: seq<seq<byte>>) {
    && argv != [] && |argv| <= MAX_ARGS && argv[0] != []
    && forall i :: 0 <= i < |argv| ==> |argv[i]| <= MAX_ARG_BYTES
  }

  predicate CommandsFit(commands: seq<seq<seq<byte>>>) {
    && |commands| <= MAX_COMMANDS && Total(commands) <= MAX_ARGV_TOTAL
    && forall i :: 0 <= i < |commands| ==> ArgvFits(commands[i])
  }

  // ------------------------------------------------------------------ members

  datatype Key = Type | Gen | Id | Grace | Commands | Timeout | PrevProvider | PrevLease

  const HEAD: set<Key> := {Type, Gen, Id}

  /** The key a member's name stands for. */
  function KeyOf(name: seq<byte>): Option<Key> {
    if name == "type" then Some(Type)
    else if name == "gen" then Some(Gen)
    else if name == "id" then Some(Id)
    else if name == "graceMs" then Some(Grace)
    else if name == "commands" then Some(Commands)
    else if name == "timeoutMs" then Some(Timeout)
    else if name == "prevProvider" then Some(PrevProvider)
    else if name == "prevLeaseId" then Some(PrevLease)
    else None
  }

  function KindOf(name: seq<byte>): Option<RequestType> {
    if name == "launch" then Some(Launch)
    else if name == "end" then Some(End)
    else if name == "sweep" then Some(Sweep)
    else if name == "cleanup" then Some(Cleanup)
    else if name == "ping" then Some(Ping)
    else None
  }

  /** The members a request of each type has; it has no other. */
  function Required(kind: RequestType): set<Key> {
    match kind
    case End => HEAD + {Grace}
    case Cleanup => HEAD + {Commands, Timeout, PrevProvider, PrevLease}
    case _ => HEAD
  }

  function ShapeOf(k: Key): Shape {
    match k
    case Type => Text
    case PrevProvider => Text
    case PrevLease => Text
    case Commands => ListOf(ListOf(Text))
    case _ => Number
  }

  /** Whether a value of the right shape is one its key accepts. */
  predicate Fits(k: Key, v: Value)
    requires ValueOk(v, ShapeOf(k))
  {
    match k
    case Type => |Decoded(v.text)| <= MAX_TYPE_BYTES && KindOf(Decoded(v.text)).Some?
    case PrevProvider => |Decoded(v.text)| <= MAX_ARG_BYTES
    case PrevLease => |Decoded(v.text)| <= MAX_ARG_BYTES
    case Commands => CommandsFit(CommandLists(v))
    case _ => Decimal(v.digits) <= MAX_JSON_INT
  }

  /** A member: its key, the white space before the colon, its value, and the white space after it. */
  datatype Member = Member(key: Value, colon: seq<byte>, value: Value, after: seq<byte>)

  predicate MemberOk(m: Member) {
    && ValueOk(m.key, Text) && Spaces(m.colon) && Spaces(m.after)
    && var k := KeyOf(Decoded(m.key.text));
    k.Some? && ValueOk(m.value, ShapeOf(k.value)) && Fits(k.value, m.value)
  }

  function KeyIn(m: Member): Key
    requires MemberOk(m)
  {
    KeyOf(Decoded(m.key.text)).value
  }

  function WrittenMember(m: Member): seq<byte> {
    WrittenValue(m.key) + m.colon + [':'] + WrittenValue(m.value) + m.after
  }

  predicate MembersOk(ms: seq<Member>) {
    && (forall i :: 0 <= i < |ms| ==> MemberOk(ms[i]))
    && (forall i, j :: 0 <= i < j < |ms| ==> KeyIn(ms[i]) != KeyIn(ms[j]))
  }

  function WrittenMembers(ms: seq<Member>): seq<byte> {
    if ms == [] then []
    else WrittenMember(ms[0]) + if |ms| == 1 then [] else [','] + WrittenMembers(ms[1..])
  }

  /** The values members hold, by key. */
  function Table(ms: seq<Member>): map<Key, Value>
    requires MembersOk(ms)
  {
    if ms == [] then map[] else Table(ms[..|ms| - 1])[KeyIn(ms[|ms| - 1]) := ms[|ms| - 1].value]
  }

  /** Values that fit their keys. */
  predicate TableOk(t: map<Key, Value>) {
    forall k <- t :: ValueOk(t[k], ShapeOf(k)) && Fits(k, t[k])
  }

  function NumberIn(t: map<Key, Value>, k: Key): (n: nat)
    requires TableOk(t) && ShapeOf(k) == Number
    ensures n <= MAX_JSON_INT
  {
    if k in t then Decimal(t[k].digits) else 0
  }

  function TextIn(t: map<Key, Value>, k: Key): seq<byte>
    requires TableOk(t) && ShapeOf(k) == Text
  {
    if k in t then Decoded(t[k].text) else []
  }

  function KindIn(t: map<Key, Value>): RequestType
    requires TableOk(t) && Type in t
  {
    KindOf(Decoded(t[Type].text)).value
  }

  /** The request a table of members stands for. */
  function Meaning(t: map<Key, Value>): Request
    requires TableOk(t) && Type in t
  {
    Request(KindIn(t), NumberIn(t, Gen), NumberIn(t, Id), NumberIn(t, Grace), NumberIn(t, Timeout),
            if Commands in t then CommandLists(t[Commands]) else [],
            TextIn(t, PrevProvider), TextIn(t, PrevLease))
  }

  // ------------------------------------------------------------------ documents

  /** A whole line: one object, with white space around it. */
  datatype Document = Document(before: seq<byte>, members: seq<Member>, end: seq<byte>)

  /** The accepted lines: exactly the members the type requires, each once and in range. */
  predicate DocumentOk(d: Document) {
    && Spaces(d.before) && Spaces(d.end) && MembersOk(d.members)
    && var t := Table(d.members);
    TableOk(t) && Type in t && t.Keys == Required(KindIn(t))
  }

  function WrittenDocument(d: Document): seq<byte> {
    d.before + ['{'] + WrittenMembers(d.members) + ['}'] + d.end
  }
}
