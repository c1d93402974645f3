/** A reader for the request grammar that gives back the syntax it read, and the verdict on a line. */
module Recognizer {
  import opened Base
  import opened Messages
  import opened LineReader
  import opened Grammar
  import opened Tables

  /** What was read, and the bytes after it. */
  datatype Got<+T> = Fail | Got(value: T, rest: seq<byte>)

  /** The length of the white space at the start. */
  function Blank(s: seq<byte>): (n: nat)
    ensures n <= |s| && Spaces(s[..n])
    ensures n < |s| ==> !IsSpace(s[n])
  {
    if s == [] || !IsSpace(s[0]) then 0 else
    var n := 1 + Blank(s[1..]);
    assert s[..n] == [s[0]] + s[1..][..n - 1];
    n
  }

  /** The length of the digits at the start. */
  function DigitRun(s: seq<byte>): (n: nat)
    ensures n <= |s| && AllDigits(s[..n])
    ensures n < |s| ==> !IsDigit(s[n])
  {
    if s == [] || !IsDigit(s[0]) then 0 else
    var n := 1 + DigitRun(s[1..]);
    assert s[..n] == [s[0]] + s[1..][..n - 1];
    n
  }

  /** Whether a given character comes next, white space aside. */
  predicate Next(s: seq<byte>, c: byte) {
    Blank(s) < |s| && s[Blank(s)] == c
  }

  /** What follows that character. */
  function Past(s: seq<byte>): (r: seq<byte>)
    requires Blank(s) < |s|
    ensures |r| < |s|
  {
    s[Blank(s) + 1..]
  }

  function ReadHex(s: seq<byte>): (r: Got<Hex>)
    ensures r.Got? ==> |r.rest| + 4 == |s|
  {
    if |s| < 4 then Fail else
    var h := Hex(s[0], s[1], s[2], s[3]);
    if HexOk(h) then Got(h, s[4..]) else Fail
  }

  /** Reads what may follow a backslash and a u. */
  function ReadUnicode(s: seq<byte>): (r: Got<Piece>)
    ensures r.Got? ==> |r.rest| < |s|
  {
    match ReadHex(s)
    case Fail => Fail
    case Got(h, r) =>
      var v := HexValue(h);
      if IsLow(v) || v == 0 then Fail
      else if !IsHigh(v) then Got(Unit(h), r)
      else if |r| < 2 || r[0] != '\\' || r[1] != 'u' then Fail
      else match ReadHex(r[2..])
        case Fail => Fail
        case Got(lo, r2) => if IsLow(HexValue(lo)) then Got(Pair(h, lo), r2) else Fail
  }

  function ReadPiece(s: seq<byte>): (r: Got<Piece>)
    requires s != [] && s[0] != '"'
    ensures r.Got? ==> |r.rest| < |s|
  {
    if s[0] as int < 0x20 then Fail
    else if s[0] != '\\' then Got(Raw(s[0]), s[1..])
    else if |s| < 2 then Fail
    else if s[1] == 'u' then ReadUnicode(s[2..])
    else if IsShort(s[1]) then Got(Short(s[1]), s[2..])
    else Fail
  }

  /** Reads the rest of a string, its closing quote included. */
  function ReadText(s: seq<byte>): (r: Got<seq<Piece>>)
    ensures r.Got? ==> |r.rest| < |s|
    decreases |s|
  {
    if s == [] then Fail
    else if s[0] == '"' then Got([], s[1..])
    else match ReadPiece(s)
      case Fail => Fail
      case Got(p, r) =>
        match ReadText(r)
        case Fail => Fail
        case Got(ps, r2) => Got([p] + ps, r2)
  }

  function ReadString(s: seq<byte>): (r: Got<Value>)
    ensures r.Got? ==> |r.rest| < |s| && r.value.Str?
  {
    if !Next(s, '"') then Fail else
    match ReadText(Past(s))
    case Fail => Fail
    case Got(ps, r) => Got(Str(s[..Blank(s)], ps), r)
  }

  function ReadNumber(s: seq<byte>): (r: Got<Value>)
    ensures r.Got? ==> |r.rest| < |s|
  {
    var t := s[Blank(s)..];
    var n := DigitRun(t);
    if n == 0 || (t[0] == '0' && n > 1) || (n < |t| && t[n] in ".eE") then Fail
    else Got(Num(s[..Blank(s)], t[..n]), t[n..])
  }

  function Read(shape: Shape, s: seq<byte>): (r: Got<Value>)
    ensures r.Got? ==> |r.rest| < |s|
    decreases |s|, 0
  {
    match shape
    case Text => ReadString(s)
    case Number => ReadNumber(s)
    case ListOf(of) =>
      if !Next(s, '[') then Fail
      else if Next(Past(s), ']') then Got(Nothing(s[..Blank(s)], Past(s)[..Blank(Past(s))]), Past(Past(s)))
      else match ReadElements(of, Past(s))
        case Fail => Fail
        case Got(es, r) => Got(List(s[..Blank(s)], es), r)
  }

  /** Reads the rest of a list that is not empty, its closing bracket included. */
  function ReadElements(shape: Shape, s: seq<byte>): (r: Got<Elements>)
    ensures r.Got? ==> |r.rest| < |s|
    decreases |s|, 1
  {
    match Read(shape, s)
    case Fail => Fail
    case Got(v, r) =>
      if Next(r, ',') then
        match ReadElements(shape, Past(r))
        case Fail => Fail
        case Got(es, r2) => Got(More(v, r[..Blank(r)], es), r2)
      else if Next(r, ']') then Got(Last(v, r[..Blank(r)]), Past(r))
      else Fail
  }

  // ------------------------------------------------------------------ what is read is what was written

  lemma PieceSound(s: seq<byte>)
    requires s != [] && s[0] != '"' && ReadPiece(s).Got?
    ensures PieceOk(ReadPiece(s).value) && s == WrittenPiece(ReadPiece(s).value) + ReadPiece(s).rest
  {
  }

  lemma PieceComplete(p: Piece, more: seq<byte>)
    requires PieceOk(p)
    ensures var s := WrittenPiece(p) + more; s[0] != '"' && ReadPiece(s) == Got(p, more)
  {
    var s := WrittenPiece(p) + more;
    if p.Pair? {
      assert s[2..][4..] == s[6..] && s[6..][2..] == s[8..];
    }
  }

  lemma {:induction false} TextSound(s: seq<byte>)
    requires ReadText(s).Got?
    ensures TextOk(ReadText(s).value) && s == Written(ReadText(s).value) + ['"'] + ReadText(s).rest
    decreases |s|
  {
    hide WrittenPiece, PieceOk, ReadPiece;
    if s[0] != '"' {
      PieceSound(s);
      TextSound(ReadPiece(s).rest);
    }
  }

  lemma {:induction false} TextComplete(text: seq<Piece>, more: seq<byte>)
    requires TextOk(text)
    ensures ReadText(Written(text) + ['"'] + more) == Got(text, more)
  {
    hide WrittenPiece, PieceOk, ReadPiece;
    var s := Written(text) + ['"'] + more;
    if text != [] {
      var r := Written(text[1..]) + ['"'] + more;
      assert s == WrittenPiece(text[0]) + r;
      PieceComplete(text[0], r);
      TextComplete(text[1..], more);
      assert [text[0]] + text[1..] == text;
    } else {
      assert s[1..] == more;
    }
  }

  lemma {:induction false} BlankOf(ws: seq<byte>, more: seq<byte>)
    requires Spaces(ws) && (more != [] ==> !IsSpace(more[0]))
    ensures Blank(ws + more) == |ws|
  {
    if ws == [] {
      assert ws + more == more;
    } else {
      assert (ws + more)[1..] == ws[1..] + more;
      BlankOf(ws[1..], more);
    }
  }

  lemma NextOf(ws: seq<byte>, c: byte, more: seq<byte>)
    requires Spaces(ws) && !IsSpace(c)
    ensures var s := ws + [c] + more;
      && Blank(s) == |ws| && Next(s, c) && Past(s) == more && s[..Blank(s)] == ws
      && forall d :: d != c ==> !Next(s, d)
  {
    assert ws + [c] + more == ws + ([c] + more);
    BlankOf(ws, [c] + more);
  }

  lemma SplitNext(s: seq<byte>, c: byte)
    requires Next(s, c)
    ensures s == s[..Blank(s)] + [c] + Past(s)
  {
  }

  lemma {:induction false} DigitRunOf(digits: seq<byte>, more: seq<byte>)
    requires AllDigits(digits) && (more != [] ==> !IsDigit(more[0]))
    ensures DigitRun(digits + more) == |digits|
  {
    if digits == [] {
      assert digits + more == more;
    } else {
      assert (digits + more)[1..] == digits[1..] + more;
      DigitRunOf(digits[1..], more);
    }
  }

  /** Quotes or brackets around a body, however the concatenation is grouped. */
  lemma Enclosed(ws: seq<byte>, open: byte, body: seq<byte>, close: byte, rest: seq<byte>)
    ensures ws + [open] + (body + [close] + rest) == (ws + ([open] + body + [close])) + rest
  {
  }

  /** What may come after a number. */
  predicate Follows(more: seq<byte>) {
    more != [] ==> !IsDigit(more[0]) && more[0] !in ".eE"
  }

  lemma StringSound(s: seq<byte>)
    requires ReadString(s).Got?
    ensures ValueOk(ReadString(s).value, Text) && s == WrittenValue(ReadString(s).value) + ReadString(s).rest
  {
    hide Blank, Past, ReadText, Written;
    SplitNext(s, '"');
    TextSound(Past(s));
    var v, r := ReadString(s).value, ReadString(s).rest;
    Enclosed(v.ws, '"', Written(v.text), '"', r);
  }

  lemma NumberSound(s: seq<byte>)
    requires ReadNumber(s).Got?
    ensures ValueOk(ReadNumber(s).value, Number) && s == WrittenValue(ReadNumber(s).value) + ReadNumber(s).rest
  {
  }

  lemma {:induction false} ReadSound(shape: Shape, s: seq<byte>)
    requires Read(shape, s).Got?
    ensures ValueOk(Read(shape, s).value, shape) && s == WrittenValue(Read(shape, s).value) + Read(shape, s).rest
    decreases |s|, 1
  {
    hide Blank, Next, Past, ReadString, ReadNumber, Spaces;
    match shape
    case Text => StringSound(s);
    case Number => NumberSound(s);
    case ListOf(of) => ListSound(of, s);
  }

  lemma {:induction false} ListSound(of: Shape, s: seq<byte>)
    requires Read(ListOf(of), s).Got?
    ensures var v := Read(ListOf(of), s).value; ValueOk(v, ListOf(of)) && s == WrittenValue(v) + Read(ListOf(of), s).rest
    decreases |s|, 0
  {
    hide Blank, Past, Next, ReadElements, WrittenElements, ElementsOk, Spaces;
    SplitNext(s, '[');
    var v, r := Read(ListOf(of), s).value, Read(ListOf(of), s).rest;
    BlankIsSpaces(s);
    if Next(Past(s), ']') {
      SplitNext(Past(s), ']');
      BlankIsSpaces(Past(s));
      Enclosed(v.ws, '[', v.inner, ']', r);
    } else {
      ElementsSound(of, Past(s));
      Enclosed(v.ws, '[', WrittenElements(v.elements), ']', r);
    }
  }

  lemma BlankIsSpaces(s: seq<byte>)
    ensures Spaces(s[..Blank(s)])
  {
  }

  lemma {:induction false} ElementsSound(shape: Shape, s: seq<byte>)
    requires ReadElements(shape, s).Got?
    ensures ElementsOk(ReadElements(shape, s).value, shape)
    ensures s == WrittenElements(ReadElements(shape, s).value) + [']'] + ReadElements(shape, s).rest
    decreases |s|, 2
  {
    hide Blank, Past, Next, Read, ValueOk, WrittenValue, Spaces;
    ReadSound(shape, s);
    var v, r := Read(shape, s).value, Read(shape, s).rest;
    BlankIsSpaces(r);
    var after := r[..Blank(r)];
    if Next(r, ',') {
      SplitNext(r, ',');
      ElementsSound(shape, Past(r));
      var es, r2 := ReadElements(shape, Past(r)).value, ReadElements(shape, Past(r)).rest;
      Separated(WrittenValue(v), after, WrittenElements(es), r2);
    } else {
      SplitNext(r, ']');
    }
  }

  lemma Separated(first: seq<byte>, after: seq<byte>, others: seq<byte>, rest: seq<byte>)
    ensures first + (after + [','] + (others + [']'] + rest)) == (first + after + ([','] + others)) + [']'] + rest
  {
  }

  lemma StringComplete(v: Value, more: seq<byte>)
    requires ValueOk(v, Text)
    ensures ReadString(WrittenValue(v) + more) == Got(v, more)
  {
    var t := Written(v.text) + ['"'] + more;
    assert WrittenValue(v) + more == v.ws + ['"'] + t;
    NextOf(v.ws, '"', t);
    TextComplete(v.text, more);
  }

  lemma NumberComplete(v: Value, more: seq<byte>)
    requires ValueOk(v, Number) && Follows(more)
    ensures ReadNumber(WrittenValue(v) + more) == Got(v, more)
  {
    var t := v.digits + more;
    assert WrittenValue(v) + more == v.ws + t;
    assert t[0] == v.digits[0];
    BlankOf(v.ws, t);
    assert (v.ws + t)[|v.ws|..] == t;
    DigitRunOf(v.digits, more);
  }

  lemma {:induction false} ReadComplete(shape: Shape, v: Value, more: seq<byte>)
    requires ValueOk(v, shape) && Follows(more)
    ensures Read(shape, WrittenValue(v) + more) == Got(v, more)
    decreases v, 0
  {
    hide Blank, Past, Next, ReadString, ReadNumber, Spaces, Written, TextOk, DigitsOk;
    match v
    case Str(_, _) => StringComplete(v, more);
    case Num(_, _) => NumberComplete(v, more);
    case Nothing(ws, inner) =>
      assert WrittenValue(v) + more == ws + ['['] + (inner + [']'] + more);
      NextOf(ws, '[', inner + [']'] + more);
      NextOf(inner, ']', more);
    case List(ws, es) =>
      var t := WrittenElements(es) + [']'] + more;
      assert WrittenValue(v) + more == ws + ['['] + t;
      NextOf(ws, '[', t);
      assert ValueOk(es.value, shape.of);
      ElementsStart(es, [']'] + more);
      assert t == WrittenElements(es) + ([']'] + more);
      ElementsComplete(shape.of, es, more);
  }

  /** A value does not start with a closing bracket. */
  lemma ElementsStart(es: Elements, more: seq<byte>)
    requires Spaces(es.value.ws) && (es.value.Num? ==> DigitsOk(es.value.digits))
    ensures !Next(WrittenElements(es) + more, ']')
  {
    var tail := if es.More? then [','] + WrittenElements(es.rest) else [];
    assert WrittenElements(es) + more == WrittenValue(es.value) + (es.after + tail + more);
    ValueStart(es.value, es.after + tail + more);
  }

  lemma ValueStart(v: Value, more: seq<byte>)
    requires Spaces(v.ws) && (v.Num? ==> DigitsOk(v.digits))
    ensures !Next(WrittenValue(v) + more, ']')
  {
    var body := match v
      case Str(_, text) => ['"'] + Written(text) + ['"']
      case Num(_, digits) => digits
      case Nothing(_, inner) => ['['] + inner + [']']
      case List(_, elements) => ['['] + WrittenElements(elements) + [']'];
    var s := WrittenValue(v) + more;
    assert s == v.ws + (body + more);
    assert (body + more)[0] == body[0];
    BlankOf(v.ws, body + more);
    assert s[|v.ws|] == body[0];
  }

  lemma {:induction false} ElementsComplete(shape: Shape, es: Elements, more: seq<byte>)
    requires ElementsOk(es, shape)
    ensures ReadElements(shape, WrittenElements(es) + [']'] + more) == Got(es, more)
    decreases es, 1
  {
    hide Blank, Past, Next, Read, ValueOk, WrittenValue, Spaces;
    var s := WrittenElements(es) + [']'] + more;
    match es
    case Last(v, after) =>
      var t := after + [']'] + more;
      assert s == WrittenValue(v) + t;
      AfterValue(after, ']', more);
      ReadComplete(shape, v, t);
      NextOf(after, ']', more);
    case More(v, after, rest) =>
      var u := WrittenElements(rest) + [']'] + more;
      var t := after + [','] + u;
      assert s == WrittenValue(v) + t;
      AfterValue(after, ',', u);
      ReadComplete(shape, v, t);
      NextOf(after, ',', u);
      ElementsComplete(shape, rest, more);
  }

  lemma AfterValue(after: seq<byte>, c: byte, more: seq<byte>)
    requires Spaces(after) && !IsDigit(c) && c !in ".eE"
    ensures Follows(after + [c] + more)
  {
    if after != [] {
      assert (after + [c] + more)[0] == after[0];
    }
  }

  // ------------------------------------------------------------------ the members of an object

  function ReadMember(k: Key, s: seq<byte>): (r: Got<Value>)
    ensures r.Got? ==> |r.rest| < |s| && ValueOk(r.value, ShapeOf(k)) && Fits(k, r.value)
  {
    match Read(ShapeOf(k), s)
    case Fail => Fail
    case Got(v, r) =>
      ReadSound(ShapeOf(k), s);
      if Fits(k, v) then Got(v, r) else Fail
  }

  /** How the reading of the members ended, and the members read by then. */
  datatype Scan =
    | Broken
    | Refused(seen: map<Key, Value>)
    | Bad(seen: map<Key, Value>)
    | Done(seen: map<Key, Value>, rest: seq<byte>)

  function ScanMembers(s: seq<byte>, seen: map<Key, Value>): (r: Scan)
    requires TableOk(seen)
    ensures !r.Broken? ==> TableOk(r.seen)
    decreases |s|
  {
    match ReadString(s)
    case Fail => Broken
    case Got(name, r) =>
      StringSound(s);
      if |Decoded(name.text)| > MAX_KEY_BYTES || !Next(r, ':') then Broken
      else match KeyOf(Decoded(name.text))
        case None => Refused(seen)
        case Some(k) =>
          if k in seen then Refused(seen)
          else match ReadMember(k, Past(r))
            case Fail => if k in HEAD then Broken else Bad(seen)
            case Got(v, r2) =>
              if Next(r2, ',') then ScanMembers(Past(r2), seen[k := v]) else Done(seen[k := v], r2)
  }

  /** Whether the object ends here and the line with it. */
  predicate Closed(s: seq<byte>) {
    Next(s, '}') && Blank(Past(s)) == |Past(s)|
  }

  function Judge(scan: Scan): Outcome
    requires !scan.Broken? ==> TableOk(scan.seen)
  {
    if scan.Broken? || !(HEAD <= scan.seen.Keys) then Unreadable
    else if scan.Done? && Closed(scan.rest) && scan.seen.Keys == Required(KindIn(scan.seen)) then
      Ok(Meaning(scan.seen))
    else Malformed(KindIn(scan.seen), NumberIn(scan.seen, Gen), NumberIn(scan.seen, Id))
  }

  function Parse(line: seq<byte>): Outcome {
    if |line| > MAX_LINE || !Next(line, '{') || Next(Past(line), '}') then Unreadable
    else Judge(ScanMembers(Past(line), map[]))
  }

  lemma ParseBounds(line: seq<byte>)
    ensures Parse(line).Ok? ==>
      && Parse(line).req.gen <= 9007199254740991 && Parse(line).req.id <= 9007199254740991
      && Parse(line).req.graceMs <= 9007199254740991 && Parse(line).req.timeoutMs <= 9007199254740991
    ensures Parse(line).Malformed? ==> Parse(line).badGen <= 9007199254740991 && Parse(line).badId <= 9007199254740991
  {
    hide ScanMembers;
  }

  // ------------------------------------------------------------------ members read are members written

  /** The name of a member is a known key. */
  predicate NameOk(m: Member) {
    ValueOk(m.key, Text) && Spaces(m.colon) && KeyOf(Decoded(m.key.text)).Some?
  }

  lemma MemberName(m: Member, more: seq<byte>)
    requires NameOk(m)
    ensures var s := WrittenMember(m) + more; var r := m.colon + [':'] + (WrittenValue(m.value) + m.after + more);
      ReadString(s) == Got(m.key, r) && Next(r, ':') && Past(r) == WrittenValue(m.value) + (m.after + more)
      && |Decoded(m.key.text)| <= MAX_KEY_BYTES
  {
    hide WrittenValue, ReadString, Decoded, Next, Past, Blank, ValueOk, KeyOf;
    var v := WrittenValue(m.value) + m.after + more;
    assert WrittenMember(m) + more == WrittenValue(m.key) + (m.colon + [':'] + v);
    StringComplete(m.key, m.colon + [':'] + v);
    NextOf(m.colon, ':', v);
    assert v == WrittenValue(m.value) + (m.after + more);
    KeyShort(m);
  }

  lemma KeyShort(m: Member)
    requires NameOk(m)
    ensures |Decoded(m.key.text)| <= MAX_KEY_BYTES
  {
    hide Decoded;
    KeysAreShort(Decoded(m.key.text));
  }

  /** Reading one member that is well formed and new. */
  lemma ScanOne(m: Member, more: seq<byte>, seen: map<Key, Value>)
    requires TableOk(seen) && MemberOk(m) && KeyIn(m) !in seen && Follows(m.after + more)
    ensures TableOk(seen[KeyIn(m) := m.value])
    ensures var r := m.after + more;
      ScanMembers(WrittenMember(m) + more, seen) ==
        if Next(r, ',') then ScanMembers(Past(r), seen[KeyIn(m) := m.value])
        else Done(seen[KeyIn(m) := m.value], r)
  {
    hide WrittenMember, Next, Past, ReadString, Read, Decoded, Fits, KeyOf, ValueOk;
    MemberName(m, more);
    ReadComplete(ShapeOf(KeyIn(m)), m.value, m.after + more);
  }

  lemma ScanComma(m: Member, more: seq<byte>, seen: map<Key, Value>)
    requires TableOk(seen) && MemberOk(m) && KeyIn(m) !in seen
    ensures TableOk(seen[KeyIn(m) := m.value])
    ensures ScanMembers(WrittenMember(m) + [','] + more, seen) == ScanMembers(more, seen[KeyIn(m) := m.value])
  {
    hide ScanMembers, WrittenMember, MemberOk, KeyIn;
    assert Spaces(m.after) by { AfterSpaces(m); }
    AfterValue(m.after, ',', more);
    NextOf(m.after, ',', more);
    assert m.after + ([','] + more) == m.after + [','] + more;
    assert WrittenMember(m) + ([','] + more) == WrittenMember(m) + [','] + more;
    ScanOne(m, [','] + more, seen);
  }

  lemma AfterSpaces(m: Member)
    requires MemberOk(m)
    ensures Spaces(m.after)
  {
  }

  lemma ScanEnd(m: Member, more: seq<byte>, seen: map<Key, Value>)
    requires TableOk(seen) && MemberOk(m) && KeyIn(m) !in seen
    ensures TableOk(seen[KeyIn(m) := m.value])
    ensures ScanMembers(WrittenMember(m) + ['}'] + more, seen)
      == Done(seen[KeyIn(m) := m.value], m.after + ['}'] + more)
  {
    hide ScanMembers, WrittenMember, MemberOk, KeyIn;
    assert Spaces(m.after) by { AfterSpaces(m); }
    AfterValue(m.after, '}', more);
    NextOf(m.after, '}', more);
    assert m.after + (['}'] + more) == m.after + ['}'] + more;
    assert WrittenMember(m) + (['}'] + more) == WrittenMember(m) + ['}'] + more;
    ScanOne(m, ['}'] + more, seen);
  }

  /** Members whose keys are new. */
  ghost predicate NewKeys(ms: seq<Member>, seen: map<Key, Value>)
    requires MembersOk(ms)
  {
    forall i :: 0 <= i < |ms| ==> KeyIn(ms[i]) !in seen
  }

  lemma RestIsNew(ms: seq<Member>, seen: map<Key, Value>)
    requires MembersOk(ms) && ms != [] && TableOk(seen) && NewKeys(ms, seen)
    ensures MembersOk(ms[1..]) && TableOk(seen[KeyIn(ms[0]) := ms[0].value])
    ensures NewKeys(ms[1..], seen[KeyIn(ms[0]) := ms[0].value])
  {
    hide MemberOk, KeyIn, ValueOk, Fits;
    assert forall i :: 0 <= i < |ms| - 1 ==> ms[1..][i] == ms[i + 1];
    FitsIn(ms[0]);
  }

  lemma TableFromFront(ms: seq<Member>, seen: map<Key, Value>)
    requires MembersOk(ms) && ms != [] && TableOk(seen) && NewKeys(ms, seen)
    ensures MembersOk(ms[1..]) && TableOk(seen[KeyIn(ms[0]) := ms[0].value])
    ensures NewKeys(ms[1..], seen[KeyIn(ms[0]) := ms[0].value])
    ensures seen[KeyIn(ms[0]) := ms[0].value] + Table(ms[1..]) == seen + Table(ms)
  {
    hide MemberOk, KeyIn, Table, TableOk, NewKeys;
    RestIsNew(ms, seen);
    TableFirst(ms);
  }

  lemma MergeOk(a: map<Key, Value>, b: map<Key, Value>)
    requires TableOk(a) && TableOk(b)
    ensures TableOk(a + b)
  {
  }

  lemma OneMember(ms: seq<Member>)
    requires MembersOk(ms) && ms != []
    ensures MemberOk(ms[0])
    ensures forall seen: map<Key, Value> :: NewKeys(ms, seen) ==> KeyIn(ms[0]) !in seen
  {
  }

  lemma WrittenFromFront(ms: seq<Member>, c: byte, more: seq<byte>)
    requires ms != []
    ensures WrittenMembers(ms) + [c] + more ==
      if |ms| == 1 then WrittenMember(ms[0]) + [c] + more
      else WrittenMember(ms[0]) + [','] + (WrittenMembers(ms[1..]) + [c] + more)
  {
    hide WrittenMember;
    if |ms| == 1 {
      assert WrittenMembers(ms) == WrittenMember(ms[0]);
    } else {
      Regroup(WrittenMember(ms[0]), WrittenMembers(ms[1..]), c, more);
    }
  }

  lemma Regroup(first: seq<byte>, others: seq<byte>, c: byte, more: seq<byte>)
    ensures first + ([','] + others) + [c] + more == first + [','] + (others + [c] + more)
  {
  }

  /** A written list of members followed by a comma is read as those members, and reading goes on. */
  lemma {:induction false} ScanList(ms: seq<Member>, more: seq<byte>, seen: map<Key, Value>)
    requires MembersOk(ms) && ms != [] && TableOk(seen) && NewKeys(ms, seen)
    ensures TableOk(seen + Table(ms))
    ensures ScanMembers(WrittenMembers(ms) + [','] + more, seen) == ScanMembers(more, seen + Table(ms))
    decreases |ms|
  {
    hide ScanMembers, MemberOk, KeyIn, Table, WrittenMembers, TableOk, NewKeys, MembersOk;
    OneMember(ms);
    TableHolds(ms);
    TableFromFront(ms, seen);
    WrittenFromFront(ms, ',', more);
    MergeOk(seen, Table(ms));
    if |ms| == 1 {
      EmptyTable(seen[KeyIn(ms[0]) := ms[0].value], ms[1..]);
      ScanComma(ms[0], more, seen);
    } else {
      var t := WrittenMembers(ms[1..]) + [','] + more;
      ScanComma(ms[0], t, seen);
      ScanList(ms[1..], more, seen[KeyIn(ms[0]) := ms[0].value]);
    }
  }

  lemma EmptyTable(t: map<Key, Value>, ms: seq<Member>)
    requires ms == []
    ensures MembersOk(ms) && t + Table(ms) == t
  {
  }

  /** A written list of members followed by the closing brace is read as those members. */
  lemma {:induction false} ScanWhole(ms: seq<Member>, more: seq<byte>, seen: map<Key, Value>)
    requires MembersOk(ms) && ms != [] && TableOk(seen) && NewKeys(ms, seen)
    ensures TableOk(seen + Table(ms))
    ensures ScanMembers(WrittenMembers(ms) + ['}'] + more, seen)
      == Done(seen + Table(ms), ms[|ms| - 1].after + ['}'] + more)
    decreases |ms|
  {
    hide ScanMembers, MemberOk, KeyIn, Table, WrittenMembers, TableOk, NewKeys, MembersOk;
    OneMember(ms);
    TableHolds(ms);
    TableFromFront(ms, seen);
    WrittenFromFront(ms, '}', more);
    MergeOk(seen, Table(ms));
    if |ms| == 1 {
      EmptyTable(seen[KeyIn(ms[0]) := ms[0].value], ms[1..]);
      ScanEnd(ms[0], more, seen);
    } else {
      var t := WrittenMembers(ms[1..]) + ['}'] + more;
      ScanComma(ms[0], t, seen);
      ScanWhole(ms[1..], more, seen[KeyIn(ms[0]) := ms[0].value]);
    }
  }
}
