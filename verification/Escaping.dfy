/** String literals: every escaped form of a string decodes to its UTF-8 bytes, and what has none is rejected. */
module Escaping {
  import opened Base
  import opened Unicode
  import opened Grammar
  import opened Recognizer

  function RawPieces(bs: seq<byte>): seq<Piece> {
    seq(|bs|, i requires 0 <= i < |bs| => Raw(bs[i]))
  }

  /** The ways to write one scalar: its own bytes, a short escape, a \u escape, or a surrogate pair. */
  predicate SpellsOne(ps: seq<Piece>, u: scalar) {
    && TextOk(ps)
    && (ps == RawPieces(Encode(u)) || (|ps| == 1 &&
       match ps[0]
       case Raw(_) => false
       case Short(e) => ShortValue(e) as int == u
       case Unit(h) => HexValue(h) == u
       case Pair(hi, lo) => Combine(HexValue(hi), HexValue(lo)) == u))
  }

  predicate Spells(groups: seq<seq<Piece>>, us: seq<scalar>) {
    |groups| == |us| && forall i :: 0 <= i < |us| ==> SpellsOne(groups[i], us[i])
  }

  function Joined(groups: seq<seq<Piece>>): seq<Piece> {
    if groups == [] then [] else groups[0] + Joined(groups[1..])
  }

  lemma {:induction false} DecodedAppend(a: seq<Piece>, b: seq<Piece>)
    requires TextOk(a) && TextOk(b)
    ensures TextOk(a + b) && Decoded(a + b) == Decoded(a) + Decoded(b)
  {
    hide DecodedPiece, PieceOk, Written, WrittenPiece;
    if a == [] {
      assert a + b == b;
    } else {
      assert (a + b)[0] == a[0] && (a + b)[1..] == a[1..] + b;
      DecodedAppend(a[1..], b);
      var first, more, rest := DecodedPiece(a[0]), Decoded(a[1..]), Decoded(b);
      assert first + (more + rest) == first + more + rest;
    }
  }

  lemma {:induction false} RawDecoded(bs: seq<byte>)
    requires TextOk(RawPieces(bs))
    ensures Decoded(RawPieces(bs)) == bs
  {
    if bs != [] {
      assert RawPieces(bs)[1..] == RawPieces(bs[1..]);
      RawDecoded(bs[1..]);
      assert bs == [bs[0]] + bs[1..];
    }
  }

  lemma OneDecoded(ps: seq<Piece>, u: scalar)
    requires SpellsOne(ps, u)
    ensures Decoded(ps) == Encode(u)
  {
    if ps == RawPieces(Encode(u)) {
      RawDecoded(Encode(u));
    } else {
      assert Decoded(ps) == DecodedPiece(ps[0]) + Decoded(ps[1..]);
      assert Decoded(ps[1..]) == [];
      if ps[0].Short? {
        ShortIsAscii(ps[0].e);
      }
    }
  }

  lemma ShortIsAscii(e: byte)
    requires IsShort(e)
    ensures ShortValue(e) as int < 0x80 && Encode(ShortValue(e) as int) == [ShortValue(e)]
  {
    var i :| 0 <= i < 8 && "\"\\/bfnrt"[i] == e;
  }

  lemma {:induction false} AllDecoded(groups: seq<seq<Piece>>, us: seq<scalar>)
    requires Spells(groups, us)
    ensures TextOk(Joined(groups)) && Decoded(Joined(groups)) == EncodeAll(us)
  {
    hide SpellsOne, Encode, Decoded;
    if us == [] {
      EmptyDecoded();
    } else {
      assert TextOk(groups[0]) by { SpelledOk(groups[0], us[0]); }
      OneDecoded(groups[0], us[0]);
      AllDecoded(groups[1..], us[1..]);
      DecodedAppend(groups[0], Joined(groups[1..]));
    }
  }

  lemma EmptyDecoded()
    ensures TextOk([]) && Decoded([]) == []
  {
  }

  lemma SpelledOk(ps: seq<Piece>, u: scalar)
    requires SpellsOne(ps, u)
    ensures TextOk(ps)
  {
  }

  /** Whichever way a string is escaped, the literal is read and stands for the string's UTF-8 encoding. */
  lemma DecodingInvertsEscaping(ws: seq<byte>, groups: seq<seq<Piece>>, us: seq<scalar>, more: seq<byte>)
    requires Spaces(ws) && Spells(groups, us)
    ensures var r := ReadString(ws + ['"'] + Written(Joined(groups)) + ['"'] + more);
      && r.Got? && r.rest == more && TextOk(r.value.text)
      && Decode(Decoded(r.value.text)) == Some(us) && Decoded(r.value.text) == EncodeAll(us)
      && '\0' !in Decoded(r.value.text)
  {
    hide Spells, EncodeAll, Decode, Written, Decoded, ReadString;
    AllDecoded(groups, us);
    DecodeEncodes(us);
    var v := Str(ws, Joined(groups));
    assert ws + ['"'] + Written(v.text) + ['"'] + more == WrittenValue(v) + more;
    StringComplete(v, more);
  }

  // ------------------------------------------------------------------ an escaped form always exists

  function HexChar(n: nat): (c: byte)
    requires n < 16
    ensures IsHex(c) && HexDigit(c) == n
  {
    if n < 10 then Byte('0' as int + n) else Byte('a' as int + n - 10)
  }

  lemma Nibbles(v: nat)
    requires v < 0x10000
    ensures v / 4096 < 16
    ensures ((v / 4096 * 16 + v / 256 % 16) * 16 + v / 16 % 16) * 16 + v % 16 == v
  {
    assert v / 256 == v / 16 / 16;
    assert v / 4096 == v / 256 / 16;
  }

  function HexOf(v: nat): (h: Hex)
    requires v < 0x10000
    ensures HexOk(h) && HexValue(h) == v
  {
    Nibbles(v);
    Hex(HexChar(v / 4096), HexChar(v / 256 % 16), HexChar(v / 16 % 16), HexChar(v % 16))
  }

  function Escaped(u: scalar): Piece
    requires u != 0
  {
    if u < 0x10000 then Unit(HexOf(u))
    else Pair(HexOf(0xD800 + (u - 0x10000) / 1024), HexOf(0xDC00 + (u - 0x10000) % 1024))
  }

  /** Every scalar but NUL has an all-ASCII form. */
  lemma EscapedSpells(u: scalar)
    requires u != 0
    ensures SpellsOne([Escaped(u)], u)
  {
  }

  // ------------------------------------------------------------------ the same, byte by byte

  /** A hexadecimal digit, in either case. */
  predicate HexIs(c: byte, d: nat) {
    d < 16 && (c == "0123456789abcdef"[d] || c == "0123456789ABCDEF"[d])
  }

  predicate UnitSpelled(bs: seq<byte>, v: nat) {
    && |bs| == 6 && v < 0x10000 && bs[0] == '\\' && bs[1] == 'u'
    && HexIs(bs[2], v / 4096) && HexIs(bs[3], v / 256 % 16) && HexIs(bs[4], v / 16 % 16) && HexIs(bs[5], v % 16)
  }

  predicate ShortSpelled(bs: seq<byte>, u: nat) {
    || (u == 0x22 && bs == "\\\"") || (u == 0x5C && bs == "\\\\") || (u == 0x2F && bs == "\\/")
    || (u == 0x08 && bs == "\\b") || (u == 0x0C && bs == "\\f") || (u == 0x0A && bs == "\\n")
    || (u == 0x0D && bs == "\\r") || (u == 0x09 && bs == "\\t")
  }

  predicate PairSpelled(bs: seq<byte>, u: scalar) {
    && u >= 0x10000 && |bs| == 12 && UnitSpelled(bs[..6], 0xD800 + (u - 0x10000) / 1024)
    && UnitSpelled(bs[6..], 0xDC00 + (u - 0x10000) % 1024)
  }

  /** The ways section 7 of RFC 8259 gives to write a character other than NUL, as bytes. */
  predicate SpelledAs(bs: seq<byte>, u: scalar) {
    || (u >= 0x20 && u != 0x22 && u != 0x5C && bs == Encode(u))
    || ShortSpelled(bs, u) || (0 < u < 0x10000 && UnitSpelled(bs, u)) || PairSpelled(bs, u)
  }

  lemma HexIsDigit(c: byte, d: nat)
    requires HexIs(c, d)
    ensures IsHex(c) && HexDigit(c) == d
  {
  }

  lemma UnitRead(bs: seq<byte>, v: nat) returns (h: Hex)
    requires UnitSpelled(bs, v)
    ensures HexOk(h) && HexValue(h) == v && WrittenHex(h) == bs
  {
    hide HexIs, HexDigit;
    HexIsDigit(bs[2], v / 4096);
    HexIsDigit(bs[3], v / 256 % 16);
    HexIsDigit(bs[4], v / 16 % 16);
    HexIsDigit(bs[5], v % 16);
    Nibbles(v);
    h := Hex(bs[2], bs[3], bs[4], bs[5]);
  }

  lemma OnePiece(p: Piece)
    ensures Written([p]) == WrittenPiece(p)
  {
    assert [p][1..] == [];
  }

  lemma {:induction false} RawBytes(bs: seq<byte>)
    ensures Written(RawPieces(bs)) == bs
  {
    if bs != [] {
      assert RawPieces(bs)[1..] == RawPieces(bs[1..]);
      RawBytes(bs[1..]);
      assert bs == [bs[0]] + bs[1..];
    }
  }

  lemma EncodedStandsForItself(u: scalar)
    requires u >= 0x20 && u != 0x22 && u != 0x5C
    ensures TextOk(RawPieces(Encode(u)))
  {
  }

  lemma ShortIsWritten(bs: seq<byte>, u: scalar)
    requires ShortSpelled(bs, u)
    ensures |bs| == 2 && SpellsOne([Short(bs[1])], u) && Written([Short(bs[1])]) == bs
  {
    OnePiece(Short(bs[1]));
  }

  lemma UnitIsWritten(bs: seq<byte>, u: scalar) returns (ps: seq<Piece>)
    requires 0 < u < 0x10000 && UnitSpelled(bs, u)
    ensures SpellsOne(ps, u) && Written(ps) == bs
  {
    hide UnitSpelled, HexValue, Encode;
    var h := UnitRead(bs, u);
    ps := [Unit(h)];
    OnePiece(ps[0]);
  }

  lemma PairIsWritten(bs: seq<byte>, u: scalar) returns (ps: seq<Piece>)
    requires PairSpelled(bs, u)
    ensures SpellsOne(ps, u) && Written(ps) == bs
  {
    hide UnitSpelled, HexValue, Encode;
    var hi := UnitRead(bs[..6], 0xD800 + (u - 0x10000) / 1024);
    var lo := UnitRead(bs[6..], 0xDC00 + (u - 0x10000) % 1024);
    ps := [Pair(hi, lo)];
    OnePiece(ps[0]);
    assert bs == bs[..6] + bs[6..];
  }

  lemma SpelledIsWritten(bs: seq<byte>, u: scalar) returns (ps: seq<Piece>)
    requires SpelledAs(bs, u)
    ensures SpellsOne(ps, u) && Written(ps) == bs
  {
    hide ShortSpelled, UnitSpelled, PairSpelled, Encode, Written;
    if ShortSpelled(bs, u) {
      ShortIsWritten(bs, u);
      ps := [Short(bs[1])];
    } else if PairSpelled(bs, u) {
      ps := PairIsWritten(bs, u);
    } else if 0 < u < 0x10000 && UnitSpelled(bs, u) {
      ps := UnitIsWritten(bs, u);
    } else {
      ps := RawPieces(bs);
      EncodedStandsForItself(u);
      RawBytes(bs);
    }
  }

  function Concat(texts: seq<seq<byte>>): seq<byte> {
    if texts == [] then [] else texts[0] + Concat(texts[1..])
  }

  lemma {:induction false} WrittenTwice(a: seq<Piece>, b: seq<Piece>)
    ensures Written(a + b) == Written(a) + Written(b)
  {
    hide WrittenPiece;
    if a == [] {
      assert a + b == b;
    } else {
      assert (a + b)[0] == a[0] && (a + b)[1..] == a[1..] + b;
      WrittenTwice(a[1..], b);
    }
  }

  lemma {:induction false} AllWritten(texts: seq<seq<byte>>, us: seq<scalar>) returns (groups: seq<seq<Piece>>)
    requires |texts| == |us| && forall i :: 0 <= i < |us| ==> SpelledAs(texts[i], us[i])
    ensures Spells(groups, us) && Written(Joined(groups)) == Concat(texts)
    decreases |us|
  {
    hide SpelledAs, SpellsOne, Written;
    if us == [] {
      groups := [];
      NoneWritten();
    } else {
      var ps := SpelledIsWritten(texts[0], us[0]);
      var rest := AllWritten(texts[1..], us[1..]);
      groups := [ps] + rest;
      assert groups[1..] == rest;
      WrittenTwice(ps, Joined(rest));
    }
  }

  lemma NoneWritten()
    ensures Written([]) == []
  {
  }

  /**
   Whichever way RFC 8259 gives a string is escaped, and whatever white space comes before it, the
   literal is read and stands for the string's UTF-8 encoding.
   */
  lemma DecodingInvertsSpelling(ws: seq<byte>, texts: seq<seq<byte>>, us: seq<scalar>, more: seq<byte>)
    requires forall i :: 0 <= i < |ws| ==> ws[i] in {' ', '\t', '\r', '\n'}
    requires |texts| == |us| && forall i :: 0 <= i < |us| ==> SpelledAs(texts[i], us[i])
    ensures var r := ReadString(ws + ['"'] + Concat(texts) + ['"'] + more);
      r.Got? && r.rest == more && TextOk(r.value.text) && Decoded(r.value.text) == EncodeAll(us)
  {
    hide Spells, EncodeAll, Decode, Written, Decoded, ReadString, SpelledAs;
    var groups := AllWritten(texts, us);
    DecodingInvertsEscaping(ws, groups, us, more);
  }

  // ------------------------------------------------------------------ what has no decoding

  lemma {:induction false} BadPiece(text: seq<Piece>, s: seq<byte>)
    requires TextOk(text) && s != [] && s[0] != '"' && ReadPiece(s).Fail?
    ensures ReadText(Written(text) + s).Fail?
  {
    hide ReadPiece, WrittenPiece, PieceOk;
    if text == [] {
      assert Written(text) + s == s;
    } else {
      var rest := Written(text[1..]) + s;
      assert Written(text) + s == WrittenPiece(text[0]) + rest;
      PieceComplete(text[0], rest);
      BadPiece(text[1..], s);
    }
  }

  /** A low surrogate, or a high one that no low one follows. */
  ghost predicate Lone(h: Hex, more: seq<byte>) {
    HexOk(h) && (IsLow(HexValue(h)) ||
    (IsHigh(HexValue(h)) && forall lo: Hex :: HexOk(lo) && IsLow(HexValue(lo)) ==> !(WrittenHex(lo) <= more)))
  }

  /** No literal with a lone surrogate or an escaped NUL is read, wherever in it that stands. */
  lemma LoneSurrogateRejected(text: seq<Piece>, h: Hex, more: seq<byte>)
    requires TextOk(text) && HexOk(h) && (Lone(h, more) || HexValue(h) == 0)
    ensures ReadText(Written(text) + (WrittenHex(h) + more)).Fail?
  {
    var s := WrittenHex(h) + more;
    assert s[2..][4..] == more;
    if IsHigh(HexValue(h)) && |more| >= 6 && more[0] == '\\' && more[1] == 'u' {
      var lo := Hex(more[2], more[3], more[4], more[5]);
      assert more[..6] == WrittenHex(lo);
      assert more[2..][4..] == more[6..];
    }
    BadPiece(text, s);
  }
}
