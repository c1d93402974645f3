/** UTF-8 as section 3 of RFC 3629 defines it, and the strict decoder its syntax (section 4) describes. */
module Unicode {
  import opened Base

  /** A Unicode scalar value: a code point that is no surrogate. */
  type scalar = u: nat | u < 0xD800 || 0xE000 <= u < 0x110000

  function Byte(n: nat): byte
    requires n < 256
  {
    n as char
  }

  function Encode(u: scalar): (bs: seq<byte>)
    ensures 1 <= |bs| <= 4
    ensures u != 0 ==> '\0' !in bs
  {
    if u < 0x80 then [Byte(u)]
    else if u < 0x800 then [Byte(0xC0 + u / 64), Byte(0x80 + u % 64)]
    else if u < 0x10000 then [Byte(0xE0 + u / 4096), Byte(0x80 + u / 64 % 64), Byte(0x80 + u % 64)]
    else
      [Byte(0xF0 + u / 262144), Byte(0x80 + u / 4096 % 64), Byte(0x80 + u / 64 % 64), Byte(0x80 + u % 64)]
  }

  function EncodeAll(us: seq<scalar>): seq<byte> {
    if us == [] then [] else Encode(us[0]) + EncodeAll(us[1..])
  }

  /** Whether a continuation byte stands at a position, within the given range. */
  predicate TailAt(bs: seq<byte>, i: nat, low: nat, high: nat) {
    i < |bs| && low <= bs[i] as int <= high
  }

  /** How many bytes the first character of a well-formed sequence takes; 0 when none starts here. */
  function Width(bs: seq<byte>): (n: nat)
    ensures n <= |bs| && n <= 4
  {
    if bs == [] then 0 else
    var b := bs[0] as int;
    if b < 0x80 then 1
    else if 0xC2 <= b <= 0xDF && TailAt(bs, 1, 0x80, 0xBF) then 2
    else if 0xE0 <= b <= 0xEF && TailAt(bs, 1, if b == 0xE0 then 0xA0 else 0x80, if b == 0xED then 0x9F else 0xBF)
            && TailAt(bs, 2, 0x80, 0xBF) then 3
    else if 0xF0 <= b <= 0xF4 && TailAt(bs, 1, if b == 0xF0 then 0x90 else 0x80, if b == 0xF4 then 0x8F else 0xBF)
            && TailAt(bs, 2, 0x80, 0xBF) && TailAt(bs, 3, 0x80, 0xBF) then 4
    else 0
  }

  function First(bs: seq<byte>): scalar
    requires Width(bs) > 0
  {
    var n := Width(bs);
    if n == 1 then bs[0] as int
    else if n == 2 then (bs[0] as int - 0xC0) * 64 + (bs[1] as int - 0x80)
    else if n == 3 then (bs[0] as int - 0xE0) * 4096 + (bs[1] as int - 0x80) * 64 + (bs[2] as int - 0x80)
    else
      (bs[0] as int - 0xF0) * 262144 + (bs[1] as int - 0x80) * 4096
      + (bs[2] as int - 0x80) * 64 + (bs[3] as int - 0x80)
  }

  function Decode(bs: seq<byte>): Option<seq<scalar>> {
    if bs == [] then Some([])
    else if Width(bs) == 0 then None
    else match Decode(bs[Width(bs)..])
      case None => None
      case Some(us) => Some([First(bs)] + us)
  }

  /** Six-bit groups put together and taken apart. */
  lemma Groups(a: nat, b: nat, c: nat, d: nat)
    requires b < 64 && c < 64 && d < 64
    ensures var u := a * 262144 + b * 4096 + c * 64 + d;
      u / 262144 == a && u / 4096 % 64 == b && u / 64 % 64 == c && u % 64 == d
      && u / 4096 == a * 64 + b && u / 64 == a * 4096 + b * 64 + c
  {
    var u := a * 262144 + b * 4096 + c * 64 + d;
    assert u / 64 == a * 4096 + b * 64 + c;
    assert u / 4096 == a * 64 + b;
  }

  lemma Regroup(u: nat)
    ensures u == u / 262144 * 262144 + u / 4096 % 64 * 4096 + u / 64 % 64 * 64 + u % 64
    ensures u / 4096 == u / 262144 * 64 + u / 4096 % 64
    ensures u / 64 == u / 4096 * 64 + u / 64 % 64
  {
    assert u / 4096 == u / 64 / 64;
    assert u / 262144 == u / 4096 / 64;
  }

  lemma FirstOfEncoded(u: scalar, more: seq<byte>)
    ensures Width(Encode(u) + more) == |Encode(u)|
    ensures First(Encode(u) + more) == u
  {
    Regroup(u);
    var bs := Encode(u) + more;
    var n := |Encode(u)|;
    assert bs[..n] == Encode(u);
    if n == 2 {
      assert bs[0] == Encode(u)[0] && bs[1] == Encode(u)[1];
    } else if n == 3 {
      assert bs[0] == Encode(u)[0] && bs[1] == Encode(u)[1] && bs[2] == Encode(u)[2];
    } else if n == 4 {
      assert bs[0] == Encode(u)[0] && bs[1] == Encode(u)[1] && bs[2] == Encode(u)[2] && bs[3] == Encode(u)[3];
    }
  }

  lemma EncodedFirst(bs: seq<byte>)
    requires Width(bs) > 0
    ensures Encode(First(bs)) == bs[..Width(bs)]
  {
    if Width(bs) == 2 {
      Groups(0, 0, bs[0] as int - 0xC0, bs[1] as int - 0x80);
    } else if Width(bs) == 3 {
      Groups(0, bs[0] as int - 0xE0, bs[1] as int - 0x80, bs[2] as int - 0x80);
    } else if Width(bs) == 4 {
      Groups(bs[0] as int - 0xF0, bs[1] as int - 0x80, bs[2] as int - 0x80, bs[3] as int - 0x80);
    }
  }

  /** The encoding loses nothing. */
  lemma {:induction false} DecodeEncodes(us: seq<scalar>)
    ensures Decode(EncodeAll(us)) == Some(us)
  {
    hide Width, First, Encode;
    if us != [] {
      FirstOfEncoded(us[0], EncodeAll(us[1..]));
      DecodeEncodes(us[1..]);
      assert EncodeAll(us)[|Encode(us[0])|..] == EncodeAll(us[1..]);
      assert us == [us[0]] + us[1..];
    }
  }

  /** Only encodings are decoded: nothing overlong, no surrogate. */
  lemma {:induction false} DecodedIsEncoding(bs: seq<byte>)
    requires Decode(bs).Some?
    ensures EncodeAll(Decode(bs).value) == bs
  {
    hide Width, First, Encode;
    if bs != [] {
      EncodedFirst(bs);
      DecodedIsEncoding(bs[Width(bs)..]);
      assert bs == bs[..Width(bs)] + bs[Width(bs)..];
    }
  }
}
