/** Decimal numbers as the supervisor prints and parses them. */
module Numbers {
  import opened Base
  import opened Unicode
  import opened Grammar
  import opened Recognizer
  import Parser

  function Digit(d: nat): byte
    requires d < 10
  {
    Byte('0' as int + d)
  }

  /** The decimal form of a number, without leading zeros. */
  function Printed(n: nat): (s: seq<byte>)
    ensures s != [] && AllDigits(s) && Decimal(s) == n
  {
    if n < 10 then [Digit(n)]
    else
      var s := Printed(n / 10) + [Digit(n % 10)];
      assert s[..|s| - 1] == Printed(n / 10);
      s
  }

  lemma {:induction false} NoLeadingZero(n: nat)
    ensures DigitsOk(Printed(n))
    ensures n > 0 ==> Printed(n)[0] != '0'
  {
    if n >= 10 {
      NoLeadingZero(n / 10);
    }
  }

  /** Sixty-four bits take at most twenty digits. */
  lemma {:induction false} PrintedLength(n: nat, k: nat, bound: nat)
    requires 1 <= k && n < bound && bound == Pow10(k)
    ensures |Printed(n)| <= k
  {
    if n >= 10 {
      PrintedLength(n / 10, k - 1, Pow10(k - 1));
    }
  }

  function Pow10(k: nat): nat {
    if k == 0 then 1 else 10 * Pow10(k - 1)
  }

  lemma TwentyDigits(n: nat)
    requires n <= MAX_U64
    ensures |Printed(n)| <= 20
  {
    assert Pow10(5) == 100_000;
    assert Pow10(10) == 10_000_000_000 by { assert Pow10(8) == 100_000_000; }
    assert Pow10(15) == 1_000_000_000_000_000 by { assert Pow10(13) == 10_000_000_000_000; }
    assert Pow10(20) == 100_000_000_000_000_000_000 by { assert Pow10(18) == 1_000_000_000_000_000_000; }
    PrintedLength(n, 20, Pow10(20));
  }

  /** A number has one form without leading zeros. */
  lemma {:induction false} PrintedIsUnique(s: seq<byte>)
    requires DigitsOk(s)
    ensures Printed(Decimal(s)) == s
    decreases |s|
  {
    var front, d := s[..|s| - 1], s[|s| - 1] as int - '0' as int;
    assert s == front + [s[|s| - 1]];
    if front != [] {
      PrintedIsUnique(front);
      NotZero(front);
      assert Decimal(s) == Decimal(front) * 10 + d;
      assert Decimal(s) / 10 == Decimal(front) && Decimal(s) % 10 == d;
    } else {
      assert Decimal(front) == 0;
    }
  }

  lemma {:induction false} NotZero(s: seq<byte>)
    requires s != [] && AllDigits(s) && s[0] != '0'
    ensures Decimal(s) > 0
    decreases |s|
  {
    if |s| > 1 {
      NotZero(s[..|s| - 1]);
    } else {
      assert s[..0] == [];
    }
  }

  /** One sequence is the other in reverse. */
  ghost predicate Mirrored(a: seq<byte>, b: seq<byte>) {
    |a| == |b| && forall j :: 0 <= j < |b| ==> a[|b| - 1 - j] == b[j]
  }

  lemma MirroredMore(a: seq<byte>, b: seq<byte>, d: byte)
    requires Mirrored(a, b)
    ensures Mirrored(a + [d], [d] + b)
  {
  }

  lemma PrintedStep(n: nat, rest: nat, low: seq<byte>)
    requires Printed(n) == Printed(rest) + low
    ensures var more := [Digit(rest % 10)] + low;
      Printed(n) == if rest / 10 == 0 then more else Printed(rest / 10) + more
  {
  }

  /** Collects the digits of a number, the last one first. */
  method CollectDigits(tmp: array<byte>, n: nat) returns (k: nat)
    requires tmp.Length == 20 && n <= MAX_U64
    modifies tmp
    ensures k == |Printed(n)| <= 20 && Mirrored(tmp[..k], Printed(n))
  {
    hide Printed, Mirrored;
    TwentyDigits(n);
    k := 0;
    var rest := n;
    ghost var low: seq<byte> := [];
    assert Mirrored(tmp[..0], low) by { NothingMirrored(); }
    while true
      invariant k == |low| < |Printed(n)| && Mirrored(tmp[..k], low)
      invariant Printed(n) == Printed(rest) + low
      decreases rest
    {
      PrintedStep(n, rest, low);
      MirroredMore(tmp[..k], low, Digit(rest % 10));
      tmp[k] := Digit(rest % 10);
      low := [Digit(rest % 10)] + low;
      k := k + 1;
      assert tmp[..k] == tmp[..k - 1] + [Digit(rest % 10)];
      rest := rest / 10;
      if rest == 0 {
        break;
      }
    }
  }

  lemma NothingMirrored()
    ensures Mirrored([], [])
  {
  }

  /** Writes a number in decimal at an offset and returns how many digits it took. */
  method FormatU64(buf: array<byte>, at: nat, n: nat) returns (k: nat)
    requires n <= MAX_U64 && at + |Printed(n)| <= buf.Length
    modifies buf
    ensures k == |Printed(n)| <= 20
    ensures buf[..at + k] == old(buf[..at]) + Printed(n)
    ensures buf[at + k..] == old(buf[at + k..])
  {
    hide Printed;
    var tmp := new byte[20];
    k := CollectDigits(tmp, n);
    ghost var digits := Printed(n);
    for i := 0 to k
      invariant forall j :: 0 <= j < at ==> buf[j] == old(buf[j])
      invariant forall j :: 0 <= j < i ==> buf[at + j] == digits[j]
      invariant forall j :: at + k <= j < buf.Length ==> buf[j] == old(buf[j])
      invariant Mirrored(tmp[..k], digits)
    {
      assert tmp[..k][k - 1 - i] == digits[i];
      buf[at + i] := tmp[k - 1 - i];
    }
  }

  /** Parses a decimal string; rejects exactly what is no digit string or does not fit sixty-four bits. */
  method ParseU64(s: seq<byte>) returns (ok: bool, v: nat)
    ensures ok <==> s != [] && AllDigits(s) && Decimal(s) <= MAX_U64
    ensures ok ==> v == Decimal(s)
  {
    hide Decimal;
    v := 0;
    if s == [] {
      return false, 0;
    }
    Parser.NoDigits();
    for i := 0 to |s|
      invariant AllDigits(s[..i]) && v == Decimal(s[..i]) <= MAX_U64
    {
      if s[i] < '0' || s[i] > '9' {
        return false, 0;
      }
      var d := s[i] as int - '0' as int;
      NextDigit(s, i);
      if v > (MAX_U64 - d) / 10 {
        if AllDigits(s) {
          Parser.DecimalGrows(s, i + 1);
        }
        return false, 0;
      }
      v := v * 10 + d;
    }
    assert s[..|s|] == s;
    ok := true;
  }

  lemma NextDigit(s: seq<byte>, i: nat)
    requires i < |s| && AllDigits(s[..i]) && IsDigit(s[i])
    ensures AllDigits(s[..i + 1])
    ensures Decimal(s[..i + 1]) == Decimal(s[..i]) * 10 + (s[i] as int - '0' as int)
  {
    assert s[..i + 1][..i] == s[..i];
  }

  /** Printing and parsing back is the identity on every 64-bit value. */
  method PrintThenParse(n: nat) returns (ok: bool, v: nat)
    requires n <= MAX_U64
    ensures ok && v == n
  {
    TwentyDigits(n);
    var buf := new byte[20];
    var k := FormatU64(buf, 0, n);
    assert buf[..k] == Printed(n);
    ok, v := ParseU64(buf[..k]);
  }

  /** A request member that was printed this way is read back, up to the largest integer a request may carry. */
  lemma RequestReadsPrinted(n: nat, more: seq<byte>)
    requires Follows(more)
    ensures ReadNumber(Printed(n) + more) == Got(Num([], Printed(n)), more)
  {
    NoLeadingZero(n);
    NumberComplete(Num([], Printed(n)), more);
    assert WrittenValue(Num([], Printed(n))) == Printed(n);
  }
}
