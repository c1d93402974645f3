/** The parser of request lines as the supervisor runs it: a cursor, and fixed storage for what it decodes. */
module Parser {
  import opened Base
  import opened Messages
  import opened LineReader
  import opened Unicode
  import opened Grammar
  import opened Recognizer
  import opened Decoding
  import opened Storage

  const NUL: byte := '\0'
  const ARGV_SLOTS: nat := MAX_ARGV_TOTAL + MAX_COMMANDS

  class LineParser {
    const line: seq<byte>
    var i: nat
    const arena: array<byte>
    var apos: nat
    const argvStore: array<Option<nat>>
    var argvPos: nat
    var argvTotal: nat
    var kind: Option<RequestType>
    var gen: nat
    var id: nat
    var graceMs: nat
    var timeoutMs: nat
    var ncommands: nat
    const commands: array<nat>
    var prevProvider: Option<nat>
    var prevLeaseId: Option<nat>

    ghost predicate Valid()
      reads this
    {
      && i <= |line| && arena.Length == MAX_LINE + 1 && apos <= MAX_LINE
      && argvStore.Length == ARGV_SLOTS && argvPos <= ARGV_SLOTS
      && commands.Length == MAX_COMMANDS && ncommands <= MAX_COMMANDS
    }

    /** What is left to read. */
    function Left(): seq<byte>
      requires Valid()
      reads this
    {
      line[i..]
    }

    /** What the arena holds. */
    function Stored(): seq<byte>
      requires Valid()
      reads this, arena
    {
      arena[..apos]
    }

    function Slots(): seq<Option<nat>>
      requires Valid()
      reads this, argvStore
    {
      argvStore[..argvPos]
    }

    constructor (line: seq<byte>)
      ensures Valid() && fresh(arena) && fresh(argvStore) && fresh(commands) && this.line == line
      ensures i == 0 && apos == 0 && Fresh()
    {
      this.line := line;
      i, apos, argvPos, argvTotal := 0, 0, 0, 0;
      arena := new byte[MAX_LINE + 1](_ => NUL);
      argvStore := new Option<nat>[ARGV_SLOTS](_ => None);
      kind, gen, id, graceMs, timeoutMs, ncommands := None, 0, 0, 0, 0, 0;
      commands := new nat[MAX_COMMANDS](_ => 0);
      prevProvider, prevLeaseId := None, None;
    }

    /** Nothing has been decoded. */
    ghost predicate Fresh()
      reads this
    {
      && argvPos == 0 && argvTotal == 0 && ncommands == 0 && kind.None? && gen == 0 && id == 0
      && graceMs == 0 && timeoutMs == 0 && prevProvider.None? && prevLeaseId.None?
    }

    method SkipSpace()
      requires Valid()
      modifies this`i
      ensures Valid() && i == old(i) + Blank(old(Left()))
    {
      while i < |line|
        invariant old(i) <= i <= |line|
        invariant Blank(line[old(i)..]) == i - old(i) + Blank(line[i..])
      {
        if !IsSpace(line[i]) {
          break;
        }
        assert line[i..][1..] == line[i + 1..];
        i := i + 1;
      }
    }

    method Expect(c: byte) returns (ok: bool)
      requires Valid()
      modifies this`i
      ensures Valid() && old(i) <= i
      ensures ok <==> Next(old(Left()), c)
      ensures ok ==> old(i) < i && Left() == Past(old(Left()))
    {
      ghost var s := Left();
      SkipSpace();
      if i >= |line| || line[i] != c {
        return false;
      }
      i := i + 1;
      assert line[i..] == s[Blank(s) + 1..];
      return true;
    }

    method Peek(c: byte) returns (there: bool)
      requires Valid()
      modifies this`i
      ensures Valid() && old(i) <= i && Left() == old(Left())[Blank(old(Left()))..]
      ensures there <==> Next(old(Left()), c)
      ensures there ==> i < |line| && line[i + 1..] == Past(old(Left()))
    {
      ghost var s := Left();
      SkipSpace();
      return i < |line| && line[i] == c;
    }

    method Hex4() returns (ok: bool, v: nat)
      requires Valid()
      modifies this`i
      ensures Valid() && old(i) <= i
      ensures ok <==> ReadHex(old(Left())).Got?
      ensures ok ==>
        && i == old(i) + 4 && v == HexValue(ReadHex(old(Left())).value) && Left() == ReadHex(old(Left())).rest
    {
      v := 0;
      if i + 4 > |line| {
        return false, 0;
      }
      ghost var s := Left();
      for k := 0 to 4
        invariant i == old(i) + k && i <= |line|
        invariant forall j :: 0 <= j < k ==> IsHex(s[j])
        invariant k == 1 ==> v == HexDigit(s[0])
        invariant k == 2 ==> v == HexDigit(s[0]) * 16 + HexDigit(s[1])
        invariant k == 3 ==> v == (HexDigit(s[0]) * 16 + HexDigit(s[1])) * 16 + HexDigit(s[2])
        invariant k == 4 ==> v == HexValue(Hex(s[0], s[1], s[2], s[3]))
        invariant k == 0 ==> v == 0
      {
        var c := line[i];
        assert c == s[k];
        i := i + 1;
        v := v * 16;
        if '0' <= c <= '9' {
          v := v + (c as int - '0' as int);
        } else if 'a' <= c <= 'f' {
          v := v + (c as int - 'a' as int + 10);
        } else if 'A' <= c <= 'F' {
          v := v + (c as int - 'A' as int + 10);
        } else {
          return false, 0;
        }
      }
      ok := true;
    }

    method Put(c: byte) returns (ok: bool)
      requires Valid()
      modifies this`apos, arena
      ensures Valid()
      ensures ok <==> old(apos) < MAX_LINE
      ensures ok ==> Stored() == old(Stored()) + [c]
      ensures !ok ==> Stored() == old(Stored())
    {
      if apos >= MAX_LINE {
        return false;
      }
      arena[apos] := c;
      apos := apos + 1;
      return true;
    }

    /** Stores several bytes one after another, as far as the arena has room. */
    method PutAll(bytes: seq<byte>) returns (ok: bool)
      requires Valid()
      modifies this`apos, arena
      ensures Valid()
      ensures ok ==> Stored() == old(Stored()) + bytes
      ensures !ok ==> apos == MAX_LINE && old(Stored()) <= Stored() && apos < old(apos) + |bytes|
    {
      for k := 0 to |bytes|
        invariant Valid()
        invariant Stored() == old(Stored()) + bytes[..k]
      {
        ok := Put(bytes[k]);
        if !ok {
          return;
        }
        assert bytes[..k + 1] == bytes[..k] + [bytes[k]];
      }
      ok := true;
    }

    /** Stores a scalar in UTF-8. */
    method PutUtf8(cp: scalar) returns (ok: bool)
      requires Valid()
      modifies this`apos, arena
      ensures Valid()
      ensures ok ==> Stored() == old(Stored()) + Encode(cp)
      ensures !ok ==> apos == MAX_LINE && old(Stored()) <= Stored() && apos < old(apos) + |Encode(cp)|
    {
      if cp < 0x80 {
        ok := PutAll([Byte(cp)]);
      } else if cp < 0x800 {
        ok := PutAll([Byte(0xC0 + cp / 64), Byte(0x80 + cp % 64)]);
      } else if cp < 0x10000 {
        ok := PutAll([Byte(0xE0 + cp / 4096), Byte(0x80 + cp / 64 % 64), Byte(0x80 + cp % 64)]);
      } else {
        ok := PutAll([Byte(0xF0 + cp / 262144), Byte(0x80 + cp / 4096 % 64), Byte(0x80 + cp / 64 % 64), Byte(0x80 + cp % 64)]);
      }
    }

    /** What a step of the string decoder promises, for the piece its input starts with. */
    twostate predicate Stepped(ok: bool, r: Got<Piece>)
      requires old(Valid()) && Valid()
      reads this, arena
    {
      && old(i) <= i && old(Stored()) <= Stored() && apos - old(apos) <= i - old(i)
      && (ok ==> r.Got? && PieceOk(r.value) && Left() == r.rest && Stored() == old(Stored()) + DecodedPiece(r.value))
      && (!ok ==> r.Fail? || apos == MAX_LINE)
    }

    /** Decodes what follows a backslash and a u. */
    method UnicodeEscape() returns (ok: bool)
      requires Valid()
      modifies this`i, this`apos, arena
      ensures Valid() && Stepped(ok, ReadUnicode(old(Left())))
    {
      hide Encode, HexValue, HexOk;
      var cp;
      ok, cp := Hex4();
      if !ok || IsLow(cp) {
        return false;
      }
      if IsHigh(cp) {
        if i + 2 > |line| || line[i] != '\\' || line[i + 1] != 'u' {
          return false;
        }
        i := i + 2;
        var lo;
        ok, lo := Hex4();
        if !ok || !IsLow(lo) {
          return false;
        }
        cp := Combine(cp, lo);
      }
      if cp == 0 {
        return false;
      }
      ok := PutUtf8(cp);
    }

    /** Decodes one character of a string that is not its closing quote. */
    method Character() returns (ok: bool)
      requires Valid() && i < |line| && line[i] != '"'
      modifies this`i, this`apos, arena
      ensures Valid() && Stepped(ok, ReadPiece(old(Left())))
    {
      hide ReadUnicode, Encode;
      ghost var s := Left();
      var c := line[i];
      i := i + 1;
      if c as int < 0x20 {
        return false;
      }
      if c != '\\' {
        ok := Put(c);
        return;
      }
      if i >= |line| {
        return false;
      }
      var e := line[i];
      i := i + 1;
      if e == 'u' {
        assert Left() == s[2..];
        ok := UnicodeEscape();
      } else if IsShort(e) {
        ok := Put(ShortValue(e));
      } else {
        ok := false;
      }
    }

    /** What a decoded string leaves behind, for what its reader makes of the same input. */
    twostate predicate TextStored(ok: bool, at: nat, r: Got<seq<byte>>, max: nat)
      requires old(Valid()) && Valid()
      reads this, arena
    {
      && old(i) <= i && old(Stored()) <= Stored() && apos - old(apos) <= i - old(i)
      && (ok ==>
            && r.Got? && |r.value| <= max && Left() == r.rest && StringIn(Stored(), at, r.value)
            && apos - old(apos) < i - old(i))
      && (!ok ==> r.Fail? || |r.value| > max || apos == MAX_LINE)
    }

    /** Decodes one character of a string of which some bytes were decoded before. */
    method BodyCharacter(ghost body: seq<byte>, ghost acc: seq<byte>) returns (ok: bool, ghost bs: seq<byte>)
      requires Valid() && i < |line| && line[i] != '"' && GotBody(body) == Prepend(acc, GotBody(Left()))
      modifies this`i, this`apos, arena
      ensures Valid() && old(i) <= i && old(Stored()) <= Stored() && apos - old(apos) <= i - old(i)
      ensures ok ==>
        && old(i) < i && Stored() == old(Stored()) + bs && |bs| <= i - old(i)
        && GotBody(body) == Prepend(acc + bs, GotBody(Left()))
      ensures !ok ==> GotBody(body).Fail? || apos == MAX_LINE
    {
      hide GotBody, ReadPiece, DecodedPiece, PieceOk;
      ghost var s := Left();
      BodyEnds(s);
      BodyStep(s);
      bs := [];
      ghost var r := ReadPiece(s);
      ok := Character();
      if ok {
        bs := DecodedPiece(r.value);
        PrependTwice(acc, bs, GotBody(Left()));
      }
    }

    /** Decodes the rest of a string, its closing quote included. */
    method Body(max: nat) returns (ok: bool)
      requires Valid()
      modifies this`i, this`apos, arena
      ensures Valid() && old(i) <= i && old(Stored()) <= Stored() && apos - old(apos) <= i - old(i)
      ensures var r := GotBody(old(Left()));
        && (ok ==>
              && r.Got? && |r.value| <= max && Left() == r.rest && Stored() == old(Stored()) + r.value
              && apos - old(apos) < i - old(i))
        && (!ok ==> r.Fail? || |r.value| > max || apos == MAX_LINE)
    {
      hide GotBody;
      var start := apos;
      ghost var body := Left();
      ghost var acc: seq<byte> := [];
      EmptyFront(GotBody(body));
      while true
        invariant Valid() && start == old(apos) && old(i) <= i && |acc| <= i - old(i) && |acc| <= max
        invariant Stored() == old(Stored()) + acc
        invariant GotBody(body) == Prepend(acc, GotBody(Left()))
        decreases |line| - i
      {
        BodyEnds(Left());
        if i >= |line| {
          return false;
        }
        if line[i] == '"' {
          break;
        }
        ghost var bs;
        ok, bs := BodyCharacter(body, acc);
        if !ok {
          return;
        }
        acc := acc + bs;
        if apos - start > max {
          return false;
        }
      }
      i := i + 1;
      ok := true;
      assert acc + [] == acc;
    }

    /** Decodes a string of at most max bytes into the arena and terminates it. */
    method Text(max: nat) returns (ok: bool, at: nat)
      requires Valid()
      modifies this`i, this`apos, arena
      ensures Valid() && TextStored(ok, at, GotText(old(Left())), max)
    {
      hide GotBody, Next, Past, StringIn;
      at := apos;
      ok := Expect('"');
      if !ok {
        return;
      }
      ok := Body(max);
      if !ok {
        return;
      }
      Terminated(old(Stored()), GotText(old(Left())).value);
      ok := Put(NUL);
    }

    /** Reads digits for as long as their value is in range. */
    method Digits() returns (ok: bool, v: nat)
      requires Valid()
      modifies this`i
      ensures Valid() && old(i) <= i
      ensures var t := old(Left()); var run := DigitRun(t);
        && (ok <==> Decimal(t[..run]) <= MAX_JSON_INT)
        && (ok ==> v == Decimal(t[..run]) && i == old(i) + run)
    {
      hide DigitRun, Decimal;
      ghost var t := Left();
      ghost var run := DigitRun(t);
      NoDigits();
      v := 0;
      while i < |line| && '0' <= line[i] <= '9'
        invariant old(i) <= i <= old(i) + run <= |line|
        invariant v == Decimal(t[..i - old(i)]) <= MAX_JSON_INT
      {
        InRun(t, i - old(i));
        DecimalStep(t, i - old(i));
        DecimalGrows(t[..run], i - old(i) + 1);
        assert t[..run][..i - old(i) + 1] == t[..i - old(i) + 1];
        v := v * 10 + (line[i] as int - '0' as int);
        if v > MAX_JSON_INT {
          return false, 0;
        }
        i := i + 1;
      }
      RunEnds(t, i - old(i));
      ok := true;
    }

    /** Decodes an integer that has no sign, fraction, exponent or leading zero. */
    method Uint() returns (ok: bool, v: nat)
      requires Valid()
      modifies this`i
      ensures Valid() && old(i) <= i
      ensures var r := GotNumber(old(Left()));
        && (ok <==> r.Got? && r.value <= MAX_JSON_INT)
        && (ok ==> v == r.value && Left() == r.rest)
    {
      hide Blank, DigitRun, Decimal, GotNumber, ReadNumber;
      ghost var s := Left();
      v := 0;
      SkipSpace();
      ghost var t := Left();
      assert t == s[Blank(s)..];
      NumberIs(s, t);
      RunStarts(t);
      if i >= |line| || line[i] < '0' || line[i] > '9' {
        return false, 0;
      }
      if line[i] == '0' && i + 1 < |line| && '0' <= line[i + 1] <= '9' {
        return false, 0;
      }
      ok, v := Digits();
      if !ok {
        return;
      }
      if i < |line| && (line[i] == '.' || line[i] == 'e' || line[i] == 'E') {
        return false, 0;
      }
    }

    /** Whether the slots left suffice for every argument the total allows, and one null slot. */
    ghost predicate SlotsLeft()
      reads this
    {
      argvTotal <= MAX_ARGV_TOTAL && argvPos + (MAX_ARGV_TOTAL - argvTotal) < ARGV_SLOTS
    }

    /** Decodes one argument and stores where it lies; what follows it says whether another comes. */
    method Argument(argc: nat, ghost got: seq<seq<byte>>) returns (ok: bool, more: bool)
      requires Valid() && SlotsLeft() && argvPos + argc + (MAX_ARGV_TOTAL - argvTotal) < ARGV_SLOTS
      requires argc == |got| < MAX_ARGS && argvTotal < MAX_ARGV_TOTAL
      requires ArgsIn(argvStore[..], Stored(), argvPos, got)
      modifies this`i, this`apos, this`argvTotal, arena, argvStore
      ensures Valid() && old(i) <= i && old(Stored()) <= Stored() && apos - old(apos) <= i - old(i)
      ensures argvStore[..argvPos] == old(argvStore[..argvPos])
      ensures var g := GotText(old(Left()));
        && (ok ==>
              && g.Got? && |g.value| <= MAX_ARG_BYTES && (argc == 0 ==> g.value != [])
              && more == Next(g.rest, ',') && (more ==> Left() == Past(g.rest))
              && (!more ==> Next(g.rest, ']') && Left() == Past(g.rest))
              && argvTotal == old(argvTotal) + 1 && old(i) < i
              && ArgsIn(argvStore[..], Stored(), argvPos, got + [g.value]))
        && (!ok ==>
              || g.Fail? || |g.value| > MAX_ARG_BYTES || (argc == 0 && g.value == []) || apos == MAX_LINE
              || (!Next(g.rest, ',') && !Next(g.rest, ']')))
    {
      hide GotText, Next, Past, Blank, ArgsIn, StringIn;
      ghost var was, g := Stored(), GotText(Left());
      var str;
      ok, str := Text(MAX_ARG_BYTES);
      if !ok {
        return false, false;
      }
      StringStart(Stored(), str, g.value);
      if argc == 0 && arena[str] == NUL {
        return false, false;
      }
      ArgsAppend(argvStore[..], was, Stored(), argvPos, got, str, g.value);
      argvStore[argvPos + argc] := Some(str);
      argvTotal := argvTotal + 1;
      more := Peek(',');
      if more {
        i := i + 1;
        return true, true;
      }
      NextSkips(g.rest);
      ok := Expect(']');
    }

    /** Decodes the strings of an argument list up to its closing bracket. */
    method Arguments() returns (ok: bool, argc: nat)
      requires Valid() && SlotsLeft()
      modifies this`i, this`apos, this`argvTotal, arena, argvStore
      ensures Valid() && old(i) <= i && old(Stored()) <= Stored() && apos - old(apos) <= i - old(i)
      ensures argvStore[..argvPos] == old(argvStore[..argvPos])
      ensures var r := GotArgs(old(Left()));
        && (ok ==>
              && r.Got? && ArgvFits(r.value) && old(argvTotal) + |r.value| <= MAX_ARGV_TOTAL
              && Left() == r.rest && argc == |r.value| && argvTotal == old(argvTotal) + argc
              && ArgsIn(argvStore[..], Stored(), argvPos, r.value) && argvPos + argc < ARGV_SLOTS)
        && (!ok ==>
              || r.Fail? || !ArgvFits(r.value) || old(argvTotal) + |r.value| > MAX_ARGV_TOTAL || apos == MAX_LINE)
    {
      hide GotArgs, GotText, Next, Past, Blank, ArgsIn, ArgvFits;
      ghost var start := Left();
      ghost var got: seq<seq<byte>> := [];
      argc := 0;
      EmptyFront(GotArgs(start));
      NoArgs(argvStore[..], Stored(), argvPos);
      while true
        invariant Valid() && old(i) <= i && old(Stored()) <= Stored() && apos - old(apos) <= i - old(i)
        invariant argvStore[..argvPos] == old(argvStore[..argvPos])
        invariant argc == |got| && argvTotal == old(argvTotal) + argc <= MAX_ARGV_TOTAL
        invariant ArgsIn(argvStore[..], Stored(), argvPos, got) && PrefixFits(got)
        invariant GotArgs(start) == Prepend(got, GotArgs(Left()))
        decreases |line| - i
      {
        TooManyArgs(got, GotArgs(Left()));
        if argc >= MAX_ARGS || argvTotal >= MAX_ARGV_TOTAL {
          return false, argc;
        }
        ghost var s := Left();
        var more;
        ok, more := Argument(argc, got);
        ArgsStep(got, s);
        if !ok {
          return;
        }
        got := got + [GotText(s).value];
        argc := argc + 1;
        if !more {
          break;
        }
      }
    }

    /** Decodes an argument list: strings, at least one, the first not empty. */
    method Argv() returns (ok: bool, at: nat)
      requires Valid() && SlotsLeft()
      modifies this`i, this`apos, this`argvPos, this`argvTotal, arena, argvStore
      ensures Valid() && old(i) <= i && old(Stored()) <= Stored() && apos - old(apos) <= i - old(i)
      ensures old(Slots()) <= Slots()
      ensures var r := GotArgv(old(Left()));
        && (ok ==>
              && r.Got? && ArgvFits(r.value) && old(argvTotal) + |r.value| <= MAX_ARGV_TOTAL
              && Left() == r.rest && ArgvIn(Slots(), Stored(), at, r.value) && old(i) < i
              && argvTotal == old(argvTotal) + |r.value| && argvPos == old(argvPos) + |r.value| + 1)
        && (!ok ==>
              || r.Fail? || !ArgvFits(r.value) || old(argvTotal) + |r.value| > MAX_ARGV_TOTAL || apos == MAX_LINE)
    {
      hide GotArgs, Next, Past, Blank, ArgsIn, ArgvIn, ArgvFits;
      at := argvPos;
      ok := Expect('[');
      if !ok {
        return;
      }
      NothingFits();
      ArgsSkip(Left());
      var empty := Peek(']');
      if empty {
        return false, at;
      }
      var argc;
      ok, argc := Arguments();
      if !ok {
        return;
      }
      ArgsEnd(argvStore[..], Stored(), at, GotArgv(old(Left())).value);
      argvStore[argvPos + argc] := None;
      argvPos := argvPos + (argc + 1);
    }

    /** Decodes the list of commands. */
    method CommandList() returns (ok: bool)
      requires Valid() && argvPos == 0 && argvTotal == 0
      modifies this`i, this`apos, this`argvPos, this`argvTotal, this`ncommands, arena, argvStore, commands
      ensures Valid() && old(i) <= i && old(Stored()) <= Stored() && apos - old(apos) <= i - old(i)
      ensures var r := GotCommands(old(Left()));
        && (ok ==>
              && r.Got? && CommandsFit(r.value) && Left() == r.rest
              && CommandsIn(commands[..ncommands], Slots(), Stored(), r.value))
        && (!ok ==> r.Fail? || !CommandsFit(r.value) || apos == MAX_LINE)
    {
      hide GotArgvs, GotArgv, Next, Past, Blank, CommandsIn, ArgvIn, CommandsFit, ArgvFits;
      ok := Expect('[');
      if !ok {
        return;
      }
      ncommands := 0;
      ghost var start := Left();
      ArgvsSkip(start);
      NoCommands(commands[..0], Slots(), Stored());
      var empty := Peek(']');
      if empty {
        i := i + 1;
        return true;
      }
      ok := Lists();
    }

    /** Decodes one command and stores where its argument vector lies. */
    method Command(ghost got: seq<seq<seq<byte>>>) returns (ok: bool)
      requires Valid() && SlotsLeft() && ncommands == |got| < MAX_COMMANDS
      requires CommandsIn(commands[..ncommands], Slots(), Stored(), got)
      modifies this`i, this`apos, this`argvPos, this`argvTotal, this`ncommands, arena, argvStore, commands
      ensures Valid() && old(i) <= i && old(Stored()) <= Stored() && apos - old(apos) <= i - old(i)
      ensures var r := GotArgv(old(Left()));
        && (ok ==>
              && r.Got? && ArgvFits(r.value) && old(argvTotal) + |r.value| <= MAX_ARGV_TOTAL
              && Left() == r.rest && old(i) < i && ncommands == old(ncommands) + 1
              && CommandsIn(commands[..ncommands], Slots(), Stored(), got + [r.value])
              && argvTotal == old(argvTotal) + |r.value| && argvPos == old(argvPos) + |r.value| + 1)
        && (!ok ==>
              || r.Fail? || !ArgvFits(r.value) || old(argvTotal) + |r.value| > MAX_ARGV_TOTAL || apos == MAX_LINE)
    {
      hide GotArgv, CommandsIn, ArgvIn, ArgvFits;
      ghost var starts, slots, stored, g := commands[..ncommands], Slots(), Stored(), GotArgv(Left());
      var at;
      ok, at := Argv();
      if !ok {
        return;
      }
      CommandsAppend(starts, slots, Slots(), stored, Stored(), got, at, g.value);
      commands[ncommands] := at;
      ncommands := ncommands + 1;
      assert commands[..ncommands] == starts + [at];
    }

    /** Decodes the argument lists of a list of commands up to its closing bracket. */
    method Lists() returns (ok: bool)
      requires Valid() && argvPos == 0 && argvTotal == 0 && ncommands == 0
      modifies this`i, this`apos, this`argvPos, this`argvTotal, this`ncommands, arena, argvStore, commands
      ensures Valid() && old(i) <= i && old(Stored()) <= Stored() && apos - old(apos) <= i - old(i)
      ensures var r := GotArgvs(old(Left()));
        && (ok ==>
              && r.Got? && CommandsFit(r.value) && Left() == r.rest
              && CommandsIn(commands[..ncommands], Slots(), Stored(), r.value))
        && (!ok ==> r.Fail? || !CommandsFit(r.value) || apos == MAX_LINE)
    {
      hide GotArgvs, GotArgv, Next, Past, Blank, CommandsIn, ArgvIn, CommandsFit, ArgvFits, Total, ListsFit;
      ghost var start := Left();
      ghost var got: seq<seq<seq<byte>>> := [];
      EmptyFront(GotArgvs(start));
      NoCommands(commands[..0], Slots(), Stored());
      while true
        invariant Valid() && old(i) <= i && old(Stored()) <= Stored() && apos - old(apos) <= i - old(i)
        invariant ncommands == |got| && argvTotal == Total(got) <= MAX_ARGV_TOTAL && argvPos == argvTotal + ncommands
        invariant CommandsIn(commands[..ncommands], Slots(), Stored(), got) && ListsFit(got)
        invariant GotArgvs(start) == Prepend(got, GotArgvs(Left()))
        decreases |line| - i
      {
        TooManyLists(got, GotArgvs(Left()));
        if ncommands >= MAX_COMMANDS {
          return false;
        }
        ghost var s := Left();
        ghost var g := GotArgv(s);
        ok := Command(got);
        ListsStep(got, s);
        if !ok {
          return;
        }
        got := got + [g.value];
        var more := Peek(',');
        if more {
          i := i + 1;
        } else {
          NextSkips(g.rest);
          ok := Expect(']');
          return;
        }
      }
    }

    /** The request's fields and storage as one value. */
    ghost function Now(): Fields
      requires Valid()
      reads this, arena, argvStore, commands
    {
      Fields(kind, gen, id, graceMs, timeoutMs, commands[..ncommands], Slots(), argvTotal, prevProvider, prevLeaseId, Stored())
    }

    /** Decodes the type. */
    method TypeMember() returns (ok: bool)
      requires Valid() && apos < i && |line| <= MAX_LINE
      modifies this`i, this`apos, this`kind, arena
      ensures Valid() && old(i) <= i && apos < i
      ensures var r := ReadMember(Type, old(Left()));
        && (ok <==> r.Got?)
        && (ok ==> Left() == r.rest && FieldSet(old(Now()), Now(), Type, r.value))
    {
      hide GotText, ReadMember, StringIn, Grammar.Decoded, KindOf, StringAt;
      ghost var g := GotText(Left());
      Decoding.TextMember(Type, Left());
      var at;
      ok, at := Text(MAX_TYPE_BYTES);
      assert Now() == old(Now()).(stored := Stored());
      if !ok {
        return;
      }
      StringReadBack(Stored(), at, g.value);
      kind := KindOf(StringAt(Stored(), at));
      ok := kind.Some?;
    }

    /** Decodes a string member. */
    method TextMember(key: Key) returns (ok: bool)
      requires Valid() && apos < i && |line| <= MAX_LINE && (key == PrevProvider || key == PrevLease)
      modifies this`i, this`apos, this`prevProvider, this`prevLeaseId, arena
      ensures Valid() && old(i) <= i && apos < i
      ensures var r := ReadMember(key, old(Left()));
        && (ok <==> r.Got?)
        && (ok ==> Left() == r.rest && FieldSet(old(Now()), Now(), key, r.value))
        && (!ok ==> SameHead(old(Now()), Now()))
    {
      hide GotText, ReadMember, StringIn, Grammar.Decoded, KindOf;
      ghost var g := GotText(Left());
      Decoding.TextMember(key, Left());
      var at;
      ok, at := Text(MAX_ARG_BYTES);
      assert Now() == old(Now()).(stored := Stored());
      if !ok {
        return;
      }
      if key == PrevProvider {
        prevProvider := Some(at);
      } else {
        prevLeaseId := Some(at);
      }
    }

    /** Decodes a number member. */
    method NumberMember(key: Key) returns (ok: bool)
      requires Valid() && apos < i && (key == Gen || key == Id || key == Grace || key == Timeout)
      modifies this`i, this`gen, this`id, this`graceMs, this`timeoutMs
      ensures Valid() && old(i) <= i && apos < i
      ensures var r := ReadMember(key, old(Left()));
        && (ok <==> r.Got?)
        && (ok ==> Left() == r.rest && FieldSet(old(Now()), Now(), key, r.value))
        && (!ok && key != Gen && key != Id ==> SameHead(old(Now()), Now()))
    {
      hide GotNumber, ReadMember, Decimal;
      Decoding.NumberMember(key, Left());
      var v;
      ok, v := Uint();
      if !ok {
        return;
      }
      if key == Gen {
        gen := v;
      } else if key == Id {
        id := v;
      } else if key == Grace {
        graceMs := v;
      } else {
        timeoutMs := v;
      }
    }

    method CommandsMember() returns (ok: bool)
      requires Valid() && apos < i && |line| <= MAX_LINE && argvPos == 0 && argvTotal == 0
      modifies this`i, this`apos, this`argvPos, this`argvTotal, this`ncommands, arena, argvStore, commands
      ensures Valid() && old(i) <= i && apos < i
      ensures var r := ReadMember(Commands, old(Left()));
        && (ok <==> r.Got?)
        && (ok ==> Left() == r.rest && FieldSet(old(Now()), Now(), Commands, r.value))
        && (!ok ==> SameHead(old(Now()), Now()))
    {
      hide GotCommands, ReadMember, CommandsIn, CommandsFit, CommandLists;
      Decoding.CommandsMember(Left());
      ok := CommandList();
    }

    /** Decodes the value of a member whose key has not been seen. */
    method Member(key: Key, ghost t: map<Key, Value>) returns (ok: bool)
      requires Valid() && Agrees(Now(), t) && key !in t && apos < i && |line| <= MAX_LINE
      modifies this, arena, argvStore, commands
      ensures Valid() && old(i) <= i && apos < i
      ensures var r := ReadMember(key, old(Left()));
        && (ok <==> r.Got?)
        && (ok ==> Left() == r.rest && Agrees(Now(), t[key := r.value]))
        && (!ok && key !in HEAD ==> HeadAgrees(Now(), t))
    {
      hide ReadMember, FieldSet, Agrees, HeadAgrees, Fits, ValueOk;
      ghost var was, r := Now(), ReadMember(key, Left());
      match key {
        case Commands =>
          NoCommandsYet(Now(), t);
          ok := CommandsMember();
        case Type => ok := TypeMember();
        case PrevProvider => ok := TextMember(key);
        case PrevLease => ok := TextMember(key);
        case _ => ok := NumberMember(key);
      }
      if ok {
        SetAgrees(was, Now(), t, key, r.value);
      } else if key !in HEAD {
        HeadStays(was, Now(), t);
      }
    }

    /** Decodes a key and the colon after it. */
    method KeyName() returns (ok: bool, key: Option<Key>)
      requires Valid() && apos < i && |line| <= MAX_LINE
      modifies this`i, this`apos, arena
      ensures Valid() && old(i) <= i && apos < i && old(Stored()) <= Stored() && (ok ==> old(i) < i)
      ensures var g := GotText(old(Left()));
        && (ok <==> g.Got? && |g.value| <= MAX_KEY_BYTES && Next(g.rest, ':'))
        && (ok ==> key == KeyOf(g.value) && Left() == Past(g.rest))
    {
      hide GotText, Next, Past, StringIn, KeyOf, StringAt;
      ghost var g := GotText(Left());
      var at;
      key := None;
      ok, at := Text(MAX_KEY_BYTES);
      if !ok {
        return;
      }
      StringReadBack(Stored(), at, g.value);
      key := KeyOf(StringAt(Stored(), at));
      ok := Expect(':');
    }

    /** Decodes one member: its key must be known and new, and its value must fit. */
    method OneMember(seen: set<Key>, ghost t: map<Key, Value>) returns (end: Option<ScanEnding>, key: Key, ghost v: Value)
      requires Valid() && apos < i && |line| <= MAX_LINE && TableOk(t) && Agrees(Now(), t) && seen == t.Keys
      modifies this, arena, argvStore, commands
      ensures Valid() && apos < i && old(i) <= i && (end.None? ==> old(i) < i)
      ensures end.Some? ==> !end.value.EndDone? && Ended(end.value, ScanMembers(old(Left()), t), t, Now(), Left())
      ensures end.None? ==> OneRead(ScanMembers(old(Left()), t), t, key, v, Left()) && Agrees(Now(), t[key := v])
    {
      hide ScanMembers, GotText, ReadMember, Next, Past, Blank, Agrees, HeadAgrees, KeyOf, TableOk;
      ghost var s, was := Left(), Now();
      ScanIs(s, t);
      var ok, name := KeyName();
      StoredGrows(was, Now(), t);
      key, v := Type, Str([], []);
      if !ok {
        return Some(EndBroken), key, v;
      }
      if name.None? || name.value in seen {
        return Some(EndRefused), key, v;
      }
      key := name.value;
      ghost var r := ReadMember(key, Left());
      ok := Member(key, t);
      if !ok {
        return Some(if key in HEAD then EndBroken else EndBad), key, v;
      }
      v := r.value;
      end := None;
    }

    /** The comma between two members. */
    method Comma() returns (more: bool)
      requires Valid()
      modifies this`i
      ensures Valid() && old(i) <= i && Now() == old(Now())
      ensures more == Next(old(Left()), ',')
      ensures Left() == if more then Past(old(Left())) else old(Left())[Blank(old(Left()))..]
    {
      hide Next, Past, Blank;
      more := Peek(',');
      if more {
        i := i + 1;
      }
    }

    /** Decodes one more member and the comma after it, or says how the list ended. */
    method MemberAndComma(seen: set<Key>, ghost t: map<Key, Value>)
      returns (end: Option<ScanEnding>, now: set<Key>, ghost u: map<Key, Value>)
      requires Valid() && apos < i && |line| <= MAX_LINE && TableOk(t) && Agrees(Now(), t) && seen == t.Keys
      modifies this, arena, argvStore, commands
      ensures Valid() && apos < i && TableOk(u) && now == u.Keys
      ensures match end
        case Some(e) => Ended(e, ScanMembers(old(Left()), t), u, Now(), Left())
        case None => old(i) < i && Agrees(Now(), u) && ScanMembers(old(Left()), t) == ScanMembers(Left(), u)
    {
      hide ScanMembers, Next, Past, Blank, Agrees, HeadAgrees, TableOk;
      var key;
      ghost var v;
      end, key, v := OneMember(seen, t);
      now, u := seen, t;
      if end.Some? {
        return;
      }
      now, u := seen + {key}, t[key := v];
      AgreesOk(Now(), u);
      var more := Comma();
      if !more {
        end := Some(EndDone);
      }
    }

    /** Decodes the members up to the first that is not followed by a comma, or the first that is at fault. */
    method Members() returns (end: ScanEnding, seen: set<Key>, ghost t: map<Key, Value>)
      requires Valid() && apos < i && |line| <= MAX_LINE && Fresh()
      modifies this, arena, argvStore, commands
      ensures Valid() && apos < i && TableOk(t) && t.Keys == seen
      ensures Ended(end, ScanMembers(old(Left()), map[]), t, Now(), Left())
    {
      hide ScanMembers, Agrees, TableOk, Ended;
      t := map[];
      seen := {};
      FreshAgrees(Now());
      while true
        invariant Valid() && apos < i && seen == t.Keys
        invariant TableOk(t) && Agrees(Now(), t)
        invariant ScanMembers(old(Left()), map[]) == ScanMembers(Left(), t)
        decreases |line| - i
      {
        var stop;
        stop, seen, t := MemberAndComma(seen, t);
        if stop.Some? {
          end := stop.value;
          return;
        }
      }
    }

    /** The request, as its reader finds it in the fields and the storage. */
    function Decoded(): Request
      requires Valid() && kind.Some?
      reads this, arena, argvStore, commands
    {
      Request(kind.value, gen, id, graceMs, timeoutMs, CommandsAt(commands[..ncommands], Slots(), Stored()),
              if prevProvider.Some? then StringAt(Stored(), prevProvider.value) else [],
              if prevLeaseId.Some? then StringAt(Stored(), prevLeaseId.value) else [])
    }

    /** Parses the line; the verdict and the request in storage are those of the grammar. */
    method ParseRequest() returns (verdict: Verdict)
      requires Valid() && i == 0 && apos == 0 && Fresh()
      modifies this, arena, argvStore, commands
      ensures Valid() && (apos == 0 || apos < i)
      ensures verdict.ParseOk? ==> kind.Some? && Parse(line) == Ok(Decoded())
      ensures verdict.ParseMalformed? ==> kind.Some? && Parse(line) == Malformed(kind.value, gen, id)
      ensures verdict.ParseUnreadable? ==> Parse(line) == Unreadable
    {
      hide ScanMembers, Next, Past, Blank, Agrees, HeadAgrees, TableOk, Meaning, StringAt, CommandsAt;
      assert Left() == line;
      if |line| > MAX_LINE {
        return ParseUnreadable;
      }
      var ok := Expect('{');
      if !ok {
        return ParseUnreadable;
      }
      ghost var s := Left();
      NothingSeen();
      ScanSkips(s, map[]);
      var empty := Peek('}');
      if empty {
        return ParseUnreadable;
      }
      var end, seen;
      ghost var t;
      end, seen, t := Members();
      ghost var scan := ScanMembers(s, map[]);
      HeadKnown(t, Now());
      if end.EndBroken? || !(HEAD <= seen) {
        return ParseUnreadable;
      }
      var bad := !end.EndDone?;
      if !bad {
        NextSkips(scan.rest);
        ok := Expect('}');
        if !ok {
          bad := true;
        }
        SkipSpace();
        if i != |line| {
          bad := true;
        }
        AtEnd(scan.rest, line, i);
      }
      if bad || seen != Required(kind.value) {
        return ParseMalformed;
      }
      MeaningStored(Now(), t);
      return ParseOk;
    }
  }

  /** Parses one line with storage of its own. */
  method ParseLine(line: seq<byte>) returns (outcome: Outcome)
    ensures outcome == Parse(line)
  {
    hide Parse;
    var parser := new LineParser(line);
    var verdict := parser.ParseRequest();
    match verdict
    case ParseOk => outcome := Ok(parser.Decoded());
    case ParseMalformed => outcome := Malformed(parser.kind.value, parser.gen, parser.id);
    case ParseUnreadable => outcome := Unreadable;
  }

  datatype Verdict = ParseOk | ParseMalformed | ParseUnreadable
  datatype ScanEnding = EndBroken | EndRefused | EndBad | EndDone

  /** How the members ended, for what the scan of the same input says. */
  ghost predicate Ended(end: ScanEnding, scan: Scan, t: map<Key, Value>, f: Fields, left: seq<byte>) {
    match end
    case EndBroken => scan.Broken?
    case EndRefused => scan == Refused(t) && HeadAgrees(f, t)
    case EndBad => scan == Bad(t) && HeadAgrees(f, t)
    case EndDone => scan.Done? && scan.seen == t && Agrees(f, t) && HeadAgrees(f, t) && left == scan.rest[Blank(scan.rest)..]
  }

  /** The scan reads one more member and goes on behind it. */
  ghost predicate OneRead(scan: Scan, t: map<Key, Value>, key: Key, v: Value, left: seq<byte>) {
    && TableOk(t) && TableOk(t[key := v])
    && scan == if Next(left, ',') then ScanMembers(Past(left), t[key := v]) else Done(t[key := v], left)
  }

  // ------------------------------------------------------------------ fields and the members they come from

  datatype Fields = Fields(
    kind: Option<RequestType>, gen: nat, id: nat, graceMs: nat, timeoutMs: nat,
    starts: seq<nat>, slots: seq<Option<nat>>, total: nat,
    prevProvider: Option<nat>, prevLeaseId: Option<nat>, stored: seq<byte>)

  ghost predicate SameHead(f: Fields, g: Fields) {
    f.kind == g.kind && f.gen == g.gen && f.id == g.id
  }

  ghost predicate HeadAgrees(f: Fields, t: map<Key, Value>) {
    && TableOk(t) && (Type in t ==> f.kind == Some(KindIn(t)))
    && f.gen == NumberIn(t, Gen) && f.id == NumberIn(t, Id)
  }

  ghost predicate TextAgrees(stored: seq<byte>, at: Option<nat>, t: map<Key, Value>, k: Key)
    requires TableOk(t) && ShapeOf(k) == Text
  {
    if k in t then at.Some? && StringIn(stored, at.value, TextIn(t, k)) else at.None?
  }

  ghost predicate RestAgrees(f: Fields, t: map<Key, Value>)
    requires TableOk(t)
  {
    && f.graceMs == NumberIn(t, Grace) && f.timeoutMs == NumberIn(t, Timeout)
    && TextAgrees(f.stored, f.prevProvider, t, PrevProvider) && TextAgrees(f.stored, f.prevLeaseId, t, PrevLease)
    && (if Commands in t then CommandsIn(f.starts, f.slots, f.stored, CommandLists(t[Commands]))
        else f.starts == [] && f.slots == [] && f.total == 0)
  }

  /** The fields hold what the members seen so far mean. */
  ghost predicate Agrees(f: Fields, t: map<Key, Value>) {
    HeadAgrees(f, t) && RestAgrees(f, t)
  }

  /** Only the field of one key changed, to what the value means; the arena grew. */
  ghost predicate FieldSet(f: Fields, g: Fields, k: Key, v: Value)
    requires ValueOk(v, ShapeOf(k))
  {
    && f.stored <= g.stored
    && match k
       case Type => g == f.(kind := KindOf(Decoded(v.text)), stored := g.stored)
       case Gen => g == f.(gen := Decimal(v.digits))
       case Id => g == f.(id := Decimal(v.digits))
       case Grace => g == f.(graceMs := Decimal(v.digits))
       case Timeout => g == f.(timeoutMs := Decimal(v.digits))
       case PrevProvider =>
         && g == f.(prevProvider := g.prevProvider, stored := g.stored)
         && g.prevProvider.Some? && StringIn(g.stored, g.prevProvider.value, Decoded(v.text))
       case PrevLease =>
         && g == f.(prevLeaseId := g.prevLeaseId, stored := g.stored)
         && g.prevLeaseId.Some? && StringIn(g.stored, g.prevLeaseId.value, Decoded(v.text))
       case Commands =>
         && g == f.(starts := g.starts, slots := g.slots, total := g.total, stored := g.stored)
         && CommandsIn(g.starts, g.slots, g.stored, CommandLists(v))
  }

  lemma NoCommandsYet(f: Fields, t: map<Key, Value>)
    requires Agrees(f, t) && Commands !in t
    ensures f.slots == [] && f.total == 0
  {
  }

  lemma HeadStays(f: Fields, g: Fields, t: map<Key, Value>)
    requires Agrees(f, t) && SameHead(f, g)
    ensures HeadAgrees(g, t)
  {
  }

  lemma SetAgrees(f: Fields, g: Fields, t: map<Key, Value>, k: Key, v: Value)
    requires Agrees(f, t) && k !in t && ValueOk(v, ShapeOf(k)) && Fits(k, v) && FieldSet(f, g, k, v)
    ensures Agrees(g, t[k := v])
  {
    hide ValueOk, Fits, Decimal, Decoded, StringIn, CommandsIn, KindOf, CommandLists;
    var u := t[k := v];
    if k == Type {
      KindKnown(v);
    }
    if PrevProvider in t {
      StringStays(f.stored, g.stored, f.prevProvider.value, TextIn(t, PrevProvider));
    }
    if PrevLease in t {
      StringStays(f.stored, g.stored, f.prevLeaseId.value, TextIn(t, PrevLease));
    }
    if Commands in t {
      CommandsStay(f.starts, f.slots, g.slots, f.stored, g.stored, CommandLists(t[Commands]));
    }
  }

  lemma FreshAgrees(f: Fields)
    requires f.kind.None? && f.gen == 0 && f.id == 0 && f.graceMs == 0 && f.timeoutMs == 0
    requires f.starts == [] && f.slots == [] && f.total == 0 && f.prevProvider.None? && f.prevLeaseId.None?
    ensures TableOk(map[]) && Agrees(f, map[])
  {
  }

  lemma AgreesOk(f: Fields, t: map<Key, Value>)
    requires Agrees(f, t)
    ensures TableOk(t) && HeadAgrees(f, t)
  {
  }

  lemma StoredGrows(f: Fields, g: Fields, t: map<Key, Value>)
    requires Agrees(f, t) && g == f.(stored := g.stored) && f.stored <= g.stored
    ensures Agrees(g, t) && HeadAgrees(g, t)
  {
    hide StringIn, CommandsIn, CommandLists, TextIn, NumberIn;
    if PrevProvider in t {
      StringStays(f.stored, g.stored, f.prevProvider.value, TextIn(t, PrevProvider));
    }
    if PrevLease in t {
      StringStays(f.stored, g.stored, f.prevLeaseId.value, TextIn(t, PrevLease));
    }
    if Commands in t {
      CommandsStay(f.starts, f.slots, g.slots, f.stored, g.stored, CommandLists(t[Commands]));
    }
  }

  lemma KindKnown(v: Value)
    requires ValueOk(v, ShapeOf(Type)) && Fits(Type, v)
    ensures KindOf(Decoded(v.text)).Some?
  {
  }

  // ------------------------------------------------------------------ lists of commands

  lemma NoCommands(starts: seq<nat>, store: seq<Option<nat>>, arena: seq<byte>)
    requires starts == []
    ensures CommandsIn(starts, store, arena, []) && CommandsFit([]) && ListsFit([]) && Total([]) == 0
  {
  }

  /** Argument lists that a list of commands within bounds may start with. */
  predicate ListsFit(got: seq<seq<seq<byte>>>) {
    |got| <= MAX_COMMANDS && forall c :: 0 <= c < |got| ==> ArgvFits(got[c])
  }

  lemma TooManyLists(got: seq<seq<seq<byte>>>, r: Got<seq<seq<seq<byte>>>>)
    requires r.Got? ==> r.value != []
    ensures |got| >= MAX_COMMANDS && r.Got? ==> !CommandsFit(Prepend(got, r).value)
  {
  }

  lemma {:induction false} TotalAppend(a: seq<seq<seq<byte>>>, b: seq<seq<seq<byte>>>)
    ensures Total(a + b) == Total(a) + Total(b)
  {
    if a == [] {
      assert a + b == b;
    } else {
      assert (a + b)[1..] == a[1..] + b;
      TotalAppend(a[1..], b);
    }
  }

  lemma TotalOne(argv: seq<seq<byte>>)
    ensures Total([argv]) == |argv|
  {
  }

  /** A list of commands that starts within bounds and goes past them with its next argument list. */
  lemma ListsOver(got: seq<seq<seq<byte>>>, argv: seq<seq<byte>>, more: seq<seq<seq<byte>>>)
    ensures !ArgvFits(argv) || Total(got) + |argv| > MAX_ARGV_TOTAL ==> !CommandsFit(got + [argv] + more)
    ensures Total(got + [argv]) == Total(got) + |argv|
  {
    hide ArgvFits;
    var all := got + [argv] + more;
    assert all[|got|] == argv;
    TotalAppend(got + [argv], more);
    TotalAppend(got, [argv]);
    TotalOne(argv);
  }

  lemma ListsStep(got: seq<seq<seq<byte>>>, s: seq<byte>)
    requires ListsFit(got) && |got| < MAX_COMMANDS
    ensures var g := GotArgv(s); var r := Prepend(got, GotArgvs(s));
      && (g.Fail? ==> r.Fail?)
      && (g.Got? ==> Total(got + [g.value]) == Total(got) + |g.value|)
      && (g.Got? && (!ArgvFits(g.value) || Total(got) + |g.value| > MAX_ARGV_TOTAL) ==>
            r.Fail? || !CommandsFit(r.value))
      && (g.Got? && Next(g.rest, ',') ==> r == Prepend(got + [g.value], GotArgvs(Past(g.rest))))
      && (g.Got? && !Next(g.rest, ',') ==>
            r == if Next(g.rest, ']') then Got(got + [g.value], Past(g.rest)) else Fail)
      && (g.Got? && ArgvFits(g.value) ==> ListsFit(got + [g.value]))
      && (g.Got? && ArgvFits(g.value) && Total(got) + |g.value| <= MAX_ARGV_TOTAL ==> CommandsFit(got + [g.value]))
  {
    hide GotArgv, Next, Past, Blank, ArgvFits, Total;
    var g := GotArgv(s);
    if g.Got? {
      ListsOver(got, g.value, []);
      assert got + [g.value] + [] == got + [g.value];
      if Next(g.rest, ',') {
        PastIs(g.rest, ',');
        PrependTwice(got, [g.value], GotArgvs(Past(g.rest)));
        if GotArgvs(Past(g.rest)).Got? {
          ListsOver(got, g.value, GotArgvs(Past(g.rest)).value);
        }
      }
    }
  }

  lemma CommandsAppend(
    starts: seq<nat>, s: seq<Option<nat>>, t: seq<Option<nat>>, a: seq<byte>, b: seq<byte>,
    got: seq<seq<seq<byte>>>, at: nat, argv: seq<seq<byte>>)
    requires CommandsIn(starts, s, a, got) && s <= t && a <= b && ArgvIn(t, b, at, argv)
    ensures CommandsIn(starts + [at], t, b, got + [argv])
  {
    hide ArgvIn;
    CommandsStay(starts, s, t, a, b, got);
  }

  // ------------------------------------------------------------------ argument lists

  /** Arguments stored at consecutive slots. */
  ghost predicate ArgsIn(store: seq<Option<nat>>, arena: seq<byte>, at: nat, args: seq<seq<byte>>) {
    at + |args| <= |store| && PointAt(store[at..at + |args|], arena, args)
  }

  /** Arguments that an argument list within bounds may start with. */
  predicate PrefixFits(args: seq<seq<byte>>) {
    && |args| <= MAX_ARGS && (args != [] ==> args[0] != [])
    && forall i :: 0 <= i < |args| ==> |args[i]| <= MAX_ARG_BYTES
  }

  lemma NothingFits()
    ensures !ArgvFits([])
  {
  }

  lemma NoArgs(store: seq<Option<nat>>, arena: seq<byte>, at: nat)
    requires at <= |store|
    ensures ArgsIn(store, arena, at, []) && PrefixFits([])
  {
  }

  lemma StringStart(arena: seq<byte>, at: nat, str: seq<byte>)
    requires StringIn(arena, at, str) && NUL !in str
    ensures at < |arena| && (arena[at] == NUL <==> str == [])
  {
    if str != [] {
      assert arena[at] == arena[at..at + |str|][0];
    }
  }

  lemma ArgsAppend(
    store: seq<Option<nat>>, a: seq<byte>, b: seq<byte>, at: nat, args: seq<seq<byte>>, str: nat, arg: seq<byte>)
    requires ArgsIn(store, a, at, args) && a <= b && StringIn(b, str, arg) && at + |args| < |store|
    ensures ArgsIn(store[at + |args| := Some(str)], b, at, args + [arg])
  {
    hide StringIn;
    var slots := store[at..at + |args|];
    assert store[at + |args| := Some(str)][at..at + |args| + 1] == slots + [Some(str)];
    PointsStay(slots, a, b, args);
  }

  lemma ArgsEnd(store: seq<Option<nat>>, arena: seq<byte>, at: nat, args: seq<seq<byte>>)
    requires ArgsIn(store, arena, at, args) && at + |args| < |store|
    ensures ArgvIn(store[at + |args| := None][..at + |args| + 1], arena, at, args)
  {
    hide StringIn;
    assert store[at + |args| := None][..at + |args| + 1][at..at + |args|] == store[at..at + |args|];
  }

  lemma TooManyArgs(got: seq<seq<byte>>, r: Got<seq<seq<byte>>>)
    requires r.Got? ==> r.value != []
    ensures r.Got? ==> Prepend(got, r).Got? && |Prepend(got, r).value| > |got|
    ensures |got| >= MAX_ARGS && r.Got? ==> !ArgvFits(Prepend(got, r).value)
  {
  }

  /** What one argument makes of the list it belongs to. */
  lemma ArgsStep(got: seq<seq<byte>>, s: seq<byte>)
    requires PrefixFits(got) && |got| < MAX_ARGS
    ensures var g := GotText(s); var r := Prepend(got, GotArgs(s));
      && (g.Fail? ==> r.Fail?)
      && (g.Got? && (|g.value| > MAX_ARG_BYTES || (got == [] && g.value == [])) ==> r.Fail? || !ArgvFits(r.value))
      && (g.Got? && Next(g.rest, ',') ==> r == Prepend(got + [g.value], GotArgs(Past(g.rest))))
      && (g.Got? && !Next(g.rest, ',') ==>
            r == if Next(g.rest, ']') then Got(got + [g.value], Past(g.rest)) else Fail)
      && (g.Got? && |g.value| <= MAX_ARG_BYTES && (got == [] ==> g.value != []) ==>
            PrefixFits(got + [g.value]) && ArgvFits(got + [g.value]))
  {
    hide GotText, Next, Past, Blank;
    var g := GotText(s);
    if g.Got? {
      if Next(g.rest, ',') {
        PastIs(g.rest, ',');
        PrependTwice(got, [g.value], GotArgs(Past(g.rest)));
        if GotArgs(Past(g.rest)).Got? {
          var all := got + [g.value] + GotArgs(Past(g.rest)).value;
          assert all[|got|] == g.value;
        }
      } else {
        assert (got + [g.value])[|got|] == g.value;
      }
    }
  }

  lemma Terminated(a: seq<byte>, str: seq<byte>)
    ensures StringIn(a + str + [NUL], |a|, str)
  {
    assert (a + str + [NUL])[|a|..|a| + |str|] == str;
  }

  /** What the number reader makes of its input, white space aside. */
  lemma NumberIs(s: seq<byte>, t: seq<byte>)
    requires t == s[Blank(s)..]
    ensures var n := DigitRun(t);
      GotNumber(s) ==
        if n == 0 || (t[0] == '0' && n > 1) || (n < |t| && (t[n] == '.' || t[n] == 'e' || t[n] == 'E')) then Fail
        else Got(Decimal(t[..n]), t[n..])
  {
  }

  lemma RunStarts(t: seq<byte>)
    ensures DigitRun(t) > 0 <==> t != [] && IsDigit(t[0])
    ensures DigitRun(t) > 1 <==> |t| > 1 && IsDigit(t[0]) && IsDigit(t[1])
  {
  }

  lemma RunEnds(t: seq<byte>, n: nat)
    requires n <= DigitRun(t) && (n < |t| ==> !IsDigit(t[n]))
    ensures n == DigitRun(t)
  {
    hide DigitRun;
  }

  lemma NoDigits()
    ensures Decimal([]) == 0
  {
  }

  lemma InRun(t: seq<byte>, n: nat)
    requires n <= DigitRun(t) && n < |t| && IsDigit(t[n])
    ensures n < DigitRun(t)
  {
  }

  lemma DecimalStep(t: seq<byte>, n: nat)
    requires n < DigitRun(t)
    ensures AllDigits(t[..n]) && AllDigits(t[..n + 1])
    ensures Decimal(t[..n + 1]) == Decimal(t[..n]) * 10 + (t[n] as int - '0' as int)
  {
    var run := t[..DigitRun(t)];
    assert t[..n + 1] == run[..n + 1];
    assert t[..n + 1][..n] == t[..n];
  }

  lemma {:induction false} DecimalGrows(digits: seq<byte>, n: nat)
    requires AllDigits(digits) && n <= |digits|
    ensures Decimal(digits[..n]) <= Decimal(digits)
    decreases |digits| - n
  {
    if n < |digits| {
      DecimalGrows(digits, n + 1);
      assert digits[..n + 1][..n] == digits[..n];
    } else {
      assert digits[..n] == digits;
    }
  }

  lemma EmptyFront<T>(r: Got<seq<T>>)
    ensures Prepend([], r) == r
  {
    if r.Got? {
      assert [] + r.value == r.value;
    }
  }

  lemma BodyEnds(s: seq<byte>)
    ensures s == [] ==> GotBody(s).Fail?
    ensures s != [] && s[0] == '"' ==> GotBody(s) == Got([], s[1..])
  {
  }

  // ------------------------------------------------------------------ the scan, step by step

  /** The first step of a scan in terms of what the key decodes to. */
  lemma ScanIs(s: seq<byte>, seen: map<Key, Value>)
    requires TableOk(seen)
    ensures var g := GotText(s); var scan := ScanMembers(s, seen);
      if g.Fail? || |g.value| > MAX_KEY_BYTES || !Next(g.rest, ':') then scan.Broken?
      else if KeyOf(g.value).None? || KeyOf(g.value).value in seen then scan == Refused(seen)
      else
        var k := KeyOf(g.value).value;
        var r := ReadMember(k, Past(g.rest));
        if r.Fail? then scan == if k in HEAD then Broken else Bad(seen)
        else
          && TableOk(seen[k := r.value])
          && scan == if Next(r.rest, ',') then ScanMembers(Past(r.rest), seen[k := r.value]) else Done(seen[k := r.value], r.rest)
  {
    hide GotText, ReadString, Grammar.Decoded, KeyOf, ReadMember, Blank, Past, Fits, ValueOk;
    Decoding.TextAgrees(s);
  }

  lemma NothingSeen()
    ensures TableOk(map[])
  {
  }

  lemma HeadKnown(t: map<Key, Value>, f: Fields)
    ensures HeadAgrees(f, t) && Type in t ==>
      && f.kind == Some(KindIn(t)) && f.gen == NumberIn(t, Gen) && f.id == NumberIn(t, Id)
  {
  }

  lemma AtEnd(rest: seq<byte>, line: seq<byte>, i: nat)
    requires i <= |line|
    ensures Next(rest, '}') && i == |line| - |Past(rest)| + Blank(Past(rest)) ==> (Closed(rest) <==> i == |line|)
    ensures !Next(rest, '}') ==> !Closed(rest)
  {
  }

  lemma ListsReadBack(starts: seq<nat>, store: seq<Option<nat>>, arena: seq<byte>, es: Elements)
    requires ElementsOk(es, ListOf(Grammar.Text)) && CommandsIn(starts, store, arena, Argvs(es))
    ensures CommandsAt(starts, store, arena) == Argvs(es)
  {
    NoNulLists(es);
    ArgvsReadBack(starts, store, arena, Argvs(es));
  }

  lemma ArgvsReadBack(starts: seq<nat>, store: seq<Option<nat>>, arena: seq<byte>, lists: seq<seq<seq<byte>>>)
    requires CommandsIn(starts, store, arena, lists) && forall c :: 0 <= c < |lists| ==> NoNul(lists[c])
    ensures CommandsAt(starts, store, arena) == lists
  {
    hide ArgvIn;
    forall c | 0 <= c < |lists|
      ensures ArgvAt(store, arena, starts[c]) == lists[c]
    {
      ArgvReadBack(store, arena, starts[c], lists[c]);
    }
  }

  ghost predicate NoNul(argv: seq<seq<byte>>) {
    forall j :: 0 <= j < |argv| ==> NUL !in argv[j]
  }

  lemma {:induction false} NoNulStrings(es: Elements)
    requires ElementsOk(es, Grammar.Text)
    ensures NoNul(Strings(es))
  {
    hide Grammar.Decoded;
    if es.More? {
      NoNulStrings(es.rest);
    }
  }

  lemma {:induction false} NoNulLists(es: Elements)
    requires ElementsOk(es, ListOf(Grammar.Text))
    ensures forall c :: 0 <= c < |Argvs(es)| ==> NoNul(Argvs(es)[c])
  {
    hide Strings;
    if es.value.List? {
      NoNulStrings(es.value.elements);
    }
    if es.More? {
      NoNulLists(es.rest);
    }
  }

  lemma CommandsReadBack(starts: seq<nat>, store: seq<Option<nat>>, arena: seq<byte>, v: Value)
    requires ValueOk(v, ListOf(ListOf(Grammar.Text))) && CommandsIn(starts, store, arena, CommandLists(v))
    ensures CommandsAt(starts, store, arena) == CommandLists(v)
  {
    hide Argvs, CommandsAt;
    if v.List? {
      ListsReadBack(starts, store, arena, v.elements);
    } else {
      ArgvsReadBack(starts, store, arena, []);
    }
  }

  /** The fields and the storage, read back, give the request the members mean. */
  lemma MeaningStored(f: Fields, t: map<Key, Value>)
    requires Agrees(f, t) && Type in t
    ensures TableOk(t)
    ensures Meaning(t) == Request(KindIn(t), f.gen, f.id, f.graceMs, f.timeoutMs, CommandsAt(f.starts, f.slots, f.stored),
              if f.prevProvider.Some? then StringAt(f.stored, f.prevProvider.value) else [],
              if f.prevLeaseId.Some? then StringAt(f.stored, f.prevLeaseId.value) else [])
  {
    hide StringIn, CommandsIn, CommandLists, CommandsAt, StringAt, Decimal, Grammar.Decoded, KindOf, Fits;
    if PrevProvider in t {
      StringReadBack(f.stored, f.prevProvider.value, TextIn(t, PrevProvider));
    }
    if PrevLease in t {
      StringReadBack(f.stored, f.prevLeaseId.value, TextIn(t, PrevLease));
    }
    if Commands in t {
      CommandsReadBack(f.starts, f.slots, f.stored, t[Commands]);
    } else {
      NothingStored(f.starts, f.slots, f.stored);
    }
  }

  lemma NothingStored(starts: seq<nat>, store: seq<Option<nat>>, arena: seq<byte>)
    requires starts == []
    ensures CommandsAt(starts, store, arena) == []
  {
  }
}
