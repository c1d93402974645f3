/** The readers of the grammar seen through what they decode: their results without the concrete syntax. */
module Decoding {
  import opened Base
  import opened Messages
  import opened Grammar
  import opened Recognizer

  function Prepend<T>(front: seq<T>, r: Got<seq<T>>): Got<seq<T>> {
    match r
    case Fail => Fail
    case Got(back, rest) => Got(front + back, rest)
  }

  /** The rest of a string, decoded. */
  function GotBody(s: seq<byte>): (r: Got<seq<byte>>)
    ensures r.Got? ==> |r.rest| < |s| && '\0' !in r.value
  {
    match ReadText(s)
    case Fail => Fail
    case Got(ps, r) => TextSound(s); Got(Decoded(ps), r)
  }

  function GotText(s: seq<byte>): (r: Got<seq<byte>>)
    ensures r.Got? ==> |r.rest| < |s| && '\0' !in r.value
  {
    if Next(s, '"') then GotBody(Past(s)) else Fail
  }

  function GotNumber(s: seq<byte>): (r: Got<nat>)
    ensures r.Got? ==> |r.rest| < |s|
  {
    match ReadNumber(s)
    case Fail => Fail
    case Got(v, r) => NumberSound(s); Got(Decimal(v.digits), r)
  }

  /** The rest of a list of strings that is not empty. */
  function GotArgs(s: seq<byte>): (r: Got<seq<seq<byte>>>)
    ensures r.Got? ==> |r.rest| < |s| && r.value != []
    decreases |s|
  {
    match GotText(s)
    case Fail => Fail
    case Got(t, r) =>
      if Next(r, ',') then Prepend([t], GotArgs(Past(r)))
      else if Next(r, ']') then Got([t], Past(r))
      else Fail
  }

  function GotArgv(s: seq<byte>): (r: Got<seq<seq<byte>>>)
    ensures r.Got? ==> |r.rest| < |s|
  {
    if !Next(s, '[') then Fail
    else if Next(Past(s), ']') then Got([], Past(Past(s)))
    else GotArgs(Past(s))
  }

  /** The rest of a list of argument lists that is not empty. */
  function GotArgvs(s: seq<byte>): (r: Got<seq<seq<seq<byte>>>>)
    ensures r.Got? ==> |r.rest| < |s| && r.value != []
    decreases |s|
  {
    match GotArgv(s)
    case Fail => Fail
    case Got(t, r) =>
      if Next(r, ',') then Prepend([t], GotArgvs(Past(r)))
      else if Next(r, ']') then Got([t], Past(r))
      else Fail
  }

  function GotCommands(s: seq<byte>): (r: Got<seq<seq<seq<byte>>>>)
    ensures r.Got? ==> |r.rest| < |s|
  {
    if !Next(s, '[') then Fail
    else if Next(Past(s), ']') then Got([], Past(Past(s)))
    else GotArgvs(Past(s))
  }

  // ------------------------------------------------------------------ they follow the readers

  lemma TextAgrees(s: seq<byte>)
    ensures ReadString(s).Got? <==> GotText(s).Got?
    ensures ReadString(s).Got? ==>
      && ValueOk(ReadString(s).value, Text) && ReadString(s).rest == GotText(s).rest
      && Decoded(ReadString(s).value.text) == GotText(s).value
  {
    if ReadString(s).Got? {
      StringSound(s);
    }
  }

  lemma {:induction false} ArgsAgree(s: seq<byte>)
    ensures ReadElements(Text, s).Got? <==> GotArgs(s).Got?
    ensures ReadElements(Text, s).Got? ==>
      && ElementsOk(ReadElements(Text, s).value, Text) && ReadElements(Text, s).rest == GotArgs(s).rest
      && Strings(ReadElements(Text, s).value) == GotArgs(s).value
    decreases |s|
  {
    hide Next, Past, Blank, GotText, ReadString, Decoded;
    TextAgrees(s);
    if ReadElements(Text, s).Got? {
      ElementsSound(Text, s);
    }
    if GotText(s).Got? && Next(GotText(s).rest, ',') {
      PastIs(GotText(s).rest, ',');
      ArgsAgree(Past(GotText(s).rest));
    }
  }

  lemma PastIs(s: seq<byte>, c: byte)
    requires Next(s, c)
    ensures Blank(s) < |s| && |Past(s)| < |s|
  {
  }

  lemma ArgvAgrees(s: seq<byte>)
    ensures Read(ListOf(Text), s).Got? <==> GotArgv(s).Got?
    ensures Read(ListOf(Text), s).Got? ==>
      && ValueOk(Read(ListOf(Text), s).value, ListOf(Text)) && Read(ListOf(Text), s).rest == GotArgv(s).rest
      && Argv(Read(ListOf(Text), s).value) == GotArgv(s).value
  {
    hide Past, Blank, GotArgs, ReadElements, Strings, ElementsOk;
    if Next(s, '[') {
      PastIs(s, '[');
      ArgsAgree(Past(s));
    }
    if Read(ListOf(Text), s).Got? {
      ReadSound(ListOf(Text), s);
    }
  }

  lemma {:induction false} ArgvsAgree(s: seq<byte>)
    ensures ReadElements(ListOf(Text), s).Got? <==> GotArgvs(s).Got?
    ensures ReadElements(ListOf(Text), s).Got? ==>
      && ElementsOk(ReadElements(ListOf(Text), s).value, ListOf(Text))
      && ReadElements(ListOf(Text), s).rest == GotArgvs(s).rest
      && Argvs(ReadElements(ListOf(Text), s).value) == GotArgvs(s).value
    decreases |s|
  {
    hide Next, Past, Blank, GotArgv, Read, Argv, ValueOk;
    ArgvAgrees(s);
    if ReadElements(ListOf(Text), s).Got? {
      ElementsSound(ListOf(Text), s);
    }
    if GotArgv(s).Got? && Next(GotArgv(s).rest, ',') {
      PastIs(GotArgv(s).rest, ',');
      ArgvsAgree(Past(GotArgv(s).rest));
    }
  }

  lemma CommandsAgree(s: seq<byte>)
    ensures var shape := ListOf(ListOf(Text));
      && (Read(shape, s).Got? <==> GotCommands(s).Got?)
      && (Read(shape, s).Got? ==>
            && ValueOk(Read(shape, s).value, shape) && Read(shape, s).rest == GotCommands(s).rest
            && CommandLists(Read(shape, s).value) == GotCommands(s).value)
  {
    hide Past, Blank, GotArgvs, ReadElements, Argvs, ElementsOk;
    if Next(s, '[') {
      PastIs(s, '[');
      ArgvsAgree(Past(s));
    }
    if Read(ListOf(ListOf(Text)), s).Got? {
      ReadSound(ListOf(ListOf(Text)), s);
    }
  }

  // ------------------------------------------------------------------ members

  lemma TextMember(k: Key, s: seq<byte>)
    requires k == Type || k == PrevProvider || k == PrevLease
    ensures var g := GotText(s); var r := ReadMember(k, s);
      && (r.Got? <==>
            && g.Got? && |g.value| <= (if k == Type then MAX_TYPE_BYTES else MAX_ARG_BYTES)
            && (k == Type ==> KindOf(g.value).Some?))
      && (r.Got? ==> r.rest == g.rest && Decoded(r.value.text) == g.value)
  {
    hide GotText, ReadString, Decoded, KindOf;
    TextAgrees(s);
  }

  lemma NumberMember(k: Key, s: seq<byte>)
    requires k == Gen || k == Id || k == Grace || k == Timeout
    ensures var g := GotNumber(s); var r := ReadMember(k, s);
      && (r.Got? <==> g.Got? && g.value <= MAX_JSON_INT)
      && (r.Got? ==> r.rest == g.rest && Decimal(r.value.digits) == g.value)
  {
    hide ReadNumber, Decimal;
  }

  lemma CommandsMember(s: seq<byte>)
    ensures var g := GotCommands(s); var r := ReadMember(Commands, s);
      && (r.Got? <==> g.Got? && CommandsFit(g.value))
      && (r.Got? ==> r.rest == g.rest && CommandLists(r.value) == g.value)
  {
    hide Read, GotCommands, CommandsFit, CommandLists;
    CommandsAgree(s);
  }

  // ------------------------------------------------------------------ white space first

  lemma NextSkips(s: seq<byte>)
    ensures var t := s[Blank(s)..];
      && Blank(t) == 0 && (forall c :: Next(t, c) == Next(s, c)) && (Blank(s) < |s| ==> |t| > 0 && Past(t) == Past(s))
  {
    var t := s[Blank(s)..];
    assert Blank(t) == 0;
    if Blank(s) < |s| {
      assert t[0] == s[Blank(s)];
    }
  }

  lemma TextSkips(s: seq<byte>)
    ensures GotText(s[Blank(s)..]) == GotText(s)
  {
    hide Next, Past, Blank, GotBody;
    NextSkips(s);
  }

  lemma ArgsSkip(s: seq<byte>)
    ensures GotArgs(s[Blank(s)..]) == GotArgs(s)
  {
    hide Next, Past, Blank, GotText;
    TextSkips(s);
  }

  lemma ArgvSkips(s: seq<byte>)
    ensures GotArgv(s[Blank(s)..]) == GotArgv(s)
  {
    hide Next, Past, Blank, GotArgs;
    NextSkips(s);
  }

  lemma ArgvsSkip(s: seq<byte>)
    ensures GotArgvs(s[Blank(s)..]) == GotArgvs(s)
  {
    hide Next, Past, Blank, GotArgv;
    ArgvSkips(s);
  }

  lemma ScanSkips(s: seq<byte>, seen: map<Key, Value>)
    requires TableOk(seen)
    ensures ScanMembers(s[Blank(s)..], seen) == ScanMembers(s, seen)
  {
    hide Blank, Past, Next, ReadString, Decoded, KeyOf, ReadMember, TableOk;
    TextAgrees(s);
    TextAgrees(s[Blank(s)..]);
    TextSkips(s);
  }

  // ------------------------------------------------------------------ one step of each loop

  /** The next piece of a string body, decoded, and what follows it. */
  lemma BodyStep(s: seq<byte>)
    requires s != [] && s[0] != '"'
    ensures ReadPiece(s).Fail? ==> GotBody(s).Fail?
    ensures ReadPiece(s).Got? ==>
      && PieceOk(ReadPiece(s).value)
      && GotBody(s) == Prepend(DecodedPiece(ReadPiece(s).value), GotBody(ReadPiece(s).rest))
  {
    hide ReadPiece, PieceOk, DecodedPiece, WrittenPiece;
    if ReadPiece(s).Got? {
      PieceSound(s);
      var r := ReadPiece(s).rest;
      if ReadText(r).Got? {
        TextSound(r);
        DecodedCons(ReadPiece(s).value, ReadText(r).value);
      }
    }
  }

  lemma DecodedCons(p: Piece, ps: seq<Piece>)
    requires PieceOk(p) && TextOk(ps)
    ensures TextOk([p] + ps) && Decoded([p] + ps) == DecodedPiece(p) + Decoded(ps)
  {
    assert ([p] + ps)[1..] == ps;
  }

  lemma PrependTwice<T>(a: seq<T>, b: seq<T>, r: Got<seq<T>>)
    ensures Prepend(a, Prepend(b, r)) == Prepend(a + b, r)
  {
    if r.Got? {
      assert a + (b + r.value) == a + b + r.value;
    }
  }
}
