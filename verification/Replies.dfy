/**
 The adapter's reader of what the supervisor writes: one object of a line, its members, and the
 message they make, each spelled as the adapter spells it. What is not such an object, a second
 ready message included, is a failure of the link.
 */
module Replies {
  import opened Base
  import opened Messages
  import opened WaitStatus
  import opened Grammar
  import opened Recognizer
  import opened LineReader
  import opened Numbers
  import Templates

  // ------------------------------------------------------------------ objects

  /** A member's value: a string without escapes, or an unsigned integer. */
  datatype Raw = Quoted(text: seq<byte>) | Digits(digits: seq<byte>)

  /** A byte that stands for itself in a string, in ASCII. */
  predicate Literal(c: byte) {
    0x20 <= c as int < 0x80 && c != '"' && c != '\\'
  }

  function LiteralRun(s: seq<byte>): (n: nat)
    ensures n <= |s|
  {
    if s == [] || !Literal(s[0]) then 0 else 1 + LiteralRun(s[1..])
  }

  /** The rest of a string, and what follows its closing quote. */
  function ReadQuoted(s: seq<byte>): (r: Option<(seq<byte>, seq<byte>)>)
    ensures r.Some? ==> |r.value.1| < |s|
  {
    var n := LiteralRun(s);
    if n < |s| && s[n] == '"' then Some((s[..n], s[n + 1..])) else None
  }

  function ReadRaw(s: seq<byte>): (r: Option<(Raw, seq<byte>)>)
    ensures r.Some? ==> |r.value.1| < |s|
  {
    if s == [] then None
    else if s[0] == '"' then
      var t := ReadQuoted(s[1..]);
      if t.None? then None else Some((Quoted(t.value.0), t.value.1))
    else
      var n := DigitRun(s);
      if DigitsOk(s[..n]) then Some((Digits(s[..n]), s[n..])) else None
  }

  /** The members from here to the end of the object, which is the end of the line; a name may come only once. */
  function ReadMembers(s: seq<byte>, seen: map<seq<byte>, Raw>): Option<map<seq<byte>, Raw>>
    decreases |s|
  {
    if s == [] || s[0] != '"' then None
    else
      var name := ReadQuoted(s[1..]);
      if name.None? || name.value.0 in seen || name.value.1 == [] || name.value.1[0] != ':' then None
      else
        var v := ReadRaw(name.value.1[1..]);
        if v.None? || v.value.1 == [] then None
        else
          var now := seen[name.value.0 := v.value.0];
          if v.value.1[0] == ',' then ReadMembers(v.value.1[1..], now)
          else if v.value.1 == ['}'] then Some(now)
          else None
  }

  function ReadObject(line: seq<byte>): Option<map<seq<byte>, Raw>> {
    if line == "{}" then Some(map[])
    else if line == [] || line[0] != '{' then None
    else ReadMembers(line[1..], map[])
  }

  function TextIn(m: map<seq<byte>, Raw>, name: seq<byte>): Option<seq<byte>> {
    if name in m && m[name].Quoted? then Some(m[name].text) else None
  }

  function NumberNamed(m: map<seq<byte>, Raw>, name: seq<byte>): Option<nat> {
    if name in m && m[name].Digits? && DigitsOk(m[name].digits) && Decimal(m[name].digits) <= MAX_U64
    then Some(Decimal(m[name].digits)) else None
  }

  // ------------------------------------------------------------------ messages

  /** A message as the adapter holds it: the names are strings, and an empty error is success. */
  datatype Incoming =
    | Answer(name: seq<byte>, gen: nat, id: nat, error: seq<byte>)
    | ExitNotice(gen: nat, signaled: bool, code: nat)

  const REPLY_NAMES: set<seq<byte>> := {"launched", "ended", "swept", "cleaned", "pong"}

  const ERROR_CODES: set<seq<byte>> := {
    "exec_failed", "launch_not_permitted", "end_deadline", "proc_read_failed", "sweep_failed", "sweep_bound",
    "cleanup_failed", "cleanup_timeout", "malformed_request", "gen_mismatch"}

  function DecodeReply(m: map<seq<byte>, Raw>, name: seq<byte>, gen: nat): Option<Incoming> {
    var id := NumberNamed(m, "id");
    if !(m.Keys <= {"type", "gen", "id", "error"}) || id.None? then None
    else if "error" !in m then Some(Answer(name, gen, id.value, ""))
    else
      var code := TextIn(m, "error");
      if code.Some? && code.value in ERROR_CODES then Some(Answer(name, gen, id.value, code.value)) else None
  }

  function DecodeExited(m: map<seq<byte>, Raw>, gen: nat): Option<Incoming> {
    if !(m.Keys <= {"type", "gen", "status", "signal"}) || ("status" in m <==> "signal" in m) then None
    else
      var signaled := "signal" in m;
      var code := NumberNamed(m, if signaled then "signal" else "status");
      if code.None? || code.value > 255 then None else Some(ExitNotice(gen, signaled, code.value))
  }

  /** One line, read strictly. */
  function Decode(line: seq<byte>): Option<Incoming> {
    var m := ReadObject(line);
    if m.None? then None
    else
      var name, gen := TextIn(m.value, "type"), NumberNamed(m.value, "gen");
      if name.None? || gen.None? then None
      else if name.value == "exited" then DecodeExited(m.value, gen.value)
      else if name.value in REPLY_NAMES then DecodeReply(m.value, name.value, gen.value)
      else None
  }

  /** The reply that answers each request. */
  function ReplyTo(kind: RequestType): seq<byte> {
    match kind
    case Launch => "launched"
    case End => "ended"
    case Sweep => "swept"
    case Cleanup => "cleaned"
    case Ping => "pong"
  }

  function ErrorCode(err: Error): seq<byte> {
    match err
    case NoError => ""
    case ExecFailed => "exec_failed"
    case NotPermitted => "launch_not_permitted"
    case EndDeadline => "end_deadline"
    case ProcRead => "proc_read_failed"
    case SweepFailed => "sweep_failed"
    case SweepBound => "sweep_bound"
    case CleanupFailed => "cleanup_failed"
    case CleanupTimeout => "cleanup_timeout"
    case MalformedRequest => "malformed_request"
    case GenMismatch => "gen_mismatch"
  }

  /** What the adapter is to learn of a message. */
  function Meant(msg: Message): Incoming {
    match msg
    case Reply(kind, gen, id, err) => Answer(ReplyTo(kind), gen, id, ErrorCode(err))
    case Exited(gen, status) =>
      ExitNotice(gen, Signaled(status), if Signaled(status) then TermSig(status) else ExitStatus(status))
  }

  // ------------------------------------------------------------------ reading what was written

  lemma {:induction false} LiteralRunOf(name: seq<byte>, more: seq<byte>)
    requires forall i :: 0 <= i < |name| ==> Literal(name[i])
    requires more != [] && !Literal(more[0])
    ensures LiteralRun(name + more) == |name|
    decreases |name|
  {
    if name == [] {
      assert name + more == more;
    } else {
      assert (name + more)[1..] == name[1..] + more;
      LiteralRunOf(name[1..], more);
    }
  }

  lemma QuotedRead(name: seq<byte>, more: seq<byte>)
    requires forall i :: 0 <= i < |name| ==> Literal(name[i])
    ensures ReadQuoted(name + ['"'] + more) == Some((name, more))
  {
    var s := name + ['"'] + more;
    assert s == name + (['"'] + more);
    LiteralRunOf(name, ['"'] + more);
    assert s[..|name|] == name && s[|name| + 1..] == more;
  }

  lemma NumberRead(n: nat, more: seq<byte>)
    requires more != [] && !IsDigit(more[0])
    ensures ReadRaw(Printed(n) + more) == Some((Digits(Printed(n)), more))
  {
    hide Printed, DigitRun;
    var s := Printed(n) + more;
    NoLeadingZero(n);
    DigitRunOf(Printed(n), more);
    assert s[..|Printed(n)|] == Printed(n) && s[|Printed(n)|..] == more;
    assert IsDigit(s[0]);
  }

  /** A member that is written is read, and reading goes on behind its comma. */
  lemma MemberRead(name: seq<byte>, value: seq<byte>, raw: Raw, more: seq<byte>, seen: map<seq<byte>, Raw>)
    requires forall i :: 0 <= i < |name| ==> Literal(name[i])
    requires name !in seen && ReadRaw(value + more) == Some((raw, more)) && more != []
    ensures ReadMembers(['"'] + name + ['"', ':'] + value + more, seen) ==
      if more[0] == ',' then ReadMembers(more[1..], seen[name := raw])
      else if more == ['}'] then Some(seen[name := raw]) else None
  {
    hide ReadRaw, ReadQuoted;
    var s := ['"'] + name + ['"', ':'] + value + more;
    var rest := [':'] + (value + more);
    assert s[1..] == name + ['"'] + rest;
    QuotedRead(name, rest);
    assert rest[1..] == value + more;
  }

  lemma TextRead(text: seq<byte>, more: seq<byte>)
    requires forall i :: 0 <= i < |text| ==> Literal(text[i])
    ensures ReadRaw(['"'] + text + ['"'] + more) == Some((Quoted(text), more))
  {
    var s := ['"'] + text + ['"'] + more;
    assert s[1..] == text + ['"'] + more;
    QuotedRead(text, more);
  }

  // ------------------------------------------------------------------ every message

  /** The members every message opens with. */
  function Opened(name: seq<byte>, gen: nat): map<seq<byte>, Raw> {
    map["type" := Quoted(name), "gen" := Digits(Printed(gen))]
  }

  /** The start of every line, up to the generation. */
  function Opening(name: seq<byte>, gen: nat): seq<byte> {
    "{\"type\":\"" + name + ['"'] + ",\"gen\":" + Printed(gen)
  }

  lemma OpeningRead(name: seq<byte>, gen: nat, tail: seq<byte>)
    requires (forall i :: 0 <= i < |name| ==> Literal(name[i])) && tail != [] && tail[0] == ','
    ensures ReadObject(Opening(name, gen) + tail) ==
      ReadMembers(tail[1..], Opened(name, gen))
  {
    hide ReadMembers, ReadRaw, Printed;
    var line := "{\"type\":\"" + name + ['"'] + ",\"gen\":" + Printed(gen) + tail;
    var after := ['"'] + "gen" + ['"', ':'] + Printed(gen) + tail;
    var more := [','] + after;
    assert line[1..] == ['"'] + "type" + ['"', ':'] + (['"'] + name + ['"']) + more;
    TextRead(name, more);
    assert (['"'] + name + ['"']) + more == ['"'] + name + ['"'] + more;
    MemberRead("type", ['"'] + name + ['"'], Quoted(name), more, map[]);
    assert more[1..] == after;
    NumberRead(gen, tail);
    MemberRead("gen", Printed(gen), Digits(Printed(gen)), tail, map["type" := Quoted(name)]);
    assert map["type" := Quoted(name)]["gen" := Digits(Printed(gen))] == Opened(name, gen);
  }

  lemma PrintedValue(n: nat)
    ensures DigitsOk(Printed(n)) && Decimal(Printed(n)) == n
  {
    NoLeadingZero(n);
  }

  /** What follows the generation of a reply, up to the terminator. */
  function ReplyTail(id: nat, code: seq<byte>): seq<byte> {
    ",\"id\":" + Printed(id) + if code == "" then "}" else ",\"error\":\"" + code + "\"}"
  }

  lemma ReplyTailRead(name: seq<byte>, gen: nat, id: nat, code: seq<byte>)
    requires forall i :: 0 <= i < |code| ==> Literal(code[i])
    ensures var m := Opened(name, gen)["id" := Digits(Printed(id))];
      ReadMembers(ReplyTail(id, code)[1..], Opened(name, gen)) ==
        Some(if code == "" then m else m["error" := Quoted(code)])
  {
    hide ReadMembers, ReadRaw, Printed;
    var more := if code == "" then "}" else ",\"error\":\"" + code + "\"}";
    assert ReplyTail(id, code)[1..] == ['"'] + "id" + ['"', ':'] + Printed(id) + more;
    NumberRead(id, more);
    MemberRead("id", Printed(id), Digits(Printed(id)), more, Opened(name, gen));
    if code != "" {
      ErrorRead(code, Opened(name, gen)["id" := Digits(Printed(id))]);
    }
  }

  lemma ErrorRead(code: seq<byte>, seen: map<seq<byte>, Raw>)
    requires (forall i :: 0 <= i < |code| ==> Literal(code[i])) && "error" !in seen
    ensures ReadMembers((",\"error\":\"" + code + "\"}")[1..], seen) == Some(seen["error" := Quoted(code)])
  {
    hide ReadMembers, ReadRaw;
    assert (",\"error\":\"" + code + "\"}")[1..] == ['"'] + "error" + ['"', ':'] + (['"'] + code + ['"']) + ['}'];
    TextRead(code, ['}']);
    assert (['"'] + code + ['"']) + ['}'] == ['"'] + code + ['"'] + ['}'];
    MemberRead("error", ['"'] + code + ['"'], Quoted(code), ['}'], seen);
  }

  lemma ReplyRead(name: seq<byte>, gen: nat, id: nat, code: seq<byte>)
    requires (forall i :: 0 <= i < |name| ==> Literal(name[i])) && forall i :: 0 <= i < |code| ==> Literal(code[i])
    requires gen <= MAX_U64 && id <= MAX_U64 && name in REPLY_NAMES && (code == "" || code in ERROR_CODES)
    ensures Decode(Opening(name, gen) + ReplyTail(id, code)) ==
      Some(Answer(name, gen, id, code))
  {
    hide ReadObject, ReadMembers, Printed, Opening;
    OpeningRead(name, gen, ReplyTail(id, code));
    ReplyTailRead(name, gen, id, code);
    PrintedValue(gen);
    PrintedValue(id);
    assert name != "exited";
  }

  /** What follows the generation of an exit notice, up to the terminator. */
  function ExitTail(signaled: bool, code: nat): seq<byte> {
    (if signaled then ",\"signal\":" else ",\"status\":") + Printed(code) + "}"
  }

  lemma ExitTailRead(gen: nat, signaled: bool, code: nat)
    ensures ReadMembers(ExitTail(signaled, code)[1..], Opened("exited", gen)) ==
      Some(Opened("exited", gen)[(if signaled then "signal" else "status") := Digits(Printed(code))])
  {
    hide ReadMembers, ReadRaw, Printed;
    NumberRead(code, ['}']);
    if signaled {
      assert ExitTail(signaled, code)[1..] == ['"'] + "signal" + ['"', ':'] + Printed(code) + ['}'];
      MemberRead("signal", Printed(code), Digits(Printed(code)), ['}'], Opened("exited", gen));
    } else {
      assert ExitTail(signaled, code)[1..] == ['"'] + "status" + ['"', ':'] + Printed(code) + ['}'];
      MemberRead("status", Printed(code), Digits(Printed(code)), ['}'], Opened("exited", gen));
    }
  }

  lemma ExitDecoded(gen: nat, signaled: bool, code: nat)
    requires code <= 255
    ensures var m := Opened("exited", gen)[(if signaled then "signal" else "status") := Digits(Printed(code))];
      DecodeExited(m, gen) == Some(ExitNotice(gen, signaled, code))
  {
    hide Printed;
    PrintedValue(code);
    var m := Opened("exited", gen)[(if signaled then "signal" else "status") := Digits(Printed(code))];
    if signaled {
      assert "status" !in m && "signal" in m;
    } else {
      assert "signal" !in m && "status" in m;
    }
  }

  lemma ExitRead(gen: nat, signaled: bool, code: nat)
    requires gen <= MAX_U64 && code <= 255
    ensures Decode(Opening("exited", gen) + ExitTail(signaled, code)) == Some(ExitNotice(gen, signaled, code))
  {
    hide ReadObject, ReadMembers, Printed, Opening, DecodeExited;
    TailStarts(signaled, code);
    OpeningRead("exited", gen, ExitTail(signaled, code));
    ExitTailRead(gen, signaled, code);
    ExitDecoded(gen, signaled, code);
    PrintedValue(gen);
  }

  lemma TailStarts(signaled: bool, code: nat)
    ensures ExitTail(signaled, code) != [] && ExitTail(signaled, code)[0] == ','
  {
    hide Printed;
  }

  lemma NamesAgree(kind: RequestType)
    ensures Templates.ReplyName(kind) == ReplyTo(kind) && ReplyTo(kind) in REPLY_NAMES
    ensures forall i :: 0 <= i < |ReplyTo(kind)| ==> Literal(ReplyTo(kind)[i])
  {
  }

  lemma CodesAgree(err: Error)
    ensures Templates.ErrorName(err) == ErrorCode(err) && (ErrorCode(err) == "" <==> err == NoError)
    ensures ErrorCode(err) == "" || ErrorCode(err) in ERROR_CODES
    ensures forall i :: 0 <= i < |ErrorCode(err)| ==> Literal(ErrorCode(err)[i])
  {
  }

  /** The line of a message without its terminator. */
  function LineOf(msg: Message): seq<byte> {
    var s := Templates.Rendered(msg);
    if s == [] then [] else s[..|s| - 1]
  }

  /** Whatever message the supervisor prints, the adapter reads back what was meant. */
  lemma DecodingInvertsPrinting(msg: Message)
    requires Templates.InRange(msg)
    ensures Templates.Rendered(msg) == LineOf(msg) + [NL] && NL !in LineOf(msg)
    ensures Decode(LineOf(msg)) == Some(Meant(msg))
  {
    hide Decode, Printed, Signaled, TermSig, ExitStatus;
    Templates.OneLine(msg);
    match msg
    case Reply(kind, gen, id, err) =>
      NamesAgree(kind);
      CodesAgree(err);
      ReplySpelled(kind, gen, id, err);
      ReplyRead(ReplyTo(kind), gen, id, ErrorCode(err));
    case Exited(gen, status) =>
      ExitSpelled(gen, status);
      CodeFits(status);
      ExitRead(gen, Signaled(status), if Signaled(status) then TermSig(status) else ExitStatus(status));
  }

  lemma ReplySpelled(kind: RequestType, gen: nat, id: nat, err: Error)
    ensures LineOf(Reply(kind, gen, id, err)) == Opening(ReplyTo(kind), gen) + ReplyTail(id, ErrorCode(err))
  {
    hide Printed, Templates.ReplyName, Templates.ErrorPart, Templates.OPEN, Templates.GEN, Templates.ID, ReplyTo, ErrorCode,
      ReplyTail, Opening;
    NamesAgree(kind);
    ErrorSpelled(id, err);
    OpeningSpelled(ReplyTo(kind), gen);
    var head := Templates.OPEN + ReplyTo(kind) + [Templates.QUOTE] + Templates.GEN + Printed(gen);
    var rest := Templates.ID + Printed(id) + Templates.ErrorPart(err);
    assert head + Templates.ID + Printed(id) + Templates.ErrorPart(err) == head + rest;
    assert Templates.Rendered(Reply(kind, gen, id, err)) ==
      Opening(ReplyTo(kind), gen) + ReplyTail(id, ErrorCode(err)) + [NL];
  }

  lemma ErrorSpelled(id: nat, err: Error)
    ensures Templates.ID + Printed(id) + Templates.ErrorPart(err) == ReplyTail(id, ErrorCode(err)) + [NL]
  {
    hide Printed, Templates.ErrorName, ErrorCode;
    CodesAgree(err);
    assert Templates.CLOSE == "}" + [NL];
  }

  lemma ExitSpelled(gen: nat, status: nat)
    ensures LineOf(Exited(gen, status)) ==
      Opening("exited", gen) + ExitTail(Signaled(status), if Signaled(status) then TermSig(status) else ExitStatus(status))
  {
    hide Printed, Signaled, TermSig, ExitStatus, Templates.StatusPart, ExitTail, Templates.OPEN, Templates.GEN;
    var code := if Signaled(status) then TermSig(status) else ExitStatus(status);
    var tail := ExitTail(Signaled(status), code);
    StatusSpelled(status);
    OpeningSpelled("exited", gen);
    assert Templates.Rendered(Exited(gen, status)) == Opening("exited", gen) + tail + [NL];
  }

  lemma OpeningSpelled(name: seq<byte>, gen: nat)
    ensures Templates.OPEN + name + [Templates.QUOTE] + Templates.GEN + Printed(gen) == Opening(name, gen)
  {
    hide Printed;
  }

  lemma StatusSpelled(status: nat)
    ensures Templates.StatusPart(status) ==
      ExitTail(Signaled(status), if Signaled(status) then TermSig(status) else ExitStatus(status)) + [NL]
  {
    hide Printed, Signaled, TermSig, ExitStatus;
    assert Templates.CLOSE == "}" + [NL];
  }

  /** A reply or a notice is far shorter than the longest line the adapter reads. */
  lemma LineIsShort(msg: Message)
    requires Templates.InRange(msg)
    ensures |LineOf(msg)| < 256
  {
    hide Printed, Signaled, TermSig, ExitStatus, Templates.ReplyName, Templates.ErrorName;
    Templates.Lengths();
    match msg
    case Reply(_, gen, id, _) =>
      TwentyDigits(gen);
      TwentyDigits(id);
    case Exited(gen, status) =>
      TwentyDigits(gen);
      CodeFits(status);
      TwentyDigits(TermSig(status));
      TwentyDigits(ExitStatus(status));
  }

  lemma CodeFits(status: nat)
    ensures TermSig(status) <= 255 && ExitStatus(status) <= 255
  {
  }
}
