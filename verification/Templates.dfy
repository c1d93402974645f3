/** The messages sent back, as the bytes written to the connection. */
module Templates {
  import opened Base
  import opened Messages
  import opened WaitStatus
  import opened LineReader
  import opened Numbers
  import opened Grammar
  import opened Recognizer

  /** The largest line any template writes, terminator included. */
  const MAX_REPLY: nat := 256

  function ReplyName(kind: RequestType): (s: seq<byte>)
    ensures 1 <= |s| <= 8 && '"' !in s && NL !in s
  {
    match kind
    case Launch => "launched"
    case End => "ended"
    case Sweep => "swept"
    case Cleanup => "cleaned"
    case Ping => "pong"
  }

  function ErrorName(e: Error): (s: seq<byte>)
    ensures |s| <= 20 && '"' !in s && NL !in s
  {
    match e
    case NoError => ""
    case ExecFailed => "exec_failed"
    case NotPermitted => "launch_not_permitted"
    case EndDeadline => "end_deadline"
    case ProcRead => "proc_read_failed"
    case SweepFailed => "sweep_failed"
    case SweepBound => "sweep_bound"
    case CleanupFailed => "cleanup_failed"
    case CleanupTimeout => "cleanup_timeout"
    case MalformedRequest => "malformed_request"
    case GenMismatch => "gen_mismatch"
  }

  const OPEN: seq<byte> := "{\"type\":\""
  const GEN: seq<byte> := ",\"gen\":"
  const ID: seq<byte> := ",\"id\":"
  const ERROR: seq<byte> := ",\"error\":\""
  const SIGNAL: seq<byte> := ",\"signal\":"
  const STATUS: seq<byte> := ",\"status\":"
  const CLOSE: seq<byte> := "}\n"
  const EXITED: seq<byte> := "exited"
  const QUOTE: byte := '"'

  /** What follows the identifier of a reply. */
  function ErrorPart(e: Error): seq<byte> {
    if e == NoError then CLOSE else ERROR + ErrorName(e) + [QUOTE] + CLOSE
  }

  function ReplyLine(kind: RequestType, gen: nat, id: nat, err: Error): seq<byte> {
    OPEN + ReplyName(kind) + [QUOTE] + GEN + Printed(gen) + ID + Printed(id) + ErrorPart(err)
  }

  /** What follows the generation of an exit notice: the signal, or the exit status. */
  function StatusPart(status: nat): seq<byte> {
    if Signaled(status) then SIGNAL + Printed(TermSig(status)) + CLOSE
    else STATUS + Printed(ExitStatus(status)) + CLOSE
  }

  function ExitedLine(gen: nat, status: nat): seq<byte> {
    OPEN + EXITED + [QUOTE] + GEN + Printed(gen) + StatusPart(status)
  }

  function Rendered(msg: Message): seq<byte> {
    match msg
    case Reply(kind, gen, id, err) => ReplyLine(kind, gen, id, err)
    case Exited(gen, status) => ExitedLine(gen, status)
  }

  predicate InRange(msg: Message) {
    match msg
    case Reply(_, gen, id, _) => gen <= MAX_U64 && id <= MAX_U64
    case Exited(gen, _) => gen <= MAX_U64
  }

  /** The message whose numbers are the 64-bit fields they are kept in. */
  function Narrowed(msg: Message): (r: Message)
    ensures InRange(r) && (InRange(msg) ==> r == msg)
  {
    match msg
    case Reply(kind, gen, id, err) => Reply(kind, Wrap(gen), Wrap(id), err)
    case Exited(gen, status) => Exited(Wrap(gen), status)
  }

  // ------------------------------------------------------------------ writing them

  /** Appends a string to a line under construction. */
  method Cat(out: array<byte>, pos: nat, s: seq<byte>) returns (n: nat)
    requires pos + |s| <= out.Length
    modifies out
    ensures n == pos + |s| && out[..n] == old(out[..pos]) + s
  {
    for i := 0 to |s|
      invariant forall j :: 0 <= j < pos ==> out[j] == old(out[j])
      invariant forall j :: 0 <= j < i ==> out[pos + j] == s[j]
    {
      out[pos + i] := s[i];
    }
    n := pos + |s|;
  }

  method CatU64(out: array<byte>, pos: nat, v: nat) returns (n: nat)
    requires v <= MAX_U64 && pos + 20 <= out.Length
    modifies out
    ensures n == pos + |Printed(v)| <= pos + 20 && out[..n] == old(out[..pos]) + Printed(v)
  {
    TwentyDigits(v);
    var k := FormatU64(out, pos, v);
    n := pos + k;
  }

  lemma Lengths()
    ensures |OPEN| == 9 && |GEN| == 7 && |ID| == 6 && |ERROR| == 10 && |CLOSE| == 2
    ensures |EXITED| == 6 && |SIGNAL| == 10 && |STATUS| == 10
  {
  }

  lemma StatusBounds(status: nat)
    ensures TermSig(status) <= MAX_U64 && ExitStatus(status) <= MAX_U64
  {
  }

  /** Writes a line up to its generation. */
  method FormatHead(out: array<byte>, name: seq<byte>, gen: nat) returns (n: nat)
    requires out.Length == MAX_REPLY && gen <= MAX_U64 && |name| <= 8
    modifies out
    ensures n <= 45 && out[..n] == OPEN + name + [QUOTE] + GEN + Printed(gen)
  {
    hide Printed, OPEN, GEN;
    Lengths();
    n := Cat(out, 0, OPEN);
    n := Cat(out, n, name);
    n := Cat(out, n, [QUOTE] + GEN);
    assert out[..n] == OPEN + name + [QUOTE] + GEN;
    n := CatU64(out, n, gen);
  }

  /** Writes what follows the identifier. */
  method FormatError(out: array<byte>, pos: nat, err: Error) returns (n: nat)
    requires out.Length == MAX_REPLY && pos <= 100
    modifies out
    ensures n <= MAX_REPLY && out[..n] == old(out[..pos]) + ErrorPart(err)
  {
    hide ErrorName, ERROR, CLOSE;
    Lengths();
    n := pos;
    if err != NoError {
      n := Cat(out, n, ERROR);
      n := Cat(out, n, ErrorName(err));
      n := Cat(out, n, [QUOTE]);
      assert out[..n] == old(out[..pos]) + (ERROR + ErrorName(err) + [QUOTE]);
    }
    n := Cat(out, n, CLOSE);
  }

  method FormatReply(out: array<byte>, kind: RequestType, gen: nat, id: nat, err: Error) returns (n: nat)
    requires out.Length == MAX_REPLY && gen <= MAX_U64 && id <= MAX_U64
    modifies out
    ensures n <= 256 && out[..n] == ReplyLine(kind, gen, id, err)
  {
    hide Printed, ReplyName, ErrorPart, OPEN, GEN, ID;
    Lengths();
    n := FormatHead(out, ReplyName(kind), gen);
    n := Cat(out, n, ID);
    n := CatU64(out, n, id);
    n := FormatError(out, n, err);
  }

  /** Writes what follows the generation of an exit notice; a signal is looked for first. */
  method FormatStatus(out: array<byte>, pos: nat, status: nat) returns (n: nat)
    requires out.Length == MAX_REPLY && pos <= 100
    modifies out
    ensures n <= MAX_REPLY && out[..n] == old(out[..pos]) + StatusPart(status)
  {
    hide Printed, Signaled, TermSig, ExitStatus, SIGNAL, STATUS, CLOSE;
    Lengths();
    StatusBounds(status);
    ghost var start := out[..pos];
    if Signaled(status) {
      n := Cat(out, pos, SIGNAL);
      n := CatU64(out, n, TermSig(status));
      assert out[..n] == start + (SIGNAL + Printed(TermSig(status)));
    } else {
      n := Cat(out, pos, STATUS);
      n := CatU64(out, n, ExitStatus(status));
      assert out[..n] == start + (STATUS + Printed(ExitStatus(status)));
    }
    n := Cat(out, n, CLOSE);
  }

  method FormatExited(out: array<byte>, gen: nat, status: nat) returns (n: nat)
    requires out.Length == MAX_REPLY && gen <= MAX_U64
    modifies out
    ensures n <= 256 && out[..n] == ExitedLine(gen, status)
  {
    hide Printed, StatusPart, OPEN, GEN, EXITED;
    Lengths();
    n := FormatHead(out, EXITED, gen);
    n := FormatStatus(out, n, status);
  }

  /** The line of a message, in a buffer of the size every template fits. */
  method Format(msg: Message) returns (line: seq<byte>)
    requires InRange(msg)
    ensures line == Rendered(msg) && |line| <= 256
  {
    var out := new byte[MAX_REPLY];
    var n;
    match msg {
      case Reply(kind, gen, id, err) => n := FormatReply(out, kind, gen, id, err);
      case Exited(gen, status) => n := FormatExited(out, gen, status);
    }
    line := out[..n];
  }

  // ------------------------------------------------------------------ reading them

  /** Two texts cut at the first of a character they end their first part with. */
  lemma {:induction false} Cut(a: seq<byte>, b: seq<byte>, more: seq<byte>, less: seq<byte>, c: byte)
    requires c !in a && c !in b && a + [c] + more == b + [c] + less
    ensures a == b && more == less
  {
    var s, t := a + [c] + more, b + [c] + less;
    assert s[0] == t[0];
    if a != [] && b != [] {
      assert s[1..] == a[1..] + [c] + more && t[1..] == b[1..] + [c] + less;
      Cut(a[1..], b[1..], more, less, c);
    } else {
      assert a == [] && b == [];
      assert s[1..] == more && t[1..] == less;
    }
  }

  /** Numbers followed by something else than a digit. */
  lemma CutNumber(m: nat, n: nat, more: seq<byte>, less: seq<byte>)
    requires more != [] && less != [] && !IsDigit(more[0]) && !IsDigit(less[0])
    requires Printed(m) + more == Printed(n) + less
    ensures m == n && more == less
  {
    hide Printed, DigitRun;
    DigitRunOf(Printed(m), more);
    DigitRunOf(Printed(n), less);
    var s, t := Printed(m) + more, Printed(n) + less;
    assert s[..|Printed(m)|] == Printed(m) && t[..|Printed(n)|] == Printed(n);
    assert s[|Printed(m)|..] == more && t[|Printed(n)|..] == less;
  }

  lemma Cancel(a: seq<byte>, more: seq<byte>, less: seq<byte>)
    requires a + more == a + less
    ensures more == less
  {
    assert (a + more)[|a|..] == more && (a + less)[|a|..] == less;
  }

  lemma Names(k: RequestType, l: RequestType)
    ensures ReplyName(k) == ReplyName(l) ==> k == l
    ensures ReplyName(k) != EXITED
  {
    assert ReplyName(k)[0] == ReplyName(l)[0] && |ReplyName(k)| == |ReplyName(l)| ==> k == l;
    assert ReplyName(k)[0] != 'e' || |ReplyName(k)| == 5;
  }

  lemma ErrorNames(e: Error, f: Error)
    requires e != NoError && f != NoError && ErrorName(e) == ErrorName(f)
    ensures e == f
  {
    assert |ErrorName(e)| == |ErrorName(f)|;
    assert ErrorName(e)[0] == ErrorName(f)[0];
    assert ErrorName(e)[6] == ErrorName(f)[6];
  }

  lemma ErrorParts(e: Error, f: Error)
    requires ErrorPart(e) == ErrorPart(f)
    ensures e == f
  {
    hide ErrorName;
    if e == NoError || f == NoError {
      assert CLOSE[0] != ERROR[0];
      assert ErrorPart(e)[0] == ErrorPart(f)[0];
    } else {
      assert ERROR + (ErrorName(e) + [QUOTE] + CLOSE) == ErrorPart(e);
      assert ERROR + (ErrorName(f) + [QUOTE] + CLOSE) == ErrorPart(f);
      Cancel(ERROR, ErrorName(e) + [QUOTE] + CLOSE, ErrorName(f) + [QUOTE] + CLOSE);
      Cut(ErrorName(e), ErrorName(f), CLOSE, CLOSE, QUOTE);
      ErrorNames(e, f);
    }
  }

  /** A line taken apart: the name in it, and what follows the name. */
  function NameOf(msg: Message): seq<byte> {
    if msg.Reply? then ReplyName(msg.kind) else EXITED
  }

  function GenOf(msg: Message): nat {
    if msg.Reply? then msg.gen else msg.exitGen
  }

  function TailOf(msg: Message): seq<byte> {
    if msg.Reply? then ID + Printed(msg.id) + ErrorPart(msg.err) else StatusPart(msg.status)
  }

  lemma Parts(msg: Message)
    ensures Rendered(msg) == OPEN + (NameOf(msg) + [QUOTE] + (GEN + (Printed(GenOf(msg)) + TailOf(msg))))
    ensures TailOf(msg) != [] && TailOf(msg)[0] == ','
    ensures QUOTE !in NameOf(msg)
  {
    hide Printed, ErrorPart, StatusPart, ReplyName, OPEN, GEN, ID, EXITED;
    if msg.Reply? {
      var start := OPEN + ReplyName(msg.kind) + [QUOTE] + GEN + Printed(msg.gen);
      assert start + ID + Printed(msg.id) + ErrorPart(msg.err) == start + TailOf(msg);
      IdStarts();
    } else {
      StatusStarts(msg.status);
    }
    Grouped(OPEN, NameOf(msg), [QUOTE], GEN, Printed(GenOf(msg)), TailOf(msg));
    assert QUOTE !in EXITED by { ExitedName(); }
  }

  lemma Grouped(a: seq<byte>, b: seq<byte>, c: seq<byte>, d: seq<byte>, e: seq<byte>, f: seq<byte>)
    ensures a + b + c + d + e + f == a + (b + c + (d + (e + f)))
  {
  }

  lemma IdStarts()
    ensures ID != [] && ID[0] == ','
  {
  }

  lemma StatusStarts(status: nat)
    ensures StatusPart(status) != [] && StatusPart(status)[0] == ','
  {
    hide Printed;
  }

  lemma ExitedName()
    ensures QUOTE !in EXITED
  {
  }

  /** What a reader of the line learns: of an exit notice, how the process ended. */
  ghost function Observed(msg: Message): Message {
    match msg
    case Reply(_, _, _, _) => msg
    case Exited(gen, status) => Exited(gen, if Signaled(status) then TermSig(status) else ExitStatus(status) * 256)
  }

  lemma StatusParts(s: nat, t: nat)
    requires StatusPart(s) == StatusPart(t)
    ensures Observed(Exited(0, s)) == Observed(Exited(0, t))
  {
    hide Printed, Signaled, TermSig, ExitStatus;
    assert SIGNAL[3] != STATUS[3];
    assert StatusPart(s)[3] == StatusPart(t)[3];
    var mark := if Signaled(s) then SIGNAL else STATUS;
    var m := if Signaled(s) then TermSig(s) else ExitStatus(s);
    var n := if Signaled(t) then TermSig(t) else ExitStatus(t);
    assert StatusPart(s) == mark + (Printed(m) + CLOSE);
    assert StatusPart(t) == mark + (Printed(n) + CLOSE);
    Cancel(mark, Printed(m) + CLOSE, Printed(n) + CLOSE);
    CutNumber(m, n, CLOSE, CLOSE);
  }

  /** Distinct messages are distinct lines: a line tells everything a reader may learn of its message. */
  lemma RenderedIsInjective(a: Message, b: Message)
    requires Rendered(a) == Rendered(b)
    ensures Observed(a) == Observed(b)
  {
    hide Rendered, Printed, ErrorPart, StatusPart, ReplyName;
    Parts(a);
    Parts(b);
    var afterA, afterB := GEN + (Printed(GenOf(a)) + TailOf(a)), GEN + (Printed(GenOf(b)) + TailOf(b));
    Cancel(OPEN, NameOf(a) + [QUOTE] + afterA, NameOf(b) + [QUOTE] + afterB);
    Cut(NameOf(a), NameOf(b), afterA, afterB, QUOTE);
    Cancel(GEN, Printed(GenOf(a)) + TailOf(a), Printed(GenOf(b)) + TailOf(b));
    CutNumber(GenOf(a), GenOf(b), TailOf(a), TailOf(b));
    SameTails(a, b);
  }

  lemma SameTails(a: Message, b: Message)
    requires NameOf(a) == NameOf(b) && GenOf(a) == GenOf(b) && TailOf(a) == TailOf(b)
    ensures Observed(a) == Observed(b)
  {
    hide Printed, ErrorPart, StatusPart, ReplyName;
    if a.Reply? {
      Names(a.kind, if b.Reply? then b.kind else a.kind);
      if b.Reply? {
        var p, q := Printed(a.id) + ErrorPart(a.err), Printed(b.id) + ErrorPart(b.err);
        assert TailOf(a) == ID + p && TailOf(b) == ID + q;
        Cancel(ID, p, q);
        ErrorStarts(a.err);
        ErrorStarts(b.err);
        CutNumber(a.id, b.id, ErrorPart(a.err), ErrorPart(b.err));
        ErrorParts(a.err, b.err);
      }
    } else {
      if b.Reply? {
        Names(b.kind, b.kind);
      } else {
        StatusParts(a.status, b.status);
      }
    }
  }

  lemma ErrorStarts(e: Error)
    ensures ErrorPart(e) != [] && !IsDigit(ErrorPart(e)[0])
  {
    hide ErrorName;
  }

  // ------------------------------------------------------------------ the stream of them

  /** A line ends with its only terminator. */
  lemma OneLine(msg: Message)
    ensures Rendered(msg) != [] && Rendered(msg)[|Rendered(msg)| - 1] == NL
    ensures NL !in Rendered(msg)[..|Rendered(msg)| - 1]
  {
    hide Rendered, Printed, NameOf, GenOf, TailOf;
    Parts(msg);
    Ends(msg);
    NameTidy(msg);
    DigitsOnly(GenOf(msg));
    FixedTidy();
    TidyJoined(OPEN, NameOf(msg), GEN, Printed(GenOf(msg)), TailOf(msg));
  }

  /** A line whose parts hold no terminator but the last byte of the last. */
  lemma TidyJoined(open: seq<byte>, name: seq<byte>, g: seq<byte>, gen: seq<byte>, tail: seq<byte>)
    requires NL !in open && NL !in name && NL !in g && NL !in gen
    requires tail != [] && tail[|tail| - 1] == NL && NL !in tail[..|tail| - 1]
    ensures var r := open + (name + [QUOTE] + (g + (gen + tail)));
      r != [] && r[|r| - 1] == NL && NL !in r[..|r| - 1]
  {
    var r, t := open + (name + [QUOTE] + (g + (gen + tail))), tail[..|tail| - 1];
    assert r[..|r| - 1] == open + (name + [QUOTE] + (g + (gen + t)));
  }

  lemma FixedTidy()
    ensures NL !in OPEN && NL !in GEN
  {
  }

  lemma NameTidy(msg: Message)
    ensures NL !in NameOf(msg)
  {
    if msg.Reply? {
      NoNewline(msg.kind);
    }
  }

  lemma NoNewline(kind: RequestType)
    ensures NL !in ReplyName(kind)
  {
  }

  lemma DigitsOnly(n: nat)
    ensures NL !in Printed(n)
  {
    hide Printed;
    var s := Printed(n);
    assert forall i :: 0 <= i < |s| ==> IsDigit(s[i]);
  }

  lemma Ends(msg: Message)
    ensures var t := TailOf(msg); t != [] && t[|t| - 1] == NL && NL !in t[..|t| - 1]
  {
    hide Printed, ErrorName, Signaled, TermSig, ExitStatus;
    var t := TailOf(msg);
    if msg.Reply? {
      DigitsOnly(msg.id);
      ErrorEnds(msg.err);
      var e := ErrorPart(msg.err);
      assert t[..|t| - 1] == ID + Printed(msg.id) + e[..|e| - 1];
    } else if Signaled(msg.status) {
      DigitsOnly(TermSig(msg.status));
      assert t[..|t| - 1] == SIGNAL + Printed(TermSig(msg.status)) + ['}'];
    } else {
      DigitsOnly(ExitStatus(msg.status));
      assert t[..|t| - 1] == STATUS + Printed(ExitStatus(msg.status)) + ['}'];
    }
  }

  lemma ErrorEnds(e: Error)
    ensures var p := ErrorPart(e); p != [] && p[|p| - 1] == NL && NL !in p[..|p| - 1]
  {
    hide ErrorName;
    var p := ErrorPart(e);
    if e == NoError {
      assert p[..|p| - 1] == ['}'];
    } else {
      assert p[..|p| - 1] == ERROR + ErrorName(e) + [QUOTE] + ['}'];
    }
  }

  /** What a sequence of messages puts on the connection. */
  function Wire(msgs: seq<Message>): seq<byte> {
    if msgs == [] then [] else Rendered(msgs[0]) + Wire(msgs[1..])
  }

  /** The reader of the stream, who splits it at the terminators, learns the messages, in order. */
  lemma {:induction false} WireIsReadable(a: seq<Message>, b: seq<Message>)
    requires Wire(a) == Wire(b)
    ensures |a| == |b| && forall i :: 0 <= i < |a| ==> Observed(a[i]) == Observed(b[i])
    decreases |a|
  {
    hide Rendered, Observed;
    if a != [] {
      OneLine(a[0]);
    }
    if b != [] {
      OneLine(b[0]);
    }
    if a != [] && b != [] {
      var p, q := Rendered(a[0]), Rendered(b[0]);
      var x, y := p[..|p| - 1], q[..|q| - 1];
      assert p == x + [NL] && q == y + [NL];
      assert Wire(a) == x + [NL] + Wire(a[1..]) && Wire(b) == y + [NL] + Wire(b[1..]);
      Cut(x, y, Wire(a[1..]), Wire(b[1..]), NL);
      RenderedIsInjective(a[0], b[0]);
      WireIsReadable(a[1..], b[1..]);
    }
  }
}
