/**
 The adapter's link to the supervisor, and the two of them joined by a byte stream each way. Either
 side may run ahead; what is written may stay in flight for any time.
 */
module Link {
  import opened Base
  import opened Messages
  import opened Protocol
  import opened Recognizer
  import opened LineReader
  import opened Grammar
  import opened Runs
  import opened Traffic
  import opened Workers
  import opened Deadlines
  import opened Verdicts
  import opened Adapter
  import opened Replies
  import Templates

  /** A call that is over, and the reply it was completed with. */
  datatype Completed = Completed(call: Call, reply: Incoming)

  /** What the adapter keeps of the link. */
  datatype LinkState = LinkState(
    gen: nat,                // the generation of the latest launch it sent
    nextId: nat,
    permitted: bool,         // it may send a launch
    pending: Option<Call>,   // the one request without a reply
    failed: bool,
    calls: seq<Completed>)   // the requests that were answered

  /** The request as it is sent: numbered, and a ping stamped with the generation of the latest launch. */
  function Stamped(a: LinkState, c: Call): Call {
    c.(id := a.nextId + 1, gen := if c.kind == Ping then a.gen else c.gen)
  }

  function Registered(a: LinkState, c: Call): LinkState {
    a.(gen := if c.kind == Launch then c.gen else a.gen, nextId := a.nextId + 1,
       permitted := a.permitted && c.kind != Launch, pending := Some(c))
  }

  /** Whether a message is one the link expects. */
  predicate Expected(a: LinkState, m: Incoming) {
    match m
    case ExitNotice(gen, _, _) => gen == a.gen
    case Answer(name, gen, id, _) =>
      && a.pending.Some?
      && (ReplyTo(a.pending.value.kind), a.pending.value.gen, a.pending.value.id) == (name, gen, id)
  }

  function Dispatched(a: LinkState, m: Incoming): LinkState {
    if !Expected(a, m) then a.(failed := true)
    else if m.ExitNotice? then a
    else
      a.(pending := None, permitted := a.permitted || (a.pending.value.kind == End && m.error == ""),
         calls := a.calls + [Completed(a.pending.value, m)])
  }

  /** The longest line the adapter reads. */
  const MAX_INCOMING: nat := 64 * 1024

  /** What one line makes of the link; one that is too long or cannot be decoded fails it. */
  function Hearing(a: LinkState, line: seq<byte>): LinkState {
    if |line| > MAX_INCOMING || Decode(line).None? then a.(failed := true) else Dispatched(a, Decode(line).value)
  }

  /** The reply of a call's own type, generation and identifier. */
  predicate OwnReply(c: Call, m: Incoming) {
    && m.Answer? && m.gen == c.gen && m.id == c.id
    && m.name == match c.kind
                 case Launch => "launched"
                 case End => "ended"
                 case Sweep => "swept"
                 case Cleanup => "cleaned"
                 case Ping => "pong"
  }

  class SupervisorLink {
    var gen: nat
    var nextId: nat
    var pending: Option<Call>
    var failed: bool
    var launchPermitted: bool
    var calls: seq<Completed>

    ghost function Now(): LinkState
      reads this
    {
      LinkState(gen, nextId, launchPermitted, pending, failed, calls)
    }

    constructor ()
      ensures Now() == LinkState(0, 0, true, None, false, [])
    {
      gen, nextId, pending, failed, launchPermitted, calls := 0, 0, None, false, true, [];
    }

    /** Numbers a request and records it as outstanding; a failed link sends nothing. */
    method Register(c: Call) returns (sent: Option<Call>)
      requires pending.None?
      modifies this
      ensures old(failed) ==> sent.None? && Now() == old(Now())
      ensures !old(failed) ==> sent == Some(Stamped(old(Now()), c)) && Now() == Registered(old(Now()), sent.value)
      ensures !old(failed) ==>
        && sent.value.id == old(nextId) + 1 == nextId && sent.value.kind == c.kind
        && sent.value.gen == (if c.kind == Ping then old(gen) else c.gen)
        && gen == (if c.kind.Launch? then c.gen else old(gen)) && pending == sent
        && (launchPermitted <==> old(launchPermitted) && !c.kind.Launch?)
    {
      if failed {
        return None;
      }
      nextId := nextId + 1;
      var stamped := c.(id := nextId);
      match c.kind {
        case Launch =>
          gen := c.gen;
          launchPermitted := false;
        case Ping => stamped := stamped.(gen := gen);
        case _ =>
      }
      pending := Some(stamped);
      return Some(stamped);
    }

    /** Launches the next generation when the permit is held. */
    method Launch() returns (sent: Option<Call>)
      requires pending.None?
      modifies this
      ensures sent.Some? <==> !old(failed) && old(launchPermitted)
      ensures sent.None? ==> Now() == old(Now())
      ensures sent.Some? ==> MaySend(old(Now()), sent.value) && Now() == Registered(old(Now()), sent.value)
    {
      if !launchPermitted {
        return None;
      }
      sent := Register(Call(RequestType.Launch, gen + 1, 0, None, [], None, None, None));
    }

    /** Routes one message. A reply that matches nothing, or an exit of another generation, fails the link. */
    method Dispatch(m: Incoming)
      modifies this
      ensures Now() == Dispatched(old(Now()), m)
      ensures pending == old(pending) || (pending.None? && OwnReply(old(pending).value, m))
      ensures launchPermitted <==>
        || old(launchPermitted)
        || (old(pending).Some? && old(pending).value.kind == End && OwnReply(old(pending).value, m) && m.error == "")
      ensures failed <==>
        || old(failed)
        || (m.ExitNotice? && m.gen != gen)
        || (m.Answer? && (old(pending).None? || !OwnReply(old(pending).value, m)))
      ensures gen == old(gen) && nextId == old(nextId)
    {
      match m
      case ExitNotice(g, _, _) =>
        if g != gen {
          failed := true;
        }
      case Answer(name, g, id, error) =>
        if pending.None? || ReplyTo(pending.value.kind) != name || pending.value.gen != g || pending.value.id != id {
          failed := true;
        } else {
          if pending.value.kind == End && error == "" {
            launchPermitted := true;
          }
          calls := calls + [Completed(pending.value, m)];
          pending := None;
        }
    }

    /** Reads one line of the stream and routes its message. */
    method ReadLine(line: seq<byte>)
      modifies this
      ensures Now() == Hearing(old(Now()), line)
      ensures |line| > 65536 || Decode(line).None? ==> Now() == old(Now()).(failed := true)
      ensures |line| <= 65536 && Decode(line).Some? ==> Now() == Dispatched(old(Now()), Decode(line).value)
    {
      if |line| > MAX_INCOMING {
        failed := true;
        return;
      }
      var m := Decode(line);
      if m.None? {
        failed := true;
        return;
      }
      Dispatch(m.value);
    }
  }

  /** What the adapter does with its link: it sends a call, or reads a line, whatever that holds. */
  datatype LinkStep = Calls(c: Call) | Hears(line: seq<byte>)

  function LinkRun(a: LinkState, steps: seq<LinkStep>): LinkState {
    if steps == [] then a
    else
      var b := LinkRun(a, steps[..|steps| - 1]);
      match steps[|steps| - 1]
      case Calls(c) => if b.failed || b.pending.Some? then b else Registered(b, Stamped(b, c))
      case Hears(line) => if b.failed then b else Hearing(b, line)
  }

  /** Whatever lines come in, a call is completed only by the reply of its own type, generation and identifier, and once. */
  lemma {:induction false} CallsGetTheirOwnReplies(steps: seq<LinkStep>)
    ensures var a := LinkRun(LinkState(0, 0, true, None, false, []), steps);
      && (forall i :: 0 <= i < |a.calls| ==> OwnReply(a.calls[i].call, a.calls[i].reply) && a.calls[i].call.id <= a.nextId)
      && (forall i, j :: 0 <= i < j < |a.calls| ==> a.calls[i].call.id < a.calls[j].call.id)
      && (a.pending.Some? ==> a.pending.value.id == a.nextId && forall i :: 0 <= i < |a.calls| ==> a.calls[i].call.id < a.nextId)
  {
    hide Decode;
    if steps != [] {
      CallsGetTheirOwnReplies(steps[..|steps| - 1]);
    }
  }

  /** What the adapter sends: one request at a time, and a launch only of the next generation, with the permit. */
  predicate MaySend(a: LinkState, c: Call) {
    && a.pending.None? && !a.failed && c.id == a.nextId + 1
    && (c.kind == Launch ==> a.permitted && c.gen == a.gen + 1 && c.graceMs.None? && Bare(c))
    && (c.kind == Ping ==> c.gen == a.gen)
  }

  // ------------------------------------------------------------------ adapter and supervisor joined

  datatype Joint = Joint(
    a: LinkState,
    l: Ledger,               // the observer's view of the supervisor
    up: seq<byte>,           // written by the adapter and not yet received
    down: seq<byte>)         // written by the supervisor and not yet read

  datatype JointStep = Sends(c: Call) | Reads | Does(e: Event)

  const BEGIN: Joint := Joint(LinkState(0, 0, true, None, false, []), START, [], [])

  predicate Enabled(s: Joint, step: JointStep) {
    match step
    case Sends(c) => MaySend(s.a, c)
    case Reads => !s.a.failed && HasLine(s.down)
    case Does(e) => Step(s.l, e).Some? && (e.Received? ==> e.bytes <= s.up)
  }

  function After(s: Joint, step: JointStep): Joint
    requires Enabled(s, step)
  {
    match step
    case Sends(c) => s.(a := Registered(s.a, c), up := s.up + Line(c) + [NL])
    case Reads => s.(a := Hearing(s.a, FirstLine(s.down)), down := AfterLine(s.down))
    case Does(e) =>
      s.(l := Step(s.l, e).value,
         up := if e.Received? then s.up[|e.bytes|..] else s.up,
         down := if e.Sent? then s.down + Templates.Rendered(e.msg) else s.down)
  }

  /** The state a run of both leaves, or None when some step was not possible. */
  function Joined(run: seq<JointStep>): Option<Joint> {
    if run == [] then Some(BEGIN)
    else
      var s, step := Joined(run[..|run| - 1]), run[|run| - 1];
      if s.Some? && Enabled(s.value, step) then Some(After(s.value, step)) else None
  }

  /** The supervisor's part of a joint run. */
  function EventsOf(run: seq<JointStep>): seq<Event> {
    if run == [] then []
    else
      var before, step := EventsOf(run[..|run| - 1]), run[|run| - 1];
      if step.Does? then before + [step.e] else before
  }

  lemma {:induction false} EventsAreAccepted(run: seq<JointStep>)
    requires Joined(run).Some?
    ensures Replay(EventsOf(run)) == Some(Joined(run).value.l)
  {
    hide Step;
    if run == [] {
      StartEmpty();
    } else {
      EventsAreAccepted(run[..|run| - 1]);
      if run[|run| - 1].Does? {
        ReplayAppend(EventsOf(run[..|run| - 1]), run[|run| - 1].e);
      }
    }
  }

  // ------------------------------------------------------------------ what always holds of the two

  /** Where the one outstanding request is. */
  datatype RequestPhase = Quiescent | Flying | Serving | Answered(at: nat)

  ghost predicate NoReply(down: seq<Message>) {
    forall i :: 0 <= i < |down| ==> down[i].Exited?
  }

  ghost predicate OnlyReply(down: seq<Message>, at: nat) {
    && at < |down| && down[at].Reply?
    && forall i :: 0 <= i < |down| && i != at ==> down[i].Exited?
  }

  ghost predicate ExitsOf(down: seq<Message>, gen: nat) {
    forall i :: 0 <= i < |down| && down[i].Exited? ==> down[i].exitGen == gen
  }

  ghost predicate NoExit(down: seq<Message>, from: nat) {
    forall i :: from <= i < |down| ==> down[i].Reply?
  }

  ghost predicate InPhase(s: Joint, p: RequestPhase, q: seq<Message>) {
    && (p.Quiescent? <==> s.a.pending.None?)
    && s.l.stream + s.up == (if p.Flying? then Line(s.a.pending.value) + [NL] else [])
    && match p
       case Quiescent => s.l.cur.None? && !s.l.doomed && NoReply(q)
       case Flying => s.l.cur.None? && !s.l.doomed && NoReply(q)
       case Serving =>
         && NoReply(q) && s.l.doomed == Parse(Line(s.a.pending.value)).Unreadable?
         && s.l.cur == if s.l.doomed then None else Some(Parse(Line(s.a.pending.value)))
       case Answered(at) =>
         && s.l.cur.None? && !s.l.doomed && OnlyReply(q, at)
         && HeadOf(q[at]) == (s.a.pending.value.kind, s.a.pending.value.gen, s.a.pending.value.id)
  }

  /** A launch was sent and not yet answered. */
  ghost predicate Launching(s: Joint, p: RequestPhase) {
    (p.Flying? || p.Serving?) && s.a.pending.Some? && s.a.pending.value.kind == Launch
  }

  predicate Cleared(m: Message) {
    m.Reply? && m.kind == End && m.err == NoError
  }

  /** The generations and permits of both sides fit each other. */
  ghost predicate InStep(s: Joint, p: RequestPhase, q: seq<Message>) {
    if Launching(s, p) then
      && s.a.gen == s.l.gen + 1 && s.l.permit && !s.a.permitted && NoExit(q, 0)
      && s.a.pending.value.gen == s.a.gen && s.a.pending.value.graceMs.None? && Bare(s.a.pending.value)
    else
      && s.a.gen == s.l.gen && ExitsOf(q, s.a.gen)
      && (s.a.permitted ==> s.l.permit && NoExit(q, 0))
      && (p.Answered? && p.at < |q| && Cleared(q[p.at]) ==> s.l.permit && NoExit(q, p.at))
      && (p.Answered? && p.at < |q| && q[p.at].Reply? && q[p.at].kind == Launch ==>
            q[p.at].err in {NoError, ExecFailed})
  }

  /** What is under way to the adapter is the bytes of these messages. */
  ghost predicate Carries(s: Joint, q: seq<Message>) {
    && s.down == Templates.Wire(q) && Bounded(s.l)
    && forall i :: 0 <= i < |q| ==> Templates.InRange(q[i])
  }

  ghost predicate Fit(s: Joint, p: RequestPhase, q: seq<Message>) {
    !s.a.failed && RuntimeFits(s.l) && InPhase(s, p, q) && InStep(s, p, q) && Carries(s, q)
  }

  lemma SendKeeps(s: Joint, c: Call, q: seq<Message>)
    requires Fit(s, Quiescent, q) && MaySend(s.a, c)
    ensures Fit(After(s, Sends(c)), Flying, q)
  {
    hide RuntimeFits, Line, Parse, Carries;
    assert s.l.stream == [] && s.up == [];
    assert s.l.stream + (s.up + Line(c) + [NL]) == Line(c) + [NL];
    CarriesOn(s, After(s, Sends(c)), q);
  }

  lemma CarriesOn(s: Joint, t: Joint, q: seq<Message>)
    requires t.down == s.down && t.l == s.l
    ensures Carries(s, q) ==> Carries(t, q)
  {
  }

  /** The first line under way is that of the first message, and what follows it that of the others. */
  lemma NextLine(q: seq<Message>)
    ensures HasLine(Templates.Wire(q)) <==> q != []
    ensures q != [] ==>
      FirstLine(Templates.Wire(q)) == LineOf(q[0]) && AfterLine(Templates.Wire(q)) == Templates.Wire(q[1..])
  {
    hide LineOf, Templates.Rendered;
    if q != [] {
      LineEnds(q[0]);
      FirstOf(LineOf(q[0]), Templates.Wire(q[1..]));
      assert Templates.Wire(q) == LineOf(q[0]) + [NL] + Templates.Wire(q[1..]);
    }
  }

  lemma LineEnds(m: Message)
    ensures Templates.Rendered(m) == LineOf(m) + [NL] && NL !in LineOf(m)
  {
    hide Templates.Rendered;
    Templates.OneLine(m);
  }

  lemma {:induction false} WireAppend(q: seq<Message>, m: Message)
    ensures Templates.Wire(q + [m]) == Templates.Wire(q) + Templates.Rendered(m)
  {
    hide Templates.Rendered;
    if q == [] {
      assert q + [m] == [m] && [m][1..] == [];
    } else {
      assert (q + [m])[1..] == q[1..] + [m];
      WireAppend(q[1..], m);
    }
  }

  /** What a line under way makes of the link. */
  lemma HeardAs(a: LinkState, m: Message)
    requires Templates.InRange(m)
    ensures |LineOf(m)| <= MAX_INCOMING && Hearing(a, LineOf(m)) == Dispatched(a, Meant(m))
  {
    hide Decode, LineOf, Meant;
    DecodingInvertsPrinting(m);
    LineIsShort(m);
  }

  lemma ReadKeeps(s: Joint, p: RequestPhase, q: seq<Message>) returns (next: RequestPhase)
    requires Fit(s, p, q) && HasLine(s.down)
    ensures q != [] && FirstLine(s.down) == LineOf(q[0]) && Expected(s.a, Meant(q[0]))
    ensures Fit(After(s, Reads), next, q[1..])
  {
    hide RuntimeFits, Line, Parse, LineOf, Hearing, ErrorCode, HasLine, FirstLine, AfterLine, Templates.Wire;
    NextLine(q);
    var m, rest := q[0], q[1..];
    HeardAs(s.a, m);
    ErrorTells(m);
    assert forall i :: 0 <= i < |rest| ==> rest[i] == q[i + 1];
    if m.Reply? {
      next := Quiescent;
    } else {
      next := if p.Answered? then Answered(p.at - 1) else p;
    }
  }

  lemma ErrorTells(m: Message)
    ensures m.Reply? ==> (ErrorCode(m.err) == "" <==> m.err == NoError)
  {
    if m.Reply? {
      CodesAgree(m.err);
    }
  }

  /** An event that sends nothing leaves what is under way as it was. */
  lemma CarriesQuietly(s: Joint, e: Event, q: seq<Message>)
    requires Carries(s, q) && Enabled(s, Does(e)) && !e.Sent?
    ensures Carries(After(s, Does(e)), q)
  {
    hide Step, Bounded;
    StepBounded(s.l, e);
  }

  lemma CarriesMore(s: Joint, e: Event, q: seq<Message>)
    requires Carries(s, q) && Enabled(s, Does(e)) && e.Sent?
    ensures Carries(After(s, Does(e)), q + [e.msg])
  {
    hide Step, Bounded, Templates.Wire, Templates.Rendered, Templates.InRange;
    StepBounded(s.l, e);
    WireAppend(q, e.msg);
  }

  /** Any event but a message or a line taken leaves both sides where they are. */
  lemma QuietStepKeeps(s: Joint, p: RequestPhase, q: seq<Message>, e: Event)
    requires Fit(s, p, q) && Enabled(s, Does(e)) && !e.Sent? && !e.Took?
    ensures Fit(After(s, Does(e)), p, q)
  {
    hide RuntimeFits, Line, Parse, Step, Carries;
    StepInput(s.l, e);
    StepFits(s.l, e);
    FitsServed(s.l);
    StepGen(s.l, e);
    StepPermits(s.l, e);
    CarriesQuietly(s, e, q);
    if e.Received? {
      assert s.up == e.bytes + s.up[|e.bytes|..];
      assert s.l.stream + s.up == (s.l.stream + e.bytes) + s.up[|e.bytes|..];
    }
  }

  lemma FitsServed(l: Ledger)
    requires RuntimeFits(l)
    ensures EndingServed(l) && (l.permit ==> l.notice.None?) && (l.notice.Some? ==> l.notice.value.gen == l.gen)
  {
  }

  /** The first line of what arrived of one line is that line, and nothing is left. */
  lemma WholeLine(line: seq<byte>, stream: seq<byte>, up: seq<byte>)
    requires NL !in line && stream + up == line + [NL] && HasLine(stream)
    ensures FirstLine(stream) == line && AfterLine(stream) == [] && up == []
  {
    var n := FirstNewline(stream);
    assert (stream + up)[n] == NL;
    assert n == |line|;
    assert |stream| == |line| + 1;
    assert stream == (stream + up)[..|stream|];
  }

  lemma TakeKeeps(s: Joint, p: RequestPhase, q: seq<Message>, e: Event)
    requires Fit(s, p, q) && Enabled(s, Does(e)) && e.Took?
    ensures Fit(After(s, Does(e)), Serving, q)
  {
    hide RuntimeFits, Line, Parse, Step, HasLine, FirstLine, AfterLine, Carries;
    StepInput(s.l, e);
    StepFits(s.l, e);
    FitsServed(s.l);
    StepGen(s.l, e);
    StepPermits(s.l, e);
    CarriesQuietly(s, e, q);
    NothingToTake(s.l.stream);
    CallIsOneLine(s.a.pending.value);
    WholeLine(Line(s.a.pending.value), s.l.stream, s.up);
  }

  lemma NothingToTake(stream: seq<byte>)
    ensures stream == [] ==> !HasLine(stream)
  {
  }

  /** An exit notice joins what is under way. */
  lemma ExitQueued(q: seq<Message>, m: Message)
    requires m.Exited?
    ensures NoReply(q) ==> NoReply(q + [m])
    ensures ExitsOf(q, m.exitGen) ==> ExitsOf(q + [m], m.exitGen)
    ensures forall at: nat :: OnlyReply(q, at) ==> OnlyReply(q + [m], at) && (q + [m])[at] == q[at]
  {
  }

  lemma ExitedKeeps(s: Joint, p: RequestPhase, q: seq<Message>, e: Event)
    requires Fit(s, p, q) && Enabled(s, Does(e)) && IsExited(e)
    ensures Fit(After(s, Does(e)), p, q + [e.msg])
  {
    hide RuntimeFits, Line, Parse, Step, Carries, NoReply, OnlyReply, NoExit, ExitsOf;
    if p.Answered? {
      InQueue(q, p.at);
    }
    ExitQueued(q, e.msg);
    StepInput(s.l, e);
    StepFits(s.l, e);
    FitsServed(s.l);
    StepGen(s.l, e);
    StepPermits(s.l, e);
    StepExited(s.l, e);
    CarriesMore(s, e, q);
  }

  lemma InQueue(q: seq<Message>, at: nat)
    requires OnlyReply(q, at)
    ensures at < |q| && q[at].Reply?
  {
  }

  /** The reply to a launch of this adapter accepts it; that to an end without error grants the permit. */
  lemma ReplyMeans(s: Joint, q: seq<Message>, e: Event)
    requires Fit(s, Serving, q) && Enabled(s, Does(e)) && e.Sent? && e.msg.Reply? && !s.l.doomed
    ensures HeadOf(e.msg) == (s.a.pending.value.kind, s.a.pending.value.gen, s.a.pending.value.id)
    ensures e.msg.kind == Launch ==> LaunchAccepted(e)
    ensures Cleared(e.msg) ==> s.l.pass.ending && Attested(s.l)
  {
    hide RuntimeFits, Line, Step, EndErrorOk, Attested, Carries;
    var c := s.a.pending.value;
    StepInput(s.l, e);
    LinesAreJudgedExactly(c);
    if c.kind == Launch {
      LaunchReplied(s.l, e);
    }
    if e.msg.kind == End {
      EndReplied(s.l, e);
      EndWithoutError(s.l, e.msg.err, e.at);
    }
  }

  lemma EndWithoutError(l: Ledger, err: Error, at: nat)
    ensures EndErrorOk(l, err, at) && err == NoError ==> Attested(l)
  {
  }

  /** A reply joins what is under way. */
  lemma ReplyQueued(q: seq<Message>, m: Message)
    requires m.Reply?
    ensures (q + [m])[|q|] == m && NoExit(q + [m], |q|) && (NoExit(q, 0) ==> NoExit(q + [m], 0))
    ensures NoReply(q) ==> OnlyReply(q + [m], |q|)
    ensures forall gen: nat :: ExitsOf(q, gen) ==> ExitsOf(q + [m], gen)
    ensures NoExit(q, 0) ==> forall gen: nat :: ExitsOf(q + [m], gen)
  {
  }

  lemma ReplyKeeps(s: Joint, p: RequestPhase, q: seq<Message>, e: Event)
    requires Fit(s, p, q) && Enabled(s, Does(e)) && e.Sent? && e.msg.Reply?
    ensures Fit(After(s, Does(e)), Answered(|q|), q + [e.msg])
  {
    hide RuntimeFits, Line, Parse, Step, Attested, Carries, NoReply, OnlyReply, NoExit, ExitsOf;
    ReplyQueued(q, e.msg);
    StepInput(s.l, e);
    assert p.Serving?;
    StepFits(s.l, e);
    FitsServed(s.l);
    StepGen(s.l, e);
    StepPermits(s.l, e);
    ReplyMeans(s, q, e);
    CarriesMore(s, e, q);
  }

  lemma DoesKeeps(s: Joint, p: RequestPhase, q: seq<Message>, e: Event) returns (next: RequestPhase, more: seq<Message>)
    requires Fit(s, p, q) && Enabled(s, Does(e))
    ensures Fit(After(s, Does(e)), next, more)
  {
    hide Fit, Enabled, After;
    next, more := p, q;
    if e.Took? {
      TakeKeeps(s, p, q, e);
      next := Serving;
    } else if !e.Sent? {
      QuietStepKeeps(s, p, q, e);
    } else if e.msg.Reply? {
      ReplyKeeps(s, p, q, e);
      next, more := Answered(|q|), q + [e.msg];
    } else {
      ExitedKeeps(s, p, q, e);
      more := q + [e.msg];
    }
  }

  lemma {:induction false} AlwaysFit(run: seq<JointStep>) returns (p: RequestPhase, q: seq<Message>)
    requires Joined(run).Some?
    ensures Fit(Joined(run).value, p, q)
  {
    hide Fit, Enabled, After;
    if run == [] {
      p, q := Quiescent, [];
      BeginFits();
    } else {
      p, q := AlwaysFit(run[..|run| - 1]);
      var s := Joined(run[..|run| - 1]).value;
      match run[|run| - 1] {
        case Sends(c) =>
          SendingIsIdle(s, p, q, c);
          SendKeeps(s, c, q);
          p := Flying;
        case Reads =>
          ReadingIsPossible(s);
          p := ReadKeeps(s, p, q);
          q := q[1..];
        case Does(e) => p, q := DoesKeeps(s, p, q, e);
      }
    }
  }

  lemma BeginFits()
    ensures Fit(BEGIN, Quiescent, [])
  {
  }

  lemma SendingIsIdle(s: Joint, p: RequestPhase, q: seq<Message>, c: Call)
    requires Fit(s, p, q) && Enabled(s, Sends(c))
    ensures p == Quiescent && MaySend(s.a, c)
  {
    hide RuntimeFits, Line, Parse, Step, Carries;
  }

  lemma ReadingIsPossible(s: Joint)
    requires Enabled(s, Reads)
    ensures HasLine(s.down)
  {
  }

  // ------------------------------------------------------------------ what follows

  /**
   Whatever either side does and however long bytes are under way, the adapter never meets a line
   it cannot decode, a reply that matches no request of its own, or an exit of another generation.
   */
  lemma LinkNeverFails(run: seq<JointStep>)
    requires Joined(run).Some?
    ensures !Joined(run).value.a.failed
    ensures forall i :: 0 <= i < |run| && run[i].Reads? ==>
      Joined(run[..i]).Some? && HasLine(Joined(run[..i]).value.down)
      && var s := Joined(run[..i]).value; var m := Decode(FirstLine(s.down));
         m.Some? && Expected(s.a, m.value)
  {
    hide Fit, Enabled, After, Joined, Expected, Decode, HasLine, FirstLine, Hearing;
    var p, q := AlwaysFit(run);
    NotFailed(Joined(run).value, p, q);
    forall i | 0 <= i < |run| && run[i].Reads?
      ensures Joined(run[..i]).Some? && HasLine(Joined(run[..i]).value.down)
      ensures Decode(FirstLine(Joined(run[..i]).value.down)).Some?
      ensures Expected(Joined(run[..i]).value.a, Decode(FirstLine(Joined(run[..i]).value.down)).value)
    {
      JoinedPrefix(run, i);
      ReadingIsPossible(Joined(run[..i]).value);
      var r, u := AlwaysFit(run[..i]);
      var n := ReadKeeps(Joined(run[..i]).value, r, u);
      InRangeIn(Joined(run[..i]).value, r, u);
      DecodingInvertsPrinting(u[0]);
    }
  }

  lemma InRangeIn(s: Joint, p: RequestPhase, q: seq<Message>)
    requires Fit(s, p, q) && q != []
    ensures Templates.InRange(q[0])
  {
    hide InPhase, InStep, RuntimeFits, Templates.InRange;
  }

  lemma NotFailed(s: Joint, p: RequestPhase, q: seq<Message>)
    requires Fit(s, p, q)
    ensures !s.a.failed
  {
  }

  lemma {:induction false} JoinedPrefix(run: seq<JointStep>, i: nat)
    requires Joined(run).Some? && i < |run|
    ensures Joined(run[..i]).Some? && Enabled(Joined(run[..i]).value, run[i])
    decreases |run|
  {
    hide Enabled, After;
    var n := |run| - 1;
    if i < n {
      JoinedPrefix(run[..n], i);
      assert run[..n][..i] == run[..i];
    }
  }

  /**
   A launch this adapter sends is never refused, whatever messages one takes the bytes under way
   for, and between requests both sides count the same generation.
   */
  lemma LaunchesAreTaken(run: seq<JointStep>)
    requires Joined(run).Some?
    ensures var s := Joined(run).value;
      && (forall q: seq<Message> :: s.down == Templates.Wire(q) ==>
            forall i :: 0 <= i < |q| && q[i].Reply? && q[i].kind == Launch ==> q[i].err in {NoError, ExecFailed})
      && (s.a.pending.None? ==> s.a.gen == s.l.gen && (s.a.permitted ==> s.l.permit))
  {
    hide RuntimeFits, Line, Parse, Joined, Templates.Wire, Templates.Observed;
    var s := Joined(run).value;
    var p, u := AlwaysFit(run);
    forall q: seq<Message> | s.down == Templates.Wire(q)
      ensures forall i :: 0 <= i < |q| && q[i].Reply? && q[i].kind == Launch ==> q[i].err in {NoError, ExecFailed}
    {
      Templates.WireIsReadable(q, u);
      forall i | 0 <= i < |q| && q[i].Reply? && q[i].kind == Launch
        ensures q[i].err in {NoError, ExecFailed}
      {
        SameReply(q[i], u[i]);
      }
    }
  }

  lemma SameReply(m: Message, n: Message)
    requires Templates.Observed(m) == Templates.Observed(n)
    ensures m.Reply? ==> m == n
  {
  }

  /** A call whose line the supervisor can read. */
  predicate Readable(c: Call) {
    |Line(c)| <= 65536 && c.gen <= 9007199254740991 && c.id <= 9007199254740991
  }

  lemma {:induction false} PendingReadable(run: seq<JointStep>)
    requires Joined(run).Some? && forall i :: 0 <= i < |run| && run[i].Sends? ==> Readable(run[i].c)
    ensures Joined(run).value.a.pending.Some? ==> Readable(Joined(run).value.a.pending.value)
  {
    hide Step, Readable;
    if run != [] {
      PendingReadable(run[..|run| - 1]);
    }
  }

  lemma NotTooLong(line: seq<byte>, stream: seq<byte>, up: seq<byte>)
    requires stream + up == line + [NL] && |line| <= MAX_LINE
    ensures !TooLong(stream)
  {
    if |stream| > |line| {
      assert stream[|line|] == (stream + up)[|line|];
    }
  }

  /** As long as every call can be read, the supervisor never exits over what the adapter wrote. */
  lemma ReadableCallsNeverStopIt(run: seq<JointStep>, i: nat)
    requires Joined(run).Some? && i < |run| && forall k :: 0 <= k < |run| && run[k].Sends? ==> Readable(run[k].c)
    ensures run[i] != Does(Stopped(6))
  {
    hide RuntimeFits, Line, Parse, Joined, Step, TooLong, After;
    if run[i] == Does(Stopped(EXIT_PROTOCOL)) {
      JoinedPrefix(run, i);
      PendingReadable(run[..i]);
      var s := Joined(run[..i]).value;
      var p, q := AlwaysFit(run[..i]);
      StopCause(s.l);
      if p.Flying? {
        NotTooLong(Line(s.a.pending.value), s.l.stream, s.up);
      } else {
        NotTooLong([], [], [NL]);
      }
      if p.Serving? {
        LinesAreJudgedExactly(s.a.pending.value);
      }
    }
  }
}
