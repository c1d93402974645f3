/**
 That the protocol never gets stuck: from every idle state of the two ends some events complete a
 launch, and some an end, so joint runs with any number of generations exist. The events are ones
 the observer accepts.
 */
module Generations {
  import opened Base
  import opened Messages
  import opened Protocol
  import opened Recognizer
  import opened LineReader
  import opened Grammar
  import opened Numbers
  import opened Runs
  import opened Traffic
  import opened GoJson
  import opened Adapter
  import opened Replies
  import opened Link
  import Templates

  // ------------------------------------------------------------------ the lines of launches and ends

  function LaunchCall(gen: nat, id: nat): Call {
    Call(Launch, gen, id, None, [], None, None, None)
  }

  function EndCall(gen: nat, id: nat): Call {
    Call(End, gen, id, Some(0), [], None, None, None)
  }

  lemma FieldSize(k: Key, n: nat)
    requires n <= MAX_JSON_INT
    ensures |WrittenMember(MemberOf(Field(k, NumberValue(n))))| <= 60
  {
    hide Printed;
    TwentyDigits(n);
    RawWritten(TagName(k));
  }

  lemma TypeSize(kind: RequestType)
    ensures |WrittenMember(MemberOf(Field(Type, NameValue(KindName(kind)))))| <= 60
  {
    RawWritten(TagName(Type));
    RawWritten(KindName(kind));
  }

  lemma {:induction false} MembersFit(ms: seq<Member>)
    requires forall i :: 0 <= i < |ms| ==> |WrittenMember(ms[i])| <= 60
    ensures |WrittenMembers(ms)| <= 61 * |ms|
    decreases |ms|
  {
    hide WrittenMember;
    if |ms| > 1 {
      MembersFit(ms[1..]);
    }
  }

  lemma CallsAreReadable(gen: nat, id: nat)
    requires gen <= MAX_JSON_INT && id <= MAX_JSON_INT
    ensures Readable(LaunchCall(gen, id)) && Parse(Line(LaunchCall(gen, id))) == Ok(RequestOf(LaunchCall(gen, id)))
    ensures Readable(EndCall(gen, id)) && Parse(Line(EndCall(gen, id))) == Ok(RequestOf(EndCall(gen, id)))
  {
    hide WrittenMember, WrittenMembers, NumberValue, NameValue, MemberOf, Parse;
    FieldSize(Gen, gen);
    FieldSize(Id, id);
    FieldSize(Grace, 0);
    TypeSize(Launch);
    TypeSize(End);
    MembersFit(MembersOf(Fields(LaunchCall(gen, id))));
    MembersFit(MembersOf(Fields(EndCall(gen, id))));
    LinesAreJudgedExactly(LaunchCall(gen, id));
    LinesAreJudgedExactly(EndCall(gen, id));
  }

  // ------------------------------------------------------------------ one request from end to end

  /** Nothing is outstanding or under way, and the supervisor is still there. */
  predicate AtRest(s: Joint) {
    && s.a.pending.None? && !s.a.failed && s.up == [] && s.down == []
    && s.l.stream == [] && s.l.cur.None? && s.l.notice.None?
    && !s.l.doomed && !s.l.offered && !s.l.gone && !s.l.over && !MidLaunch(s.l)
  }

  lemma Extend(run: seq<JointStep>, step: JointStep)
    requires Joined(run).Some? && Enabled(Joined(run).value, step)
    ensures Joined(run + [step]) == Some(After(Joined(run).value, step))
  {
    hide Enabled, After;
    assert (run + [step])[..|run|] == run;
  }

  /** The state in which a request is being served. */
  function Served(s: Joint, c: Call): Joint {
    s.(a := Registered(s.a, c), l := s.l.(cur := Some(Ok(RequestOf(c))), job := NO_JOB, pass := NO_PASS))
  }

  lemma Arrives(l: Ledger, line: seq<byte>, req: Request)
    requires l.stream == [] && l.cur.None? && l.notice.None? && !l.doomed && !l.offered && !l.gone && !l.over
    requires NL !in line && |line| <= MAX_LINE && Parse(line) == Ok(req)
    ensures Step(l, Offered) == Some(l.(offered := true))
    ensures Step(l.(offered := true), Received(line + [NL])) == Some(l.(stream := line + [NL]))
    ensures Step(l.(stream := line + [NL]), Took(line)) == Some(l.(cur := Some(Ok(req)), job := NO_JOB, pass := NO_PASS))
  {
    hide Parse, HasLine, FirstLine, AfterLine;
    assert [] + (line + [NL]) == line + [NL];
    FirstOf(line, []);
    assert line + [NL] + [] == line + [NL];
  }

  /** A request that can be read reaches the supervisor. */
  lemma Delivered(run: seq<JointStep>, c: Call) returns (next: seq<JointStep>)
    requires Joined(run).Some? && AtRest(Joined(run).value) && MaySend(Joined(run).value.a, c)
    requires Readable(c) && Parse(Line(c)) == Ok(RequestOf(c))
    ensures Joined(next) == Some(Served(Joined(run).value, c))
  {
    hide Joined, Step, Line, Parse, RequestOf;
    var s, line := Joined(run).value, Line(c);
    CallIsOneLine(c);
    Arrives(s.l, line, RequestOf(c));
    Extend(run, Sends(c));
    next := run + [Sends(c)];
    assert [] + line + [NL] == line + [NL];
    Extend(next, Does(Offered));
    next := next + [Does(Offered)];
    Extend(next, Does(Received(line + [NL])));
    next := next + [Does(Received(line + [NL]))];
    assert (line + [NL])[|line + [NL]|..] == [];
    Extend(next, Does(Took(line)));
    next := next + [Does(Took(line))];
  }

  /** A reply that is sent is read, and the request is done. */
  lemma Replied(run: seq<JointStep>, msg: Message, at: nat) returns (next: seq<JointStep>)
    requires Joined(run).Some? && Joined(run).value.down == [] && Step(Joined(run).value.l, Sent(msg, at)).Some?
    requires !Joined(run).value.a.failed && Templates.InRange(msg)
    ensures var s := Joined(run).value;
      Joined(next) == Some(s.(a := Dispatched(s.a, Meant(msg)), l := Step(s.l, Sent(msg, at)).value))
  {
    hide Joined, Step, Dispatched, Meant, Hearing, Templates.Rendered, Templates.Wire, LineOf, HasLine, FirstLine, AfterLine;
    var s := Joined(run).value;
    Extend(run, Does(Sent(msg, at)));
    next := run + [Does(Sent(msg, at))];
    OnTheWire(msg);
    HeardAs(s.a, msg);
    Extend(next, Reads);
    next := next + [Reads];
  }

  lemma OnTheWire(msg: Message)
    ensures var down := [] + Templates.Rendered(msg);
      HasLine(down) && FirstLine(down) == LineOf(msg) && AfterLine(down) == []
  {
    hide Templates.Rendered, LineOf, HasLine, FirstLine, AfterLine;
    NextLine([msg]);
    assert Templates.Wire([msg]) == [] + Templates.Rendered(msg) by {
      assert [msg][1..] == [] && Templates.Wire([]) == [];
    }
    assert [msg][1..] == [] && Templates.Wire([]) == [];
  }

  /** The supervisor's next event. */
  lemma Happens(run: seq<JointStep>, e: Event)
    requires Joined(run).Some? && Step(Joined(run).value.l, e).Some? && !e.Received? && !e.Sent?
    ensures var s := Joined(run).value; Joined(run + [Does(e)]) == Some(s.(l := Step(s.l, e).value))
  {
    hide Joined, Step;
    Extend(run, Does(e));
  }

  // ------------------------------------------------------------------ launches and ends

  const RUNTIME_PID := 2

  /** The permit is held on both sides and no process runs. */
  predicate MayLaunch(s: Joint) {
    AtRest(s) && s.a.permitted && s.l.permit && s.l.runtime.None? && s.a.gen == s.l.gen
  }

  /** A launched process runs. */
  predicate Running(s: Joint) {
    AtRest(s) && s.l.runtime.Some? && s.a.gen == s.l.gen
  }

  lemma LaunchSteps(l: Ledger, req: Request)
    requires l.cur == Some(Ok(req)) && req.kind == Launch && req.gen == l.gen + 1 && l.permit && l.runtime.None?
    requires l.job == NO_JOB && l.notice.None? && !l.doomed && !l.offered && !l.gone && !l.over
    ensures var forked := l.(runtime := Some(Process(RUNTIME_PID, req.gen)), announced := false);
      && Step(l, Forked(RUNTIME_PID, RuntimeProcess, 0)) == Some(forked)
      && var execed := forked.(job := NO_JOB.(exec := Some(true)));
         && Step(forked, Execed(true)) == Some(execed)
         && Step(execed, Sent(Reply(Launch, req.gen, req.id, NoError), 0)) ==
              Some(execed.(cur := None, pass := l.pass.(ending := false), gen := req.gen, announced := true,
                permit := false))
  {
  }

  /** From every state in which the permit is held a launch can be completed. */
  lemma LaunchCompletes(run: seq<JointStep>) returns (next: seq<JointStep>)
    requires Joined(run).Some? && MayLaunch(Joined(run).value)
    requires Joined(run).value.a.gen < MAX_JSON_INT && Joined(run).value.a.nextId < MAX_JSON_INT
    ensures Joined(next).Some? && Running(Joined(next).value)
    ensures Joined(next).value.a.gen == Joined(run).value.a.gen + 1
    ensures Joined(next).value.a.nextId == Joined(run).value.a.nextId + 1
  {
    hide Joined, Step, Line, Parse, Readable;
    var s := Joined(run).value;
    var c := LaunchCall(s.a.gen + 1, s.a.nextId + 1);
    CallsAreReadable(c.gen, c.id);
    next := Delivered(run, c);
    LaunchSteps(Served(s, c).l, RequestOf(c));
    Happens(next, Forked(RUNTIME_PID, RuntimeProcess, 0));
    next := next + [Does(Forked(RUNTIME_PID, RuntimeProcess, 0))];
    Happens(next, Execed(true));
    next := next + [Does(Execed(true))];
    next := Replied(next, Reply(Launch, c.gen, c.id, NoError), 0);
  }

  const TERMED: Pass := NO_PASS.(ending := true)

  /** One clean pass, at once. */
  lemma CleanPass(l: Ledger)
    requires l.pass.ending && !l.pass.late && l.pass.termAt == 0 && GraceOf(l) == 0 && !l.pass.zero
    requires l.pass.firstAt.None? || l.pass.firstAt == Some(0)
    requires l.runtime.None? && l.notice.None? && !l.doomed && !l.offered && !l.gone && !l.over
    ensures var struck := l.(pass := l.pass.(struck := true, firstAt := Some(0)), drained := false);
      && Step(l, SignaledAll(9, 0)) == Some(struck)
      && Step(struck, Drained) == Some(struck.(drained := true))
      && var counted :=
           l.(drained := true, pass := l.pass.(struck := false, firstAt := Some(0), scanned := true, zero := true, unread := false));
         && Step(struck.(drained := true), Counted({})) == Some(counted)
         && Step(counted, PidsRead(1, 0)) ==
           Some(counted.(pass := counted.pass.(zero := false, passes := l.pass.passes + 1)))
  {
    hide GraceOf;
    var struck := l.(pass := l.pass.(struck := true, firstAt := Some(0)), drained := true);
    assert GraceOf(struck) == GraceOf(l) by { SameGrace(l, struck); }
  }

  lemma SameGrace(a: Ledger, b: Ledger)
    requires b.cur == a.cur && b.gen == a.gen
    ensures GraceOf(b) == GraceOf(a)
  {
  }

  lemma EndStarts(l: Ledger, req: Request)
    requires l.cur == Some(Ok(req)) && req.kind == End && req.gen == l.gen && req.graceMs == 0
    requires l.runtime.Some? && !MidLaunch(l) && l.pass == NO_PASS
    requires l.notice.None? && !l.doomed && !l.offered && !l.gone && !l.over
    ensures Step(l, SignaledAll(15, 0)) == Some(l.(pass := TERMED))
    ensures Step(l.(pass := TERMED), Collected(l.runtime.value.pid, 0)) == Some(l.(pass := TERMED, runtime := None))
    ensures GraceOf(l.(pass := TERMED, runtime := None)) == 0
  {
  }

  lemma EndReplies(l: Ledger, req: Request)
    requires l.cur == Some(Ok(req)) && req.kind == End && req.gen == l.gen
    requires l.pass.ending && Attested(l) && !l.pass.unread
    requires l.notice.None? && !l.doomed && !l.offered && !l.gone && !l.over
    ensures Step(l, Sent(Reply(End, req.gen, req.id, NoError), 0)) ==
      Some(l.(cur := None, pass := l.pass.(ending := false), permit := true))
  {
  }

  lemma Passes(run: seq<JointStep>) returns (next: seq<JointStep>)
    requires Joined(run).Some?
    requires var l := Joined(run).value.l;
      && l.pass.ending && !l.pass.late && l.pass.termAt == 0 && GraceOf(l) == 0 && !l.pass.zero
      && (l.pass.firstAt.None? || l.pass.firstAt == Some(0))
      && l.runtime.None? && l.notice.None? && !l.doomed && !l.offered && !l.gone && !l.over
    ensures Joined(next).Some?
    ensures var s, t := Joined(run).value, Joined(next).value;
      && t == s.(l := s.l.(pass := t.l.pass, drained := true))
      && t.l.pass == s.l.pass.(struck := false, firstAt := Some(0), scanned := true, zero := false, unread := false,
                               passes := s.l.pass.passes + 1)
  {
    hide Joined, Step, GraceOf;
    CleanPass(Joined(run).value.l);
    Happens(run, SignaledAll(9, 0));
    next := run + [Does(SignaledAll(9, 0))];
    Happens(next, Drained);
    next := next + [Does(Drained)];
    Happens(next, Counted({}));
    next := next + [Does(Counted({}))];
    Happens(next, PidsRead(1, 0));
    next := next + [Does(PidsRead(1, 0))];
  }

  /** From every state in which a launched process runs an end can be completed, and it grants the permit. */
  lemma EndCompletes(run: seq<JointStep>) returns (next: seq<JointStep>)
    requires Joined(run).Some? && Running(Joined(run).value)
    requires Joined(run).value.a.gen <= MAX_JSON_INT && Joined(run).value.a.nextId < MAX_JSON_INT
    ensures Joined(next).Some? && MayLaunch(Joined(next).value)
    ensures Joined(next).value.a.gen == Joined(run).value.a.gen
    ensures Joined(next).value.a.nextId == Joined(run).value.a.nextId + 1
  {
    hide Joined, Step, Line, Parse, Readable, GraceOf;
    var s := Joined(run).value;
    var c := EndCall(s.a.gen, s.a.nextId + 1);
    CallsAreReadable(c.gen, c.id);
    next := Delivered(run, c);
    var l := Served(s, c).l;
    EndStarts(l, RequestOf(c));
    Happens(next, SignaledAll(15, 0));
    next := next + [Does(SignaledAll(15, 0))];
    Happens(next, Collected(l.runtime.value.pid, 0));
    next := next + [Does(Collected(l.runtime.value.pid, 0))];
    var ended := Joined(next).value.l;
    next := Passes(next);
    SameGrace(ended, Joined(next).value.l);
    next := Passes(next);
    EndReplies(Joined(next).value.l, RequestOf(c));
    next := Replied(next, Reply(End, c.gen, c.id, NoError), 0);
  }

  /** However many generations the numbers of the protocol allow, some run goes through that many. */
  lemma {:induction false} GenerationsGoOn(n: nat) returns (run: seq<JointStep>)
    requires 2 * n <= MAX_JSON_INT
    ensures Joined(run).Some? && MayLaunch(Joined(run).value) && Launches(EventsOf(run)) == n
    ensures Joined(run).value.a.gen == n && Joined(run).value.a.nextId == 2 * n
  {
    hide Joined, Step;
    if n == 0 {
      run := [];
      Begins();
    } else {
      run := GenerationsGoOn(n - 1);
      run := LaunchCompletes(run);
      run := EndCompletes(run);
    }
    EventsAreAccepted(run);
    GenIsLaunches(EventsOf(run));
  }

  lemma Begins()
    ensures Joined([]) == Some(BEGIN) && MayLaunch(BEGIN)
  {
  }
}
