/** What holds of the lines an accepted run takes, the replies it sends and the processes it signals. */
module Traffic {
  import opened Base
  import opened Messages
  import opened WaitStatus
  import opened Protocol
  import opened Recognizer
  import opened LineReader
  import opened Runs
  import Templates
  import opened Grammar

  // ------------------------------------------------------------------ lines and replies

  function Bytes(run: seq<Event>): seq<byte> {
    if run == [] then []
    else
      var before := Bytes(run[..|run| - 1]);
      var e := run[|run| - 1];
      if e.Received? then before + e.bytes else before
  }

  function Takes(run: seq<Event>): seq<seq<byte>> {
    if run == [] then []
    else
      var before := Takes(run[..|run| - 1]);
      var e := run[|run| - 1];
      if e.Took? then before + [e.line] else before
  }

  function Replies(run: seq<Event>): seq<Message> {
    if run == [] then []
    else
      var before := Replies(run[..|run| - 1]);
      var e := run[|run| - 1];
      if e.Sent? && e.msg.Reply? then before + [e.msg] else before
  }

  /** The request a message answers. */
  function HeadOf(m: Message): (RequestType, nat, nat)
    requires m.Reply?
  {
    (m.kind, m.gen, m.id)
  }

  /** Reply k answers line k. */
  ghost predicate Matched(takes: seq<seq<byte>>, replies: seq<Message>) {
    && |replies| <= |takes|
    && forall k :: 0 <= k < |replies| ==>
         replies[k].Reply? && !Parse(takes[k]).Unreadable? && HeadOf(replies[k]) == Parse(takes[k]).Head()
  }

  /** At most the last line is unanswered, and then it is being served or could not be read. */
  ghost predicate Answering(l: Ledger, takes: seq<seq<byte>>, replies: seq<Message>) {
    && Matched(takes, replies)
    && |takes| == |replies| + (if l.cur.Some? || l.doomed then 1 else 0)
    && (l.cur.Some? ==> !l.doomed && l.cur.value == Parse(takes[|replies|]) && !l.cur.value.Unreadable?)
    && (l.doomed ==> Parse(takes[|replies|]).Unreadable?)
  }

  lemma SendInput(l: Ledger, msg: Message, at: nat)
    requires Send(l, msg, at).Some?
    ensures var after := Send(l, msg, at).value;
      && after.doomed == l.doomed && after.stream == l.stream
      && (msg.Reply? ==>
            && l.cur.Some? && !l.cur.value.Unreadable? && HeadOf(msg) == l.cur.value.Head() && after.cur.None?)
      && (!msg.Reply? ==> after.cur == l.cur)
  {
    hide AnswerOk, Acceptable, Attested;
    match msg
    case Exited(_, _) =>
    case Reply(_, _, _, _) =>
  }

  lemma StepInput(l: Ledger, e: Event)
    requires Step(l, e).Some?
    ensures var after := Step(l, e).value;
      && (e.Took? ==>
            && l.cur.None? && !l.doomed && HasLine(l.stream) && e.line == FirstLine(l.stream)
            && after.stream == AfterLine(l.stream) && after.doomed == Parse(e.line).Unreadable?
            && after.cur == if after.doomed then None else Some(Parse(e.line)))
      && (e.Sent? && e.msg.Reply? ==>
            && l.cur.Some? && !l.doomed && !l.cur.value.Unreadable? && HeadOf(e.msg) == l.cur.value.Head()
            && after.cur.None? && !after.doomed && after.stream == l.stream)
      && (e.Received? ==> after.stream == l.stream + e.bytes && l.cur.None? && |after.stream| <= MAX_LINE + 1)
      && (!e.Took? && !(e.Sent? && e.msg.Reply?) ==>
            after.cur == l.cur && after.doomed == l.doomed && (!e.Received? ==> after.stream == l.stream))
  {
    hide Send, Serves, HasLine, FirstLine, AfterLine, Acceptable, Parse;
    match e
    case Sent(msg, at) =>
      if Send(l, msg, at).Some? {
        SendInput(l, msg, at);
      }
    case Took(_) =>
    case Received(_) =>
    case _ =>
  }

  lemma StepAnswering(l: Ledger, e: Event, takes: seq<seq<byte>>, replies: seq<Message>)
    requires Step(l, e).Some? && Answering(l, takes, replies)
    ensures Answering(Step(l, e).value, if e.Took? then takes + [e.line] else takes,
                      if e.Sent? && e.msg.Reply? then replies + [e.msg] else replies)
  {
    hide Step, Parse, HasLine, FirstLine, AfterLine;
    StepInput(l, e);
  }

  lemma {:induction false} RunAnswers(run: seq<Event>)
    requires Accepted(run)
    ensures Answering(Replay(run).value, Takes(run), Replies(run))
  {
    hide Step;
    if run != [] {
      AtFront(run);
      RunAnswers(run[..|run| - 1]);
      StepAnswering(Replay(run[..|run| - 1]).value, run[|run| - 1], Takes(run[..|run| - 1]), Replies(run[..|run| - 1]));
    }
  }

  /** Every line that could be attributed gets exactly one reply, in order, with its own type, generation and id. */
  lemma RepliesFollowLines(run: seq<Event>)
    requires Accepted(run)
    ensures Matched(Takes(run), Replies(run))
    ensures |Takes(run)| <= |Replies(run)| + 1
    ensures forall k :: 0 <= k < |Takes(run)| && Parse(Takes(run)[k]).Unreadable? ==> k == |Replies(run)|
  {
    RunAnswers(run);
  }

  /** The valid request among the lines taken that is the latest. */
  function Current(run: seq<Event>): Option<Request> {
    var takes := Takes(run);
    if takes != [] && Parse(takes[|takes| - 1]).Ok? then Some(Parse(takes[|takes| - 1]).req) else None
  }

  lemma CurrentIsServed(run: seq<Event>)
    requires Accepted(run) && Replay(run).value.cur.Some? && Replay(run).value.cur.value.Ok?
    ensures Current(run) == Some(Replay(run).value.cur.value.req)
  {
    hide Step, Replay, Parse;
    RunAnswers(run);
  }

  // ------------------------------------------------------------------ chunking

  function Unlines(lines: seq<seq<byte>>): seq<byte> {
    if lines == [] then [] else Unlines(lines[..|lines| - 1]) + lines[|lines| - 1] + [NL]
  }

  lemma UnlinesEmpty()
    ensures Unlines([]) == []
  {
  }

  ghost predicate NoNewlines(lines: seq<seq<byte>>) {
    forall k :: 0 <= k < |lines| ==> NL !in lines[k]
  }

  lemma FirstOf(line: seq<byte>, more: seq<byte>)
    requires NL !in line
    ensures var s := line + [NL] + more; HasLine(s) && FirstLine(s) == line && AfterLine(s) == more
  {
    var s := line + [NL] + more;
    NewlineAt(s, |line|);
    assert s[..|line|] == line;
    assert s[|line| + 1..] == more;
  }

  /** Splitting undoes joining: a stream has one reading as lines and a rest. */
  lemma {:induction false} LinesOfUnlines(lines: seq<seq<byte>>, more: seq<byte>)
    requires NoNewlines(lines)
    ensures Lines(Unlines(lines) + more) == lines + Lines(more)
    ensures Rest(Unlines(lines) + more) == Rest(more)
    decreases |lines|
  {
    if lines == [] {
      assert Unlines(lines) + more == more;
      assert lines + Lines(more) == Lines(more);
    } else {
      var n := |lines| - 1;
      var tail := lines[n] + [NL] + more;
      assert Unlines(lines) + more == Unlines(lines[..n]) + tail;
      LinesOfUnlines(lines[..n], tail);
      FirstOf(lines[n], more);
      assert lines[..n] + ([lines[n]] + Lines(more)) == lines + Lines(more);
    }
  }

  lemma FirstLineSplits(s: seq<byte>)
    requires HasLine(s)
    ensures NL !in FirstLine(s) && s == FirstLine(s) + [NL] + AfterLine(s)
  {
  }

  /** Taking the first line moves it from the stream to the lines. */
  lemma TakeMoves(takes: seq<seq<byte>>, stream: seq<byte>)
    requires HasLine(stream)
    ensures Unlines(takes) + stream == Unlines(takes + [FirstLine(stream)]) + AfterLine(stream)
    ensures NL !in FirstLine(stream)
  {
    hide HasLine, FirstLine, AfterLine;
    FirstLineSplits(stream);
    var line, more := FirstLine(stream), AfterLine(stream);
    assert (takes + [line])[..|takes|] == takes;
    assert Unlines(takes) + (line + [NL] + more) == (Unlines(takes) + line + [NL]) + more;
  }

  lemma {:induction false} StreamIsRest(run: seq<Event>)
    requires Accepted(run)
    ensures Bytes(run) == Unlines(Takes(run)) + Replay(run).value.stream
    ensures NoNewlines(Takes(run))
  {
    hide Step, Unlines, HasLine, FirstLine, AfterLine;
    if run == [] {
      UnlinesEmpty();
      assert Bytes(run) == Unlines(Takes(run)) + [];
    } else {
      var front, e := run[..|run| - 1], run[|run| - 1];
      AtFront(run);
      StreamIsRest(front);
      var l := Replay(front).value;
      StepInput(l, e);
      if e.Took? {
        TakeMoves(Takes(front), l.stream);
      } else if e.Received? {
        assert Unlines(Takes(front)) + (l.stream + e.bytes) == (Unlines(Takes(front)) + l.stream) + e.bytes;
      }
    }
  }

  /**
   However the bytes were split into reads: the lines taken are the first lines of the stream of
   all bytes received, and the bytes held back are what remains.
   */
  lemma LinesTakenAreTheStreams(run: seq<Event>)
    requires Accepted(run)
    ensures Lines(Bytes(run)) == Takes(run) + Lines(Replay(run).value.stream)
    ensures Rest(Bytes(run)) == Rest(Replay(run).value.stream)
  {
    hide Step, Replay;
    StreamIsRest(run);
    LinesOfUnlines(Takes(run), Replay(run).value.stream);
  }

  /** A supervisor that waits with nothing to answer listens, and has answered every complete line it received. */
  lemma IdleMeansAnswered(run: seq<Event>, i: nat)
    requires Accepted(run) && i < |run| && run[i].Waits? && |Takes(run[..i])| == |Replies(run[..i])|
    ensures run[i].listening && run[i].timeout.None? && Takes(run[..i]) == Lines(Bytes(run[..i])) && |Rest(Bytes(run[..i]))| <= 65536
    ensures Matched(Lines(Bytes(run[..i])), Replies(run[..i]))
  {
    hide Step, Replay;
    ReplayPrefix(run, i);
    RunAnswers(run[..i]);
    LinesTakenAreTheStreams(run[..i]);
    AtStep(run, i);
    IdleStream(At(run, i), run[i]);
    assert Takes(run[..i]) + [] == Takes(run[..i]);
  }

  /** Input that a wait found is read before anything else happens. */
  lemma OfferedIsRead(run: seq<Event>, i: nat)
    requires Accepted(run) && i + 1 < |run| && run[i].Offered?
    ensures run[i + 1].Received? || run[i + 1].HungUp?
  {
    hide Parse, HasLine, FirstLine, AfterLine;
    AtStep(run, i);
    AtStep(run, i + 1);
  }

  lemma IdleStream(l: Ledger, e: Event)
    requires Step(l, e).Some? && e.Waits? && l.cur.None?
    ensures e.listening && e.timeout.None? && !HasLine(l.stream) && |l.stream| <= MAX_LINE
    ensures Lines(l.stream) == [] && Rest(l.stream) == l.stream
  {
  }

  /** Two runs that received the same bytes, in whatever reads, and are both idle took the same lines. */
  lemma ChunkingDoesNotMatter(a: seq<Event>, b: seq<Event>)
    requires Accepted(a) && a != [] && a[|a| - 1].Waits?
    requires Accepted(b) && b != [] && b[|b| - 1].Waits?
    requires Bytes(a[..|a| - 1]) == Bytes(b[..|b| - 1])
    requires |Takes(a[..|a| - 1])| == |Replies(a[..|a| - 1])| && |Takes(b[..|b| - 1])| == |Replies(b[..|b| - 1])|
    ensures Takes(a[..|a| - 1]) == Takes(b[..|b| - 1])
    ensures |Replies(a[..|a| - 1])| == |Replies(b[..|b| - 1])|
  {
    hide Step, Replay;
    IdleMeansAnswered(a, |a| - 1);
    IdleMeansAnswered(b, |b| - 1);
  }

  lemma StepStreamBound(l: Ledger, e: Event)
    requires Step(l, e).Some? && |l.stream| <= MAX_LINE + 1
    ensures |Step(l, e).value.stream| <= MAX_LINE + 1
  {
    hide Step;
    StepInput(l, e);
  }

  lemma {:induction false} StreamBound(run: seq<Event>)
    requires Accepted(run)
    ensures |Replay(run).value.stream| <= MAX_LINE + 1
  {
    hide Step;
    if run != [] {
      AtFront(run);
      StreamBound(run[..|run| - 1]);
      StepStreamBound(Replay(run[..|run| - 1]).value, run[|run| - 1]);
    }
  }

  /** No line longer than the limit reaches the parser. */
  lemma LinesAreBounded(run: seq<Event>, i: nat)
    requires Accepted(run) && i < |run| && run[i].Took?
    ensures |run[i].line| <= 65536
  {
    hide Step, Replay;
    AtStep(run, i);
    StepInput(At(run, i), run[i]);
    ReplayPrefix(run, i);
    StreamBound(run[..i]);
  }

  /** A protocol exit follows an unreadable line, or more bytes without a terminator than a line may have. */
  lemma ProtocolExitHasCause(run: seq<Event>, i: nat)
    requires Accepted(run) && i < |run| && run[i] == Stopped(6)
    ensures (Takes(run[..i]) != [] && Parse(Takes(run[..i])[|Takes(run[..i])| - 1]).Unreadable?)
         || (Takes(run[..i]) == Lines(Bytes(run[..i])) && |Rest(Bytes(run[..i]))| > 65536)
  {
    hide Step, Replay;
    AtStep(run, i);
    ReplayPrefix(run, i);
    RunAnswers(run[..i]);
    LinesTakenAreTheStreams(run[..i]);
    StopCause(At(run, i));
    assert Takes(run[..i]) + [] == Takes(run[..i]);
  }

  lemma StopCause(l: Ledger)
    requires Step(l, Stopped(EXIT_PROTOCOL)).Some?
    ensures l.doomed || (TooLong(l.stream) && Lines(l.stream) == [] && Rest(l.stream) == l.stream)
  {
  }

  /** Nothing happens after an unreadable line but the exit. */
  lemma UnreadableEndsTheRun(run: seq<Event>, i: nat)
    requires Accepted(run) && i + 1 < |run| && run[i].Took? && Parse(run[i].line).Unreadable?
    ensures run[i + 1] == Stopped(6) && |run| == i + 2
  {
    hide Parse, HasLine, FirstLine, AfterLine;
    AtStep(run, i);
    AtStep(run, i + 1);
    if i + 2 < |run| {
      AtStep(run, i + 2);
    }
  }

  /** Nothing happens after the peer hung up but the exit that says so. */
  lemma HangUpEndsTheRun(run: seq<Event>, i: nat)
    requires Accepted(run) && i + 1 < |run| && run[i].HungUp?
    ensures run[i + 1] == Stopped(0) && |run| == i + 2
  {
    hide Parse, HasLine, FirstLine, AfterLine;
    AtStep(run, i);
    AtStep(run, i + 1);
    if i + 2 < |run| {
      AtStep(run, i + 2);
    }
  }

  lemma GoneBy(l: Ledger, e: Event)
    requires Step(l, e).Some? && Step(l, e).value.gone && !Step(l, e).value.over
    ensures e.HungUp?
  {
    hide AnswerOk, Parse, HasLine, FirstLine, AfterLine;
  }

  lemma StopAllowed(l: Ledger, code: nat)
    requires Step(l, Stopped(code)).Some?
    ensures !l.over && (code == EXIT_PROTOCOL || (code == EXIT_CLOSED && l.gone))
  {
  }

  /** The supervisor exits only for a protocol error or right after the peer hung up. */
  lemma ExitsHaveCause(run: seq<Event>, i: nat)
    requires Accepted(run) && i < |run| && run[i].Stopped?
    ensures run[i].code == 6 || (run[i].code == 0 && i > 0 && run[i - 1].HungUp?)
  {
    hide Step, Replay;
    AtStep(run, i);
    StopAllowed(At(run, i), run[i].code);
    if run[i].code == EXIT_CLOSED {
      if i == 0 {
        assert run[..0] == [];
        StartEmpty();
      } else {
        AtStep(run, i - 1);
        GoneBy(At(run, i - 1), run[i - 1]);
      }
    }
  }

  // ------------------------------------------------------------------ waiting and signalling

  /** Whenever the supervisor is about to block, a child that exited unnoticed has SIGCHLD pending. */
  lemma NoLostWakeUp(run: seq<Event>, i: nat)
    requires Accepted(run) && i < |run| && run[i].Waits? && run[i].unreaped != {}
    ensures run[i].armed
  {
    hide Parse, HasLine, FirstLine, AfterLine;
    AtStep(run, i);
  }

  /** Signals to all are sent only for an end or a sweep of the current generation. */
  lemma SignalsToAllAreAsked(run: seq<Event>, i: nat)
    requires Accepted(run) && i < |run| && run[i].SignaledAll?
    ensures |Takes(run[..i])| == |Replies(run[..i])| + 1
    ensures var c := Current(run[..i]); c.Some? && c.value.kind in {End, Sweep} && c.value.gen == Launches(run[..i])
  {
    hide Step, Replay, Parse, Current;
    AtStep(run, i);
    ReplayPrefix(run, i);
    RunAnswers(run[..i]);
    SignalServes(run, i);
    CurrentIsServed(run[..i]);
    GenIsLaunches(run[..i]);
  }

  /** A worker is forked only for the sweep or the cleanup being served, and to do that one's work. */
  lemma WorkersAreAsked(run: seq<Event>, i: nat)
    requires Accepted(run) && i < |run| && run[i].Forked? && run[i].role.Worker?
    ensures |Takes(run[..i])| == |Replies(run[..i])| + 1
    ensures var c := Current(run[..i]);
      c.Some? && c.value.kind == run[i].role.task && c.value.kind in {Sweep, Cleanup} && c.value.gen == Launches(run[..i])
  {
    hide Step, Replay, Parse, Current;
    AtStep(run, i);
    ReplayPrefix(run, i);
    RunAnswers(run[..i]);
    WorkerServes(At(run, i), run[i]);
    CurrentIsServed(run[..i]);
    GenIsLaunches(run[..i]);
  }

  lemma WorkerServes(l: Ledger, e: Event)
    requires Step(l, e).Some? && e.Forked? && e.role.Worker?
    ensures e.role.task in {Sweep, Cleanup} && Serves(l, e.role.task)
  {
    hide Serves;
  }

  lemma SignalServes(run: seq<Event>, i: nat)
    requires Accepted(run) && i < |run| && run[i].SignaledAll?
    ensures Serves(At(run, i), End) || Serves(At(run, i), Sweep)
  {
    hide Step, Replay;
    AtStep(run, i);
    ReplayPrefix(run, i);
    EndingIsServed(run[..i]);
    SignalServed(At(run, i), run[i]);
  }

  lemma SignalServed(l: Ledger, e: Event)
    requires Step(l, e).Some? && EndingServed(l) && e.SignaledAll?
    ensures Serves(l, End) || Serves(l, Sweep)
  {
  }

  // ------------------------------------------------------------------ the bytes sent

  ghost predicate CurrentBounded(cur: Option<Outcome>) {
    cur.Some? && !cur.value.Unreadable? ==>
      cur.value.Head().1 <= MAX_JSON_INT && cur.value.Head().2 <= MAX_JSON_INT
  }

  /** Every number the supervisor may have to print fits the fields it is kept in. */
  ghost predicate Bounded(l: Ledger) {
    && l.gen <= MAX_JSON_INT
    && CurrentBounded(l.cur)
    && (l.runtime.Some? ==> l.runtime.value.gen <= MAX_JSON_INT)
    && (l.notice.Some? ==> l.notice.value.gen <= MAX_JSON_INT)
  }

  lemma SendBounded(l: Ledger, msg: Message, at: nat)
    requires Send(l, msg, at).Some? && Bounded(l)
    ensures Bounded(Send(l, msg, at).value) && Templates.InRange(msg)
  {
    hide AnswerOk, Attested;
    match msg
    case Exited(_, _) =>
    case Reply(_, _, _, _) =>
  }

  lemma TakeBounded(l: Ledger, line: seq<byte>)
    requires Take(l, line).Some? && Bounded(l)
    ensures Bounded(Take(l, line).value)
  {
    hide HasLine, FirstLine, AfterLine, Parse;
    ParseBounds(line);
  }

  lemma ForkBounded(l: Ledger, pid: nat, role: Role, at: nat)
    requires Fork(l, pid, role, at).Some? && Bounded(l)
    ensures Bounded(Fork(l, pid, role, at).value)
  {
    hide Serves;
  }

  lemma CollectBounded(l: Ledger, pid: nat, status: nat)
    requires Collect(l, pid, status).Some? && Bounded(l)
    ensures Bounded(Collect(l, pid, status).value)
  {
    hide CurrentBounded;
    if l.runtime.Some? && l.runtime.value.pid == pid {
      assert l.runtime.value.gen <= MAX_JSON_INT;
    }
  }

  lemma StepBounded(l: Ledger, e: Event)
    requires Step(l, e).Some? && Bounded(l)
    ensures Bounded(Step(l, e).value) && (e.Sent? ==> Templates.InRange(e.msg))
  {
    hide Send, Take, Fork, Collect, Serves, HasLine, Templates.InRange;
    match e
    case Sent(msg, at) => SendBounded(l, msg, at);
    case Took(line) => TakeBounded(l, line);
    case Forked(pid, role, at) => ForkBounded(l, pid, role, at);
    case Collected(pid, status) => CollectBounded(l, pid, status);
    case _ =>
  }

  function Sents(run: seq<Event>): seq<Message> {
    if run == [] then []
    else
      var before := Sents(run[..|run| - 1]);
      if run[|run| - 1].Sent? then before + [run[|run| - 1].msg] else before
  }

  lemma {:induction false} SentsInRange(run: seq<Event>)
    requires Accepted(run)
    ensures Bounded(Replay(run).value)
    ensures forall i :: 0 <= i < |Sents(run)| ==> Templates.InRange(Sents(run)[i])
  {
    hide Step;
    if run != [] {
      AtFront(run);
      SentsInRange(run[..|run| - 1]);
      StepBounded(Replay(run[..|run| - 1]).value, run[|run| - 1]);
    }
  }

  /**
   Two runs that put the same bytes on the connection sent the same messages in the same order,
   as far as their lines tell.
   */
  lemma BytesTellMessages(a: seq<Event>, b: seq<Event>)
    requires Accepted(a) && Accepted(b) && Templates.Wire(Sents(a)) == Templates.Wire(Sents(b))
    ensures |Sents(a)| == |Sents(b)|
    ensures forall i :: 0 <= i < |Sents(a)| ==>
      && Templates.InRange(Sents(a)[i]) && Templates.Observed(Sents(a)[i]) == Templates.Observed(Sents(b)[i])
  {
    SentsInRange(a);
    Templates.WireIsReadable(Sents(a), Sents(b));
  }
}
