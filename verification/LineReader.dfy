/** The bounded line reader, and what it means to split a byte stream into lines. */
module LineReader {
  import opened Base

  /** The longest request line, terminator excluded. */
  const MAX_LINE: nat := 65536
  const NL: byte := '\n'

  /** The position of the first terminator, or the length when there is none. */
  function FirstNewline(s: seq<byte>): (n: nat)
    ensures n <= |s|
    ensures n < |s| ==> s[n] == NL
    ensures forall i :: 0 <= i < n ==> s[i] != NL
  {
    if s == [] then 0
    else if s[0] == NL then 0
    else 1 + FirstNewline(s[1..])
  }

  predicate HasLine(s: seq<byte>) {
    FirstNewline(s) < |s|
  }

  function FirstLine(s: seq<byte>): seq<byte>
    requires HasLine(s)
  {
    s[..FirstNewline(s)]
  }

  function AfterLine(s: seq<byte>): seq<byte>
    requires HasLine(s)
  {
    s[FirstNewline(s) + 1..]
  }

  /** The complete lines of a stream, in order. */
  function Lines(s: seq<byte>): seq<seq<byte>>
    decreases |s|
  {
    if HasLine(s) then [FirstLine(s)] + Lines(AfterLine(s)) else []
  }

  /** What follows the last terminator. */
  function Rest(s: seq<byte>): seq<byte>
    decreases |s|
  {
    if HasLine(s) then Rest(AfterLine(s)) else s
  }

  lemma NewlineAt(s: seq<byte>, n: nat)
    requires n < |s| && s[n] == NL && forall i :: 0 <= i < n ==> s[i] != NL
    ensures FirstNewline(s) == n
  {
  }

  /** Later bytes do not change where the first line of a stream ends. */
  lemma FirstLineExtends(s: seq<byte>, more: seq<byte>)
    requires HasLine(s)
    ensures HasLine(s + more) && FirstLine(s + more) == FirstLine(s)
    ensures AfterLine(s + more) == AfterLine(s) + more
  {
    NewlineAt(s + more, FirstNewline(s));
    assert (s + more)[..FirstNewline(s)] == s[..FirstNewline(s)];
    assert (s + more)[FirstNewline(s) + 1..] == s[FirstNewline(s) + 1..] + more;
  }

  class LineBuffer {
    const buf: array<byte>
    var len: nat
    var overflow: bool

    ghost predicate Valid()
      reads this
    {
      buf.Length == MAX_LINE + 1 && len <= buf.Length
    }

    ghost function Contents(): seq<byte>
      requires Valid()
      reads this, buf
    {
      buf[..len]
    }

    constructor ()
      ensures Valid() && fresh(buf) && Contents() == [] && !overflow
    {
      buf := new byte[MAX_LINE + 1](_ => NL);
      len := 0;
      overflow := false;
    }

    /** The length of the first complete line, -1 without one, -2 when none can come. */
    method Take() returns (n: int)
      requires Valid()
      ensures n >= 0 <==> HasLine(Contents())
      ensures n >= 0 ==> n == FirstNewline(Contents()) && n <= MAX_LINE
      ensures n == -2 <==> !HasLine(Contents()) && |Contents()| > MAX_LINE
      ensures n >= -2
    {
      for i := 0 to len
        invariant forall j :: 0 <= j < i ==> buf[j] != NL
      {
        if buf[i] == NL {
          NewlineAt(buf[..len], i);
          return i;
        }
      }
      return if len > MAX_LINE then -2 else -1;
    }

    /** Drops the first n bytes and the terminator after them. */
    method Consume(n: nat)
      requires Valid()
      modifies this`len, buf
      ensures Valid()
      ensures Contents() == if n + 1 <= |old(Contents())| then old(Contents())[n + 1..] else []
    {
      var drop := n + 1;
      if drop > len {
        drop := len;
      }
      for i := drop to len
        invariant drop <= i && len == old(len)
        invariant forall j :: 0 <= j < i - drop ==> buf[j] == old(buf[j + drop])
        invariant forall j :: i - drop <= j < buf.Length ==> buf[j] == old(buf[j])
      {
        buf[i - drop] := buf[i];
      }
      len := len - drop;
    }

    /** Appends what one read returned; the caller read no more than the room left. */
    method Append(bytes: seq<byte>)
      requires Valid() && len + |bytes| <= buf.Length
      modifies this`len, buf
      ensures Valid()
      ensures Contents() == old(Contents()) + bytes
    {
      for i := 0 to |bytes|
        invariant len == old(len)
        invariant forall j :: 0 <= j < len ==> buf[j] == old(buf[j])
        invariant forall j :: 0 <= j < i ==> buf[len + j] == bytes[j]
      {
        buf[len + i] := bytes[i];
      }
      len := len + |bytes|;
    }
  }
}
