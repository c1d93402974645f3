/** Wait statuses, as the kernel encodes them and the supervisor takes them apart. */
module WaitStatus {
  import opened Base
  import opened Messages

  const WORKER_OK := 0
  const WORKER_FAILED := 1
  const WORKER_BOUND := 2
  const WORKER_DEADLINE := 3

  /** How a process ended. */
  datatype Ending = Exit(code: nat) | Signal(sig: nat, core: bool)
  {
    ghost predicate Valid() {
      match this
      case Exit(code) => code < 256
      case Signal(sig, _) => 1 <= sig < 65
    }
  }

  /** The kernel's encoding: the code in bits 8 to 15, or the signal in the low seven bits. */
  ghost function Encode(e: Ending): nat {
    match e
    case Exit(code) => code * 256
    case Signal(sig, core) => sig + (if core then 128 else 0)
  }

  /** A signed char holding the low eight bits of x. */
  function SignedChar(x: int): int {
    if x % 256 < 128 then x % 256 else x % 256 - 256
  }

  /** An arithmetic shift right by one keeps the sign, as Euclidean halving does. */
  predicate Signaled(status: nat) {
    SignedChar(status % 128 + 1) / 2 > 0
  }

  function ExitStatus(status: nat): nat {
    status / 256 % 256
  }

  function TermSig(status: nat): nat {
    status % 128
  }

  /** The three accessors invert the kernel's encoding. */
  lemma DecodeInvertsEncode(e: Ending)
    requires e.Valid()
    ensures Signaled(Encode(e)) <==> e.Signal?
    ensures e.Exit? ==> ExitStatus(Encode(e)) == e.code
    ensures e.Signal? ==> TermSig(Encode(e)) == e.sig
  {
    match e
    case Exit(code) => assert code * 256 % 128 == 0 by { assert code * 256 == 128 * (2 * code); }
    case Signal(_, _) =>
  }

  function SweepResult(got: Option<nat>): (r: Error) {
    if got.None? || Signaled(got.value) then SweepFailed
    else if ExitStatus(got.value) == WORKER_OK then NoError
    else if ExitStatus(got.value) == WORKER_BOUND then SweepBound
    else SweepFailed
  }

  function CleanupResult(got: Option<nat>): (r: Error) {
    if got.None? || Signaled(got.value) then CleanupFailed
    else if ExitStatus(got.value) == WORKER_OK then NoError
    else if ExitStatus(got.value) == WORKER_DEADLINE then CleanupTimeout
    else CleanupFailed
  }

  /** Each reply error stands for exactly one set of worker outcomes, a status that never came included. */
  lemma ResultsByEnding(e: Ending)
    requires e.Valid()
    ensures SweepResult(None) == SweepFailed && CleanupResult(None) == CleanupFailed
    ensures SweepResult(Some(Encode(e))) == NoError <==> e == Exit(0)
    ensures SweepResult(Some(Encode(e))) == SweepBound <==> e == Exit(2)
    ensures CleanupResult(Some(Encode(e))) == NoError <==> e == Exit(0)
    ensures CleanupResult(Some(Encode(e))) == CleanupTimeout <==> e == Exit(3)
    ensures SweepResult(Some(Encode(e))) in {NoError, SweepBound, SweepFailed}
    ensures CleanupResult(Some(Encode(e))) in {NoError, CleanupTimeout, CleanupFailed}
  {
    DecodeInvertsEncode(e);
  }
}
