/** The signal sets of the supervisor. A mask word is the set of the signals whose bits it holds. */
module Signals {

  const SIGILL := 4
  const SIGBUS := 7
  const SIGFPE := 8
  const SIGKILL := 9
  const SIGSEGV := 11
  const SIGTERM := 15
  const SIGCHLD := 17
  const SIGSTOP := 19
  const NSIG := 65

  predicate IsFault(sig: int) {
    sig == SIGSEGV || sig == SIGBUS || sig == SIGFPE || sig == SIGILL
  }

  predicate IsHandled(sig: int) {
    1 <= sig < NSIG && sig != SIGKILL && sig != SIGSTOP && !IsFault(sig)
  }

  function FaultMask(): set<int> {
    {SIGSEGV, SIGBUS, SIGFPE, SIGILL}
  }

  function Handled(): set<int> {
    set sig | 1 <= sig < NSIG && IsHandled(sig)
  }

  method HandledMask() returns (mask: set<int>)
    ensures mask == Handled() && forall sig: int :: sig in mask <==> 1 <= sig <= 64 && sig !in {4, 7, 8, 9, 11, 19}
  {
    mask := {};
    for sig := 1 to NSIG
      invariant mask == set s | 1 <= s < sig && IsHandled(s)
    {
      if IsHandled(sig) {
        mask := mask + {sig};
      }
    }
  }

  /** What a signal does, and what is blocked while its handler runs. */
  datatype Action = Records(mask: set<int>) | Default

  class Dispositions {
    var blocked: set<int>
    var actions: map<int, Action>
    var waitMask: set<int>

    /** The kernel's answer to a call that may be refused. */
    method Refused() returns (r: int)
      ensures r <= 0
    {
      var errno: nat :| true;
      r := 0 - errno;
    }

    /**
     Blocks every signal it will handle before it sets the first handler. Once it succeeds, the
     signals a wait unblocks are exactly those that have the recording handler, and no handler
     can interrupt another.
     */
    method Install() returns (r: int)
      modifies this
      ensures r == 0 ==>
        && blocked == Handled() + FaultMask() && waitMask == {4, 7, 8, 11} && blocked - waitMask == Handled()
        && (forall sig :: 1 <= sig < NSIG && IsHandled(sig) ==> sig in actions && actions[sig] == Records(Handled()))
        && (forall sig :: 1 <= sig < NSIG && IsFault(sig) ==> sig in actions && actions[sig] == Default)
      ensures actions != old(actions) ==> blocked == Handled() + FaultMask()
      ensures forall sig :: !(1 <= sig < NSIG) || sig == SIGKILL || sig == SIGSTOP ==>
        (sig in actions <==> sig in old(actions)) && (sig in actions ==> actions[sig] == old(actions)[sig])
    {
      var handled := HandledMask();
      r := Refused();
      if r < 0 {
        return;
      }
      blocked := handled + FaultMask();
      for sig := 1 to NSIG
        invariant r == 0 && blocked == Handled() + FaultMask()
        invariant forall s :: 1 <= s < sig && IsHandled(s) ==> s in actions && actions[s] == Records(Handled())
        invariant forall s :: 1 <= s < sig && IsFault(s) ==> s in actions && actions[s] == Default
        invariant forall s :: !(1 <= s < NSIG) || s == SIGKILL || s == SIGSTOP ==>
          (s in actions <==> s in old(actions)) && (s in actions ==> actions[s] == old(actions)[s])
      {
        if IsHandled(sig) || IsFault(sig) {
          r := Refused();
          if r < 0 {
            return;
          }
          actions := actions[sig := if IsHandled(sig) then Records(handled) else Default];
        }
      }
      waitMask := FaultMask();
    }
  }
}
