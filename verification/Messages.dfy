/** The values that cross the CH-SUPERVISE channel: decoded requests and the messages sent back. */
module Messages {
  import opened Base

  datatype RequestType = Launch | End | Sweep | Cleanup | Ping

  datatype Request = Request(
    kind: RequestType,
    gen: nat,
    id: nat,
    graceMs: nat,
    timeoutMs: nat,
    commands: seq<seq<seq<byte>>>,
    prevProvider: seq<byte>,
    prevLeaseId: seq<byte>)

  /** What the parser makes of one line. */
  datatype Outcome =
    | Ok(req: Request)
    | Malformed(badKind: RequestType, badGen: nat, badId: nat)
    | Unreadable
  {
    /** The type, generation and identifier a reply to the line repeats. */
    function Head(): (RequestType, nat, nat)
      requires !Unreadable?
    {
      if Ok? then (req.kind, req.gen, req.id) else (badKind, badGen, badId)
    }
  }

  datatype Error =
    | NoError
    | ExecFailed
    | NotPermitted
    | EndDeadline
    | ProcRead
    | SweepFailed
    | SweepBound
    | CleanupFailed
    | CleanupTimeout
    | MalformedRequest
    | GenMismatch

  datatype Message =
    | Reply(kind: RequestType, gen: nat, id: nat, err: Error)
    | Exited(exitGen: nat, status: nat)
}
