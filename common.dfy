/**
  The data model shared by the two session probes: session edges, status records,
  the configuration they read, the directory services they consult, the outcome of
  the native enumeration call, and the computer object whose session set they update.
 */
module Common {
  import opened Dedup

  /** Stands for a .NET reference that may be null. */
  datatype Option<+T> = None | Some(value: T) {
    /** The value, or `default` for null (the `??` operator). */
    function GetOr(default: T): T {
      if Some? then value else default
    }
  }

  /** "This user had a session on this computer". Equality is structural on both fields,
      which is what `Distinct` deduplicates by. The computer identifier stays null when
      the host resolver could not resolve the client name. */
  datatype Session = Session(userId: string, computerId: Option<string>)

  /** One diagnostic record handed to the status sink. */
  datatype ComputerStatus = ComputerStatus(computerName: string, status: string, task: string)

  /** The three run options the probes read. */
  datatype Options = Options(
    dumpComputerStatus: bool,
    currentUserName: Option<string>,
    noRegistryLoggedOn: bool)

  /** The directory and naming services the probes consult, as total functions:
      - lookupUserInGC(domain, username): the SIDs a global-catalog lookup returns;
      - accountNameToSid(name, domain): a translated SID, or None when translation fails;
      - tryResolveHostToSid(hostName, domain): a computer SID, or None (null);
      - normalizeDomainName(domain): the canonical domain name;
      - statusName(code): the name of a NET_API_STATUS code. */
  datatype Oracles = Oracles(
    lookupUserInGC: (string, string) -> seq<string>,
    accountNameToSid: (string, string) -> Option<string>,
    tryResolveHostToSid: (string, string) -> Option<string>,
    normalizeDomainName: string -> string,
    statusName: int -> string)

  /** What the native enumeration call did within the ten-second wait: either the wait
      expired, or the call returned a status code, left a result buffer behind or not,
      and produced `entries` (the `entriesRead` structures behind the buffer). An outcome
      with records but no buffer stands for nothing the native call returns: the records
      are only ever read through the buffer. */
  datatype ProbeCall<R> =
    | TimedOut
    | Returned(status: int, bufferHeld: bool, entries: seq<R>)

  /** How a probe treats the outcome of its native call: give up silently,
      report the status code as an error, or go on to read the records. */
  datatype Verdict = Abandoned | Rejected(code: int) | Proceed

  /** The sessions and the status records one probe produces. */
  datatype ProbeOutput = ProbeOutput(sessions: seq<Session>, statuses: seq<ComputerStatus>)

  const SuccessStatus: string := "Success"

  /** A directory object with a session set that the probes replace. */
  class Computer {
    const displayName: string
    const objectIdentifier: Option<string>
    const domain: string
    const samAccountName: Option<string>
    const pingFailed: bool
    var sessions: seq<Session>

    constructor (displayName: string, objectIdentifier: Option<string>, domain: string,
                 samAccountName: Option<string>, pingFailed: bool, sessions: seq<Session>)
      ensures this.displayName == displayName && this.objectIdentifier == objectIdentifier
      ensures this.domain == domain && this.samAccountName == samAccountName
      ensures this.pingFailed == pingFailed && this.sessions == sessions
    {
      this.displayName := displayName;
      this.objectIdentifier := objectIdentifier;
      this.domain := domain;
      this.samAccountName := samAccountName;
      this.pingFailed := pingFailed;
      this.sessions := sessions;
    }

    /** Replaces the session set by the deduplicated concatenation of the old sessions
        and `added`: no duplicates, every old and every added session present and nothing
        else, and a duplicate-free old set kept, in order, at the front. */
    method MergeSessions(added: seq<Session>)
      modifies this
      ensures sessions == Distinct(old(sessions) + added)
      ensures NoDuplicates(sessions)
      ensures forall s :: s in sessions <==> s in old(sessions) || s in added
      ensures NoDuplicates(old(sessions)) ==>
        |old(sessions)| <= |sessions| && sessions[..|old(sessions)|] == old(sessions)
    {
      var temp := sessions + added;
      sessions := Distinct(temp);
      assert forall s :: s in temp <==> s in old(sessions) || s in added;
      if NoDuplicates(old(sessions)) {
        DistinctKeepsExisting(old(sessions), added);
      }
    }
  }

  /** The object a task receives: a computer, or any other kind of directory object. */
  datatype LdapWrapper = ComputerWrapper(computer: Computer) | OtherWrapper(kind: string)

  /** Only a computer whose ping did not fail is probed. */
  predicate IsProbeTarget(wrapper: LdapWrapper) {
    wrapper.ComputerWrapper? && !wrapper.computer.pingFailed
  }

  /** The status record one probe emits for its verdict, when status dumping is on. */
  function VerdictStatus(v: Verdict, host: Computer, task: string, oracles: Oracles, dump: bool): (r: seq<ComputerStatus>)
    ensures |r| == (if dump && !v.Abandoned? then 1 else 0)
    ensures forall s :: s in r ==> s.computerName == host.displayName && s.task == task
    ensures v.Proceed? && dump ==> r[0].status == SuccessStatus
    ensures v.Rejected? && dump ==> r[0].status == oracles.statusName(v.code)
  {
    if !dump then []
    else match v
      case Abandoned => []
      case Rejected(code) => [ComputerStatus(host.displayName, oracles.statusName(code), task)]
      case Proceed => [ComputerStatus(host.displayName, SuccessStatus, task)]
  }

  /** How many times the `finally` block frees the native buffer: once when the call
      returned with a non-zero buffer pointer, never otherwise. */
  function BufferFrees<R>(call: ProbeCall<R>): nat {
    if call.Returned? && call.bufferHeld then 1 else 0
  }
}
