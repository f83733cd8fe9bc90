/**
  The NetSessionEnum probe: list the sessions other machines hold on a computer,
  drop the uninteresting ones, resolve each remaining client machine and user to an
  identifier, and merge the resulting edges into the computer's session set.
 */
module NetSessionTasks {
  import opened Common
  import opened Text
  import opened Dedup
  import opened Sequences

  const NetSessionEnumTask: string := "NetSessionEnum"
  const AnonymousLogon: string := "ANONYMOUS LOGON"

  /** One SESSION_INFO_10 structure: the client machine name (possibly null) and the
      user name. The time fields are never read. */
  datatype SessionInfo10 = SessionInfo10(cname: Option<string>, username: string)

  /** NetSessionEnum accepts status 0 only. */
  function NetSessionEnumVerdict<R>(call: ProbeCall<R>): (v: Verdict)
    ensures v.Abandoned? <==> call.TimedOut?
    ensures v.Proceed? <==> call.Returned? && call.status == 0
    ensures v.Rejected? ==> call.Returned? && v.code == call.status
  {
    match call
    case TimedOut => Abandoned
    case Returned(status, _, _) => if status == 0 then Proceed else Rejected(status)
  }

  /** Machine accounts, blank names, the enumerating account itself and anonymous logons
      yield no session. (The test against "$" is subsumed by the trailing-"$" test.) */
  predicate IsFilteredUser(username: string, currentUserName: Option<string>) {
    EndsWith(username, "$") || Trim(username) == "" || username == "$"
    || currentUserName == Some(username) || username == AnonymousLogon
  }

  /** A record reaches identity resolution when it names a client machine and its user
      is not filtered out. */
  predicate IsResolvedRecord(rec: SessionInfo10, opts: Options) {
    rec.cname.Some? && !IsFilteredUser(rec.username, opts.currentUserName)
  }

  predicate IsLoopback(name: string) {
    name == "[::1]" || name == "127.0.0.1"
  }

  /** The client name with every leading backslash removed. */
  function StripLeadingBackslashes(name: string): (r: string)
    ensures |r| <= |name| && r == name[|name| - |r|..]
    ensures forall i :: 0 <= i < |name| - |r| ==> name[i] == '\\'
    ensures |r| > 0 ==> r[0] != '\\'
  {
    if StartsWith(name, "\\") then TrimStartChar(name, '\\') else name
  }

  /** The identifier of the client machine: the computer's own identifier for a loopback
      name, when it has one, and otherwise what the host resolver answers. */
  function ClientComputerId(clientName: string, host: Computer, oracles: Oracles): Option<string> {
    var name := StripLeadingBackslashes(clientName);
    var loopbackId := if IsLoopback(name) then host.objectIdentifier else None;
    if loopbackId.Some? then loopbackId else oracles.tryResolveHostToSid(name, host.domain)
  }

  /** One session per user identifier, all on the same computer, in order. */
  function SessionsFor(userIds: seq<string>, computerId: Option<string>): (r: seq<Session>)
    ensures |r| == |userIds|
    ensures forall k :: 0 <= k < |r| ==> r[k] == Session(userIds[k], computerId)
  {
    if userIds == [] then []
    else SessionsFor(userIds[..|userIds| - 1], computerId) + [Session(userIds[|userIds| - 1], computerId)]
  }

  /** The fallback chain for the user: every SID the global catalog returns; failing
      that, the translated SID; failing that, the raw user name. */
  function UserSessions(username: string, domain: string, computerId: Option<string>, oracles: Oracles): (r: seq<Session>)
    ensures |r| >= 1
    ensures forall s :: s in r ==> s.computerId == computerId
  {
    var sids := oracles.lookupUserInGC(domain, username);
    if |sids| > 0 then SessionsFor(sids, computerId)
    else match oracles.accountNameToSid(username, domain)
      case Some(sid) => [Session(sid, computerId)]
      case None => [Session(username, computerId)]
  }

  /** The sessions one SESSION_INFO_10 record contributes. */
  function RecordSessions(rec: SessionInfo10, host: Computer, oracles: Oracles, opts: Options): (r: seq<Session>)
    ensures !IsResolvedRecord(rec, opts) ==> r == []
    ensures IsResolvedRecord(rec, opts) ==> |r| >= 1
    ensures IsResolvedRecord(rec, opts) ==>
      forall s :: s in r ==> s.computerId == ClientComputerId(rec.cname.value, host, oracles)
  {
    if !IsResolvedRecord(rec, opts) then []
    else UserSessions(rec.username, host.domain, ClientComputerId(rec.cname.value, host, oracles), oracles)
  }

  /** The sessions a list of records contributes, record by record. */
  function NetSessions(records: seq<SessionInfo10>, host: Computer, oracles: Oracles, opts: Options): seq<Session> {
    FlatMap(records, rec => RecordSessions(rec, host, oracles, opts))
  }

  /** The sessions GetNetSessions returns for a native call outcome. */
  function NetSessionCandidates(call: ProbeCall<SessionInfo10>, host: Computer, oracles: Oracles, opts: Options): seq<Session> {
    if NetSessionEnumVerdict(call).Proceed? then NetSessions(call.entries, host, oracles, opts) else []
  }

  /** The `foreach` over the SIDs the global catalog returned: one session per SID. */
  method AddSessionsFor(sessionList: seq<Session>, sids: seq<string>, computerSid: Option<string>)
    returns (result: seq<Session>)
    ensures result == sessionList + SessionsFor(sids, computerSid)
  {
    result := sessionList;
    for j := 0 to |sids|
      invariant result == sessionList + SessionsFor(sids[..j], computerSid)
    {
      assert sids[..j + 1][..j] == sids[..j];
      result := result + [Session(sids[j], computerSid)];
    }
    assert sids[..|sids|] == sids;
  }

  /** Runs the probe on the outcome of the native call. `log` is the status sink before
      the call and `log'` after it; `releases` counts the NetApiBufferFree calls. */
  method GetNetSessions(host: Computer, call: ProbeCall<SessionInfo10>, oracles: Oracles, opts: Options,
                        log: seq<ComputerStatus>)
    returns (sessionList: seq<Session>, log': seq<ComputerStatus>, ghost releases: nat)
    ensures call.TimedOut? ==> sessionList == [] && log' == log
    ensures call.Returned? && call.status != 0 ==>
      && sessionList == []
      && log' == log + (if opts.dumpComputerStatus
                        then [ComputerStatus(host.displayName, oracles.statusName(call.status), NetSessionEnumTask)]
                        else [])
    ensures call.Returned? && call.status == 0 ==>
      && sessionList == NetSessions(call.entries, host, oracles, opts)
      && log' == log + (if opts.dumpComputerStatus
                        then [ComputerStatus(host.displayName, SuccessStatus, NetSessionEnumTask)]
                        else [])
    ensures releases == BufferFrees(call)
  {
    sessionList, log', releases := [], log, 0;
    if call.Returned? {
      if call.status != 0 {
        if opts.dumpComputerStatus {
          log' := log' + [ComputerStatus(host.displayName, oracles.statusName(call.status), NetSessionEnumTask)];
        }
      } else {
        var sessions := call.entries;
        if opts.dumpComputerStatus {
          log' := log' + [ComputerStatus(host.displayName, SuccessStatus, NetSessionEnumTask)];
        }
        for i := 0 to |sessions|
          invariant sessionList == NetSessions(sessions[..i], host, oracles, opts)
        {
          FlatMapStep(sessions, i, rec => RecordSessions(rec, host, oracles, opts));
          ghost var previous := sessionList;
          var sessionUsername := sessions[i].username;
          var computerName := sessions[i].cname;
          if computerName.None? {
            continue;
          }
          var computerSid: Option<string> := None;
          if IsFilteredUser(sessionUsername, opts.currentUserName) {
            continue;
          }
          var name := computerName.value;
          if StartsWith(name, "\\") {
            name := TrimStartChar(name, '\\');
          }
          if IsLoopback(name) {
            computerSid := host.objectIdentifier;
          }
          if computerSid.None? {
            computerSid := oracles.tryResolveHostToSid(name, host.domain);
          }
          assert computerSid == ClientComputerId(computerName.value, host, oracles);
          assert RecordSessions(sessions[i], host, oracles, opts)
                 == UserSessions(sessionUsername, host.domain, computerSid, oracles);
          var sids := oracles.lookupUserInGC(host.domain, sessionUsername);
          if |sids| > 0 {
            sessionList := AddSessionsFor(sessionList, sids, computerSid);
          } else {
            var translated := oracles.accountNameToSid(sessionUsername, host.domain);
            if translated.Some? {
              sessionList := sessionList + [Session(translated.value, computerSid)];
            } else {
              sessionList := sessionList + [Session(sessionUsername, computerSid)];
            }
          }
          assert sessionList == previous + UserSessions(sessionUsername, host.domain, computerSid, oracles);
        }
        assert sessions[..|sessions|] == sessions;
      }
    }
    // the `finally` block: the buffer is freed when the call left one behind
    if call.Returned? && call.bufferHeld {
      releases := releases + 1;
    }
  }

  /** Probes a reachable computer and replaces its session set by the deduplicated
      union of the old sessions and the new ones; leaves anything else untouched. */
  method ProcessNetSessions(wrapper: LdapWrapper, call: ProbeCall<SessionInfo10>, oracles: Oracles, opts: Options,
                            log: seq<ComputerStatus>)
    returns (result: LdapWrapper, log': seq<ComputerStatus>)
    modifies if IsProbeTarget(wrapper) then {wrapper.computer} else {}
    ensures result == wrapper
    ensures !IsProbeTarget(wrapper) ==> log' == log
    ensures IsProbeTarget(wrapper) ==>
      var found := NetSessionCandidates(call, wrapper.computer, oracles, opts);
      && wrapper.computer.sessions == Distinct(old(wrapper.computer.sessions) + found)
      && NoDuplicates(wrapper.computer.sessions)
      && (NoDuplicates(old(wrapper.computer.sessions)) ==>
            |old(wrapper.computer.sessions)| <= |wrapper.computer.sessions|
            && wrapper.computer.sessions[..|old(wrapper.computer.sessions)|] == old(wrapper.computer.sessions))
      && (forall s :: s in wrapper.computer.sessions <==> s in old(wrapper.computer.sessions) || s in found)
      && log' == log + VerdictStatus(NetSessionEnumVerdict(call), wrapper.computer, NetSessionEnumTask,
                                     oracles, opts.dumpComputerStatus)
  {
    result, log' := wrapper, log;
    if wrapper.ComputerWrapper? && !wrapper.computer.pingFailed {
      var computer := wrapper.computer;
      var sessions;
      ghost var releases;
      sessions, log', releases := GetNetSessions(computer, call, oracles, opts, log);
      computer.MergeSessions(sessions);
    }
  }

  // Properties of the per-record resolution.

  /** A loopback client is the computer itself: when the computer has an identifier,
      that is the client identifier, whatever the host resolver would answer. */
  lemma LoopbackUsesOwnIdentifier(clientName: string, host: Computer, oracles: Oracles,
                                  resolver: (string, string) -> Option<string>)
    requires IsLoopback(StripLeadingBackslashes(clientName)) && host.objectIdentifier.Some?
    ensures ClientComputerId(clientName, host, oracles) == host.objectIdentifier
    ensures ClientComputerId(clientName, host, oracles.(tryResolveHostToSid := resolver)) == host.objectIdentifier
  {
  }

  /** Otherwise the host resolver is asked about the stripped name. */
  lemma ResolverAnswersOtherwise(clientName: string, host: Computer, oracles: Oracles)
    requires !IsLoopback(StripLeadingBackslashes(clientName)) || host.objectIdentifier.None?
    ensures ClientComputerId(clientName, host, oracles)
            == oracles.tryResolveHostToSid(StripLeadingBackslashes(clientName), host.domain)
  {
  }

  /** When the global catalog knows the name, there is one session per returned SID, in
      order, and the name translation is not consulted. */
  lemma GlobalCatalogFirst(username: string, domain: string, computerId: Option<string>, oracles: Oracles,
                           translate: (string, string) -> Option<string>)
    requires |oracles.lookupUserInGC(domain, username)| > 0
    ensures var sids := oracles.lookupUserInGC(domain, username);
      && |UserSessions(username, domain, computerId, oracles)| == |sids|
      && (forall k :: 0 <= k < |sids| ==>
            UserSessions(username, domain, computerId, oracles)[k] == Session(sids[k], computerId))
      && UserSessions(username, domain, computerId, oracles)
         == UserSessions(username, domain, computerId, oracles.(accountNameToSid := translate))
  {
  }

  /** When the global catalog returns nothing, there is exactly one session: the
      translated SID, or else the raw user name. */
  lemma TranslationThenRawName(username: string, domain: string, computerId: Option<string>, oracles: Oracles)
    requires |oracles.lookupUserInGC(domain, username)| == 0
    ensures UserSessions(username, domain, computerId, oracles)
            == [Session(oracles.accountNameToSid(username, domain).GetOr(username), computerId)]
  {
  }

  // Properties of the record loop.

  /** The sessions of two record lists one after the other are those of the first list
      followed by those of the second. */
  lemma NetSessionsAppend(a: seq<SessionInfo10>, b: seq<SessionInfo10>, host: Computer, oracles: Oracles, opts: Options)
    ensures NetSessions(a + b, host, oracles, opts) == NetSessions(a, host, oracles, opts) + NetSessions(b, host, oracles, opts)
  {
    FlatMapAppend(a, b, rec => RecordSessions(rec, host, oracles, opts));
  }

  /** A session is produced exactly when some record that survives the filters
      produces it. */
  lemma NetSessionsOrigin(records: seq<SessionInfo10>, host: Computer, oracles: Oracles, opts: Options, s: Session)
    ensures s in NetSessions(records, host, oracles, opts) <==>
      exists i :: 0 <= i < |records| && IsResolvedRecord(records[i], opts)
                  && s in RecordSessions(records[i], host, oracles, opts)
  {
    FlatMapOrigin(records, rec => RecordSessions(rec, host, oracles, opts), s);
  }
}
