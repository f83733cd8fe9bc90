/**
  The logged-on-users probe: ask the workstation service which users are logged on
  and read the SID-named subkeys of the remote HKEY_USERS hive, turn both into session
  edges on the computer, and merge them into the computer's session set.
 */
module LoggedOnTasks {
  import opened Common
  import opened Text
  import opened Dedup
  import opened Sequences
  import opened SidPattern
  import NetSessionTasks

  const NetWkstaUserEnumTask: string := "NetWkstaUserEnum"
  const RegistryLoggedOnTask: string := "RegistryLoggedOn"

  /** The Win32 code ERROR_MORE_DATA: the buffer holds only part of the list. */
  const ErrorMoreData: int := 234

  /** One WKSTA_USER_INFO_1 structure: the user name and the logon domain. The other
      domains and the logon server are never read. */
  datatype WkstaUserInfo1 = WkstaUserInfo1(username: string, logonDomain: string)

  /** What opening the remote HKEY_USERS hive and listing its subkeys gave: the message
      of the exception thrown, or the subkey names in the order the registry lists them. */
  datatype RegistryRead = RegistryError(message: string) | SubKeyNames(names: seq<string>)

  // The API path.

  /** NetWkstaUserEnum accepts status 0 and ERROR_MORE_DATA. */
  function NetWkstaUserEnumVerdict<R>(call: ProbeCall<R>): (v: Verdict)
    ensures v.Abandoned? <==> call.TimedOut?
    ensures v.Proceed? <==> call.Returned? && (call.status == 0 || call.status == ErrorMoreData)
    ensures v.Rejected? ==> call.Returned? && v.code == call.status
  {
    match call
    case TimedOut => Abandoned
    case Returned(status, _, _) => if status == 0 || status == ErrorMoreData then Proceed else Rejected(status)
  }

  /** The two probes classify a call outcome alike except for ERROR_MORE_DATA, which the
      workstation probe reads and the session probe reports as an error. */
  lemma VerdictsDifferOnMoreDataOnly<R>(call: ProbeCall<R>)
    ensures NetWkstaUserEnumVerdict(call) != NetSessionTasks.NetSessionEnumVerdict(call)
            <==> call.Returned? && call.status == ErrorMoreData
    ensures call.Returned? && call.status == ErrorMoreData ==>
      && NetWkstaUserEnumVerdict(call) == Proceed
      && NetSessionTasks.NetSessionEnumVerdict(call) == Rejected(ErrorMoreData)
  {
  }

  /** A local account: the logon domain is the computer's own SAM account name, compared
      without regard to case (a null SAM account name equals nothing). */
  predicate IsLocalAccount(rec: WkstaUserInfo1, host: Computer) {
    host.samAccountName.Some? && EqualsIgnoreCase(rec.logonDomain, host.samAccountName.value)
  }

  /** Local accounts, blank user names and machine accounts yield no session. */
  predicate IsDroppedRecord(rec: WkstaUserInfo1, host: Computer) {
    IsLocalAccount(rec, host) || Trim(rec.username) == "" || EndsWith(rec.username, "$")
  }

  /** The user identifier of a logged-on user: the translated SID, or failing that the
      upper-cased `user@DOMAIN` name. */
  function LoggedOnUserId(rec: WkstaUserInfo1, oracles: Oracles): string {
    match oracles.accountNameToSid(rec.username, rec.logonDomain)
    case Some(sid) => sid
    case None => ToUpper(rec.username + "@" + oracles.normalizeDomainName(rec.logonDomain))
  }

  /** The sessions one WKSTA_USER_INFO_1 record contributes: none when it is dropped,
      otherwise exactly one, on the probed computer. */
  function RecordSession(rec: WkstaUserInfo1, host: Computer, oracles: Oracles): (r: seq<Session>)
    ensures |r| <= 1
    ensures |r| == 0 <==> IsDroppedRecord(rec, host)
    ensures forall s :: s in r ==> s == Session(LoggedOnUserId(rec, oracles), host.objectIdentifier)
  {
    if IsDroppedRecord(rec, host) then [] else [Session(LoggedOnUserId(rec, oracles), host.objectIdentifier)]
  }

  /** The sessions a list of records contributes, record by record. */
  function ApiSessions(records: seq<WkstaUserInfo1>, host: Computer, oracles: Oracles): seq<Session> {
    FlatMap(records, rec => RecordSession(rec, host, oracles))
  }

  /** The sessions GetLoggedOnUsersAPI returns for a native call outcome. */
  function ApiCandidates(call: ProbeCall<WkstaUserInfo1>, host: Computer, oracles: Oracles): seq<Session> {
    if NetWkstaUserEnumVerdict(call).Proceed? then ApiSessions(call.entries, host, oracles) else []
  }

  /** Runs the workstation probe on the outcome of the native call. `log` is the status
      sink before the call and `log'` after it; `releases` counts the NetApiBufferFree calls. */
  method GetLoggedOnUsersAPI(host: Computer, call: ProbeCall<WkstaUserInfo1>, oracles: Oracles, opts: Options,
                             log: seq<ComputerStatus>)
    returns (sessionList: seq<Session>, log': seq<ComputerStatus>, ghost releases: nat)
    ensures call.TimedOut? ==> sessionList == [] && log' == log
    ensures call.Returned? && call.status != 0 && call.status != ErrorMoreData ==>
      && sessionList == []
      && log' == log + (if opts.dumpComputerStatus
                        then [ComputerStatus(host.displayName, oracles.statusName(call.status), NetWkstaUserEnumTask)]
                        else [])
    ensures call.Returned? && (call.status == 0 || call.status == ErrorMoreData) ==>
      && sessionList == ApiSessions(call.entries, host, oracles)
      && log' == log + (if opts.dumpComputerStatus
                        then [ComputerStatus(host.displayName, SuccessStatus, NetWkstaUserEnumTask)]
                        else [])
    ensures releases == BufferFrees(call)
  {
    sessionList, log', releases := [], log, 0;
    if call.Returned? {
      if call.status != 0 && call.status != ErrorMoreData {
        if opts.dumpComputerStatus {
          log' := log' + [ComputerStatus(host.displayName, oracles.statusName(call.status), NetWkstaUserEnumTask)];
        }
      } else {
        var entries := call.entries;
        if opts.dumpComputerStatus {
          log' := log' + [ComputerStatus(host.displayName, SuccessStatus, NetWkstaUserEnumTask)];
        }
        for i := 0 to |entries|
          invariant sessionList == ApiSessions(entries[..i], host, oracles)
        {
          FlatMapStep(entries, i, rec => RecordSession(rec, host, oracles));
          var domain := entries[i].logonDomain;
          var username := entries[i].username;
          if host.samAccountName.Some? && EqualsIgnoreCase(domain, host.samAccountName.value) {
            continue;
          }
          if Trim(username) == "" || EndsWith(username, "$") {
            continue;
          }
          var sid := oracles.accountNameToSid(username, domain);
          if sid.Some? {
            sessionList := sessionList + [Session(sid.value, host.objectIdentifier)];
          } else {
            sessionList := sessionList
              + [Session(ToUpper(username + "@" + oracles.normalizeDomainName(domain)), host.objectIdentifier)];
          }
        }
        assert entries[..|entries|] == entries;
      }
    }
    // the `finally` block: the buffer is freed when the call left one behind
    if call.Returned? && call.bufferHeld {
      releases := releases + 1;
    }
  }

  // The registry path.

  /** The session a subkey name contributes: one for a name the SID pattern matches,
      with the name itself as the user identifier. */
  function SubkeySession(name: string, computerId: Option<string>): (r: seq<Session>)
    ensures |r| <= 1
    ensures |r| == 1 <==> IsSidMatch(name)
    ensures forall s :: s in r ==> s == Session(name, computerId)
  {
    if IsSidMatch(name) then [Session(name, computerId)] else []
  }

  /** The `Where` filter on the subkey names followed by one session per remaining name. */
  function SidSubkeySessions(names: seq<string>, computerId: Option<string>): seq<Session> {
    FlatMap(names, name => SubkeySession(name, computerId))
  }

  /** What GetLoggedOnUsersRegistry yields and the status records it emits. */
  function GetLoggedOnUsersRegistry(host: Computer, read: RegistryRead, opts: Options): (r: ProbeOutput)
    ensures opts.noRegistryLoggedOn ==> r == ProbeOutput([], [])
    ensures !opts.noRegistryLoggedOn && read.RegistryError? ==>
      && r.sessions == []
      && r.statuses == (if opts.dumpComputerStatus
                        then [ComputerStatus(host.displayName, read.message, RegistryLoggedOnTask)]
                        else [])
    ensures !opts.noRegistryLoggedOn && read.SubKeyNames? ==>
      && r.sessions == SidSubkeySessions(read.names, host.objectIdentifier)
      && r.statuses == (if opts.dumpComputerStatus
                        then [ComputerStatus(host.displayName, SuccessStatus, RegistryLoggedOnTask)]
                        else [])
  {
    if opts.noRegistryLoggedOn then ProbeOutput([], [])
    else match read
      case RegistryError(message) =>
        ProbeOutput([], if opts.dumpComputerStatus then [ComputerStatus(host.displayName, message, RegistryLoggedOnTask)] else [])
      case SubKeyNames(names) =>
        ProbeOutput(SidSubkeySessions(names, host.objectIdentifier),
                    if opts.dumpComputerStatus then [ComputerStatus(host.displayName, SuccessStatus, RegistryLoggedOnTask)] else [])
  }

  // The aggregator.

  /** Probes a reachable computer through both paths, API first, and replaces its session
      set by the deduplicated union of the old sessions and the new ones; leaves anything
      else untouched. */
  method ProcessLoggedOn(wrapper: LdapWrapper, call: ProbeCall<WkstaUserInfo1>, read: RegistryRead,
                         oracles: Oracles, opts: Options, log: seq<ComputerStatus>)
    returns (result: LdapWrapper, log': seq<ComputerStatus>)
    modifies if IsProbeTarget(wrapper) then {wrapper.computer} else {}
    ensures result == wrapper
    ensures !IsProbeTarget(wrapper) ==> log' == log
    ensures IsProbeTarget(wrapper) ==>
      var host := wrapper.computer;
      var registry := GetLoggedOnUsersRegistry(host, read, opts);
      var found := ApiCandidates(call, host, oracles) + registry.sessions;
      && host.sessions == Distinct(old(host.sessions) + found)
      && NoDuplicates(host.sessions)
      && (NoDuplicates(old(host.sessions)) ==>
            |old(host.sessions)| <= |host.sessions|
            && host.sessions[..|old(host.sessions)|] == old(host.sessions))
      && (forall s :: s in host.sessions <==> s in old(host.sessions) || s in found)
      && log' == log + VerdictStatus(NetWkstaUserEnumVerdict(call), host, NetWkstaUserEnumTask,
                                     oracles, opts.dumpComputerStatus)
                     + registry.statuses
  {
    result, log' := wrapper, log;
    if wrapper.ComputerWrapper? && !wrapper.computer.pingFailed {
      var computer := wrapper.computer;
      var apiSessions;
      ghost var releases;
      apiSessions, log', releases := GetLoggedOnUsersAPI(computer, call, oracles, opts, log);
      var registry := GetLoggedOnUsersRegistry(computer, read, opts);
      var sessions := apiSessions + registry.sessions;
      log' := log' + registry.statuses;
      computer.MergeSessions(sessions);
    }
  }

  // Properties of the API path.

  /** Every surviving record yields exactly one session, so there are at most as many
      sessions as records. */
  lemma ApiSessionsBound(records: seq<WkstaUserInfo1>, host: Computer, oracles: Oracles)
    ensures |ApiSessions(records, host, oracles)| <= |records|
  {
    FlatMapAtMostOne(records, rec => RecordSession(rec, host, oracles));
  }

  /** A session is produced exactly when some record that is not dropped has it as its
      logged-on user; every such session is on the probed computer. */
  lemma ApiSessionsOrigin(records: seq<WkstaUserInfo1>, host: Computer, oracles: Oracles, s: Session)
    ensures s in ApiSessions(records, host, oracles) <==>
      exists i :: 0 <= i < |records| && !IsDroppedRecord(records[i], host)
                  && s == Session(LoggedOnUserId(records[i], oracles), host.objectIdentifier)
    ensures s in ApiSessions(records, host, oracles) ==> s.computerId == host.objectIdentifier
  {
    FlatMapOrigin(records, rec => RecordSession(rec, host, oracles), s);
  }

  /** The sessions of two record lists one after the other are those of the first list
      followed by those of the second. */
  lemma ApiSessionsAppend(a: seq<WkstaUserInfo1>, b: seq<WkstaUserInfo1>, host: Computer, oracles: Oracles)
    ensures ApiSessions(a + b, host, oracles) == ApiSessions(a, host, oracles) + ApiSessions(b, host, oracles)
  {
    FlatMapAppend(a, b, rec => RecordSession(rec, host, oracles));
  }

  /** When the name cannot be translated, the identifier is `USER@DOMAIN`: the upper-cased
      user name, an '@', and the upper-cased normalized domain, with no lower-case ASCII
      letter left. */
  lemma FallbackUserIdFormat(rec: WkstaUserInfo1, oracles: Oracles)
    requires oracles.accountNameToSid(rec.username, rec.logonDomain).None?
    ensures var id := LoggedOnUserId(rec, oracles);
      var domain := oracles.normalizeDomainName(rec.logonDomain);
      && |id| == |rec.username| + 1 + |domain|
      && id[..|rec.username|] == ToUpper(rec.username)
      && id[|rec.username|] == '@'
      && id[|rec.username| + 1..] == ToUpper(domain)
      && forall i :: 0 <= i < |id| ==> !IsAsciiLower(id[i])
  {
  }

  /** With a translated SID, the identifier is the SID, and the domain normalizer is not
      consulted. */
  lemma TranslatedUserId(rec: WkstaUserInfo1, oracles: Oracles, normalize: string -> string)
    requires oracles.accountNameToSid(rec.username, rec.logonDomain).Some?
    ensures LoggedOnUserId(rec, oracles) == oracles.accountNameToSid(rec.username, rec.logonDomain).value
    ensures LoggedOnUserId(rec, oracles.(normalizeDomainName := normalize)) == LoggedOnUserId(rec, oracles)
  {
  }

  // Properties of the registry path.

  /** A session comes from the registry exactly when its user identifier is a listed
      subkey name that the SID pattern matches, and its computer is the probed one. */
  lemma SidSubkeySessionsOrigin(names: seq<string>, computerId: Option<string>, s: Session)
    ensures s in SidSubkeySessions(names, computerId) <==>
      s.computerId == computerId && s.userId in names && PatternMatches(s.userId)
  {
    FlatMapOrigin(names, name => SubkeySession(name, computerId), s);
    IsSidMatchCorrect(s.userId);
    if s.computerId == computerId && s.userId in names && PatternMatches(s.userId) {
      var i :| 0 <= i < |names| && names[i] == s.userId;
      assert s in SubkeySession(names[i], computerId);
    }
  }

  /** At most one session per subkey name. */
  lemma SidSubkeySessionsBound(names: seq<string>, computerId: Option<string>)
    ensures |SidSubkeySessions(names, computerId)| <= |names|
  {
    FlatMapAtMostOne(names, name => SubkeySession(name, computerId));
  }

  /** The sessions keep the subkey order: those of an earlier run of names come first. */
  lemma SidSubkeySessionsAppend(a: seq<string>, b: seq<string>, computerId: Option<string>)
    ensures SidSubkeySessions(a + b, computerId) == SidSubkeySessions(a, computerId) + SidSubkeySessions(b, computerId)
  {
    FlatMapAppend(a, b, name => SubkeySession(name, computerId));
  }
}
