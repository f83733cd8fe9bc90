# SharpHound3 session probes, modelled in Dafny

SharpHound3 collects, for every reachable computer of an Active Directory domain, the
users that hold sessions on it. Two probes run per computer:

- **NetSessionEnum** (`SharpHound3/Tasks/NetSessionTasks.cs`) lists the sessions other
  machines hold on the computer. Each record names a client machine and a user. The probe
  filters out machine accounts, blank names, the enumerating account and anonymous logons.
  It strips leading backslashes from the client name, maps a loopback client to the
  computer itself and resolves other clients through the host resolver. It then turns
  the user into identifiers through the chain global catalog → name translation → raw name.
- **NetWkstaUserEnum + registry** (`SharpHound3/Tasks/LoggedOnTasks.cs`) lists the users
  logged on at the computer. Records whose logon domain is the computer's own SAM account
  name (case-insensitively) are dropped, and so are blank names and machine accounts.
  Each remaining user becomes its translated SID, or the upper-cased `user@DOMAIN`
  otherwise. Unless disabled, the probe also reads the subkey names of the remote
  `HKEY_USERS` hive and keeps those matching the SID pattern
  `S-1-5-21-[0-9]+-[0-9]+-[0-9]+-[0-9]+$`.

Both probes end the same way. The computer's session set becomes the deduplicated
concatenation (LINQ `Distinct`) of the old sessions and the new ones.

The model:

- `Common` holds the data model: `Session`, `ComputerStatus`, the run `Options`, the
  directory services as total functions in `Oracles`, the native call's outcome
  `ProbeCall`, and the `Computer` class with its mutable `sessions` field. The status
  sink is a `seq<ComputerStatus>` threaded through each operation. The number of
  `NetApiBufferFree` calls is a ghost out-parameter.
- `Text` models .NET string operations the filters use: `Trim` with the
  `Char.IsWhiteSpace` set, `TrimStart(char)`, `StartsWith` and `EndsWith` (compared
  ordinally), ASCII `ToUpper`, and case-insensitive `Equals`.
- `Dedup` models `Enumerable.Distinct`. `Sequences` holds the record-by-record list
  building (`FlatMap`) both record loops are proved against.
- `SidPattern` is a hand-written matcher for the SID regular expression. It is proved
  to accept exactly the strings the pattern's grammar describes.
- `NetSessionTasks` and `LoggedOnTasks` hold the probes:
  - the record loops are methods with `for` loops and `continue` filters, proved
    equal to specification functions;
  - the two `Process*` entry points mutate the `Computer`.

Behaviour of the code a reader may not expect, which the model follows:

- On the NetSessionEnum path, the last fallback for a user is the raw user name. It is
  not the upper-cased `user@DOMAIN`; only the logged-on path builds that name.
  The logged-on path never consults the global catalog.
- Only NetWkstaUserEnum accepts status 234 (ERROR_MORE_DATA). NetSessionEnum reports
  every non-zero status, 234 included, as an error (`LoggedOnTasks.VerdictsDifferOnMoreDataOnly`).
- Some probe attempts emit no status record:
  - a timed-out call;
  - a registry probe disabled by `NoRegistryLoggedOn`.
- Besides unreachable computers, an object that is not a computer is also returned untouched.

## Model

| member | source | states |
|---|---|---|
| Common.VerdictStatus | SharpHound3/Tasks/NetSessionTasks.cs:46-79 | with status dumping on, a rejected call yields exactly one record naming the status code and a proceeding call exactly one "Success" record, both for the probed computer and the probe's task; a timeout or dumping off yields none (same shape at LoggedOnTasks.cs:49-74) |
| Common.IsProbeTarget | SharpHound3/Tasks/NetSessionTasks.cs:18 | defines the guard of both entry points: a computer wrapper whose ping did not fail (same test at LoggedOnTasks.cs:21); the `Process*` contracts state that nothing else is probed or changed |
| Common.BufferFrees | SharpHound3/Tasks/NetSessionTasks.cs:149-153 | defines how often the `finally` block frees the buffer: once when the call returned and left a buffer, never otherwise; the `Get*` methods are proved to free exactly that often |
| Common.Computer.MergeSessions | SharpHound3/Tasks/NetSessionTasks.cs:21-23 | the new session set is Distinct(old ++ added): duplicate-free, its members are exactly the old and the added sessions, and a duplicate-free old set stays in order at the front |
| Text.StartsWith | SharpHound3/Tasks/NetSessionTasks.cs:100 | defines "begins with", comparing character by character; used for the leading-backslash test |
| Text.EndsWith | SharpHound3/Tasks/NetSessionTasks.cs:92 | defines "ends with", comparing character by character; used for the machine-account test (also LoggedOnTasks.cs:89) |
| Text.TrimStartChar | SharpHound3/Tasks/NetSessionTasks.cs:101 | the result is a suffix of the input, every removed character is the given one, and the result does not start with it |
| Text.TrimStart | SharpHound3/Tasks/NetSessionTasks.cs:93 | removes exactly the leading white space: a suffix, all removed characters white space, the first kept one not |
| Text.TrimEnd | SharpHound3/Tasks/NetSessionTasks.cs:93 | removes exactly the trailing white space: a prefix, all removed characters white space, the last kept one not |
| Text.Trim | SharpHound3/Tasks/NetSessionTasks.cs:93 | defines `Trim()` as `TrimEnd(TrimStart(s))`; characterised by the contracts of TrimStart and TrimEnd and by TrimEmptyIffBlank |
| Text.TrimEmptyIffBlank | SharpHound3/Tasks/NetSessionTasks.cs:93 | `Trim() == ""` holds exactly when every character is white space |
| Text.ToUpper | SharpHound3/Tasks/LoggedOnTasks.cs:105 | same length, no lower-case ASCII letter left, lower-case letters mapped to upper case and every other character kept |
| Text.EqualsIgnoreCase | SharpHound3/Tasks/LoggedOnTasks.cs:85 | two strings are equal ignoring case exactly when their upper-cased forms are equal |
| Dedup.IndexOf | SharpHound3/Tasks/NetSessionTasks.cs:23 | the position of the first occurrence of an element |
| Dedup.Distinct | SharpHound3/Tasks/NetSessionTasks.cs:23 | the result has no duplicates, contains every input element and only input elements, and is no longer than the input |
| Dedup.IndexOfInPrefix | SharpHound3/Tasks/NetSessionTasks.cs:23 | the first occurrence of an element in a prefix is its first occurrence in the whole list |
| Dedup.DistinctOrder | SharpHound3/Tasks/NetSessionTasks.cs:23 | elements appear in the result in the order of their first occurrence in the input |
| Dedup.DistinctPrefix | SharpHound3/Tasks/NetSessionTasks.cs:21-23 | deduplicating a longer list extends the deduplicated shorter one |
| Dedup.DistinctOfNoDuplicates | SharpHound3/Tasks/NetSessionTasks.cs:23 | a duplicate-free list is left as it is |
| Dedup.DistinctKeepsExisting | SharpHound3/Tasks/NetSessionTasks.cs:21-23 | when the old sessions are duplicate-free, the merged set starts with them, in order |
| SidPattern.DigitsBefore | SharpHound3/Tasks/LoggedOnTasks.cs:17 | the length of the maximal `[0-9]` run ending at a position: all digits, and preceded by a non-digit or the start |
| SidPattern.RunsStart | SharpHound3/Tasks/LoggedOnTasks.cs:17 | where the trailing digit runs begin, never after their end |
| SidPattern.MaximalRun | SharpHound3/Tasks/LoggedOnTasks.cs:17 | a digit run preceded by a non-digit is the maximal run there |
| SidPattern.RunsStartSound | SharpHound3/Tasks/LoggedOnTasks.cs:17 | what the right-to-left parse finds is n digit runs joined by '-', not preceded by a digit |
| SidPattern.RunsStartComplete | SharpHound3/Tasks/LoggedOnTasks.cs:17 | n digit runs joined by '-' and not preceded by a digit are found by the parse |
| SidPattern.MatchAt | SharpHound3/Tasks/LoggedOnTasks.cs:17 | a parse that ends at the prefix `S-1-5-21-` is a match of the pattern |
| SidPattern.MatchIsPattern | SharpHound3/Tasks/LoggedOnTasks.cs:17 | every string the matcher accepts has a suffix of the form `S-1-5-21-` + four digit runs joined by '-' |
| SidPattern.PatternIsMatch | SharpHound3/Tasks/LoggedOnTasks.cs:17 | every string with such a suffix is accepted |
| SidPattern.IsSidMatch | SharpHound3/Tasks/LoggedOnTasks.cs:17 | defines the matcher used in the `Where` filter of line 130: the four trailing digit runs parse and `S-1-5-21-` stands right before them; IsSidMatchCorrect proves it equals the pattern |
| SidPattern.IsSidMatchCorrect | SharpHound3/Tasks/LoggedOnTasks.cs:17 | the matcher accepts a string exactly when the end-anchored, start-unanchored pattern matches it |
| NetSessionTasks.NetSessionEnumVerdict | SharpHound3/Tasks/NetSessionTasks.cs:44-61 | abandoned exactly on a timeout, proceeds exactly on status 0, otherwise rejected with the returned status |
| NetSessionTasks.IsFilteredUser | SharpHound3/Tasks/NetSessionTasks.cs:92-94 | defines the user filter: a trailing "$", a blank name after trimming, "$", the enumerating account or "ANONYMOUS LOGON"; RecordSessions states that such a user yields nothing |
| NetSessionTasks.IsResolvedRecord | SharpHound3/Tasks/NetSessionTasks.cs:86-97 | defines the records that reach resolution: a non-null client name and an unfiltered user; RecordSessions and NetSessionsOrigin state that exactly these yield sessions |
| NetSessionTasks.IsLoopback | SharpHound3/Tasks/NetSessionTasks.cs:104 | defines the loopback names "[::1]" and "127.0.0.1"; characterised by LoopbackUsesOwnIdentifier and ResolverAnswersOtherwise |
| NetSessionTasks.ClientComputerId | SharpHound3/Tasks/NetSessionTasks.cs:100-108 | defines the client identifier: the computer's own identifier for a loopback name when it has one, else the resolver's answer; characterised by LoopbackUsesOwnIdentifier and ResolverAnswersOtherwise |
| NetSessionTasks.UserSessions | SharpHound3/Tasks/NetSessionTasks.cs:111-143 | the fallback chain always yields at least one session, all on the given computer; GlobalCatalogFirst and TranslationThenRawName give its exact value in each case |
| NetSessionTasks.NetSessions | SharpHound3/Tasks/NetSessionTasks.cs:81-145 | defines the sessions of the record loop as the concatenation of each record's sessions; GetNetSessions is proved equal to it, NetSessionsAppend and NetSessionsOrigin characterise it |
| NetSessionTasks.NetSessionCandidates | SharpHound3/Tasks/NetSessionTasks.cs:44-145 | defines what GetNetSessions returns for a call outcome: NetSessions of the records when the verdict proceeds, nothing otherwise; the merge in ProcessNetSessions is stated with it |
| NetSessionTasks.StripLeadingBackslashes | SharpHound3/Tasks/NetSessionTasks.cs:99-101 | the stripped name is a suffix of the client name, only backslashes were removed, and it does not start with one |
| NetSessionTasks.SessionsFor | SharpHound3/Tasks/NetSessionTasks.cs:113-122 | one session per SID, in the SIDs' order, all on the same computer |
| NetSessionTasks.RecordSessions | SharpHound3/Tasks/NetSessionTasks.cs:83-143 | a record with a null client name or a filtered user yields nothing; any other record yields at least one session, all with the resolved client identifier |
| NetSessionTasks.AddSessionsFor | SharpHound3/Tasks/NetSessionTasks.cs:115-122 | appends exactly one session per SID, in order |
| NetSessionTasks.GetNetSessions | SharpHound3/Tasks/NetSessionTasks.cs:29-154 | timeout: nothing and no record; non-zero status: nothing and one error record when dumping; status 0: exactly the sessions of the records, in order, and one "Success" record when dumping; the buffer is freed once exactly when the call left one |
| NetSessionTasks.ProcessNetSessions | SharpHound3/Tasks/NetSessionTasks.cs:16-27 | returns the wrapper itself; a non-computer or unreachable computer causes no probe and no record; otherwise the sessions become Distinct(old ++ found), with no duplicates and exactly old ∪ found as members, old kept in front, and the probe's status record appended |
| NetSessionTasks.LoopbackUsesOwnIdentifier | SharpHound3/Tasks/NetSessionTasks.cs:103-108 | a loopback client of a computer with an identifier gets that identifier, whatever the host resolver answers |
| NetSessionTasks.ResolverAnswersOtherwise | SharpHound3/Tasks/NetSessionTasks.cs:107-108 | any other client gets what the host resolver answers for the stripped name in the computer's domain |
| NetSessionTasks.GlobalCatalogFirst | SharpHound3/Tasks/NetSessionTasks.cs:111-123 | k > 0 global-catalog SIDs give exactly k sessions, one per SID in order, whatever the name translation would answer |
| NetSessionTasks.TranslationThenRawName | SharpHound3/Tasks/NetSessionTasks.cs:124-143 | with no global-catalog SID, exactly one session: the translated SID, else the raw user name |
| NetSessionTasks.NetSessionsAppend | SharpHound3/Tasks/NetSessionTasks.cs:81-145 | the records are handled in order: the sessions of a concatenation are the concatenated sessions |
| NetSessionTasks.NetSessionsOrigin | SharpHound3/Tasks/NetSessionTasks.cs:81-145 | a session is produced exactly when some record that passes the filters produces it |
| LoggedOnTasks.NetWkstaUserEnumVerdict | SharpHound3/Tasks/LoggedOnTasks.cs:47-63 | abandoned exactly on a timeout, proceeds exactly on status 0 or 234, otherwise rejected with the returned status |
| LoggedOnTasks.VerdictsDifferOnMoreDataOnly | SharpHound3/Tasks/LoggedOnTasks.cs:53 | the two probes classify a call differently exactly when it returned 234, which one reads and the other rejects |
| LoggedOnTasks.IsLocalAccount | SharpHound3/Tasks/LoggedOnTasks.cs:85 | defines a local account: the logon domain equals the SAM account name ignoring case, never when that name is null |
| LoggedOnTasks.IsDroppedRecord | SharpHound3/Tasks/LoggedOnTasks.cs:85-90 | defines the dropped records: local accounts, blank names and names ending in "$"; RecordSession and ApiSessionsOrigin state that exactly these yield nothing |
| LoggedOnTasks.LoggedOnUserId | SharpHound3/Tasks/LoggedOnTasks.cs:92-108 | defines the user identifier: the translated SID, else the upper-cased `user@DOMAIN`; characterised by TranslatedUserId and FallbackUserIdFormat |
| LoggedOnTasks.ApiSessions | SharpHound3/Tasks/LoggedOnTasks.cs:76-109 | defines the sessions of the record loop as the concatenation of each record's session; GetLoggedOnUsersAPI is proved equal to it, ApiSessionsBound, ApiSessionsOrigin and ApiSessionsAppend characterise it |
| LoggedOnTasks.ApiCandidates | SharpHound3/Tasks/LoggedOnTasks.cs:47-111 | defines what GetLoggedOnUsersAPI returns for a call outcome: ApiSessions of the records when the verdict proceeds, nothing otherwise; the merge in ProcessLoggedOn is stated with it |
| LoggedOnTasks.RecordSession | SharpHound3/Tasks/LoggedOnTasks.cs:81-108 | a record yields no session exactly when it is a local account, a blank name or a machine account, and otherwise exactly one, with the logged-on user identifier and the computer's own identifier |
| LoggedOnTasks.GetLoggedOnUsersAPI | SharpHound3/Tasks/LoggedOnTasks.cs:34-118 | timeout: nothing and no record; a status other than 0 and 234: nothing and one error record when dumping; 0 or 234: exactly the sessions of the records, in order, and one "Success" record when dumping; the buffer is freed once exactly when the call left one |
| LoggedOnTasks.SubkeySession | SharpHound3/Tasks/LoggedOnTasks.cs:130-151 | a subkey name yields one session, with the name as user identifier, exactly when the SID matcher accepts it |
| LoggedOnTasks.SidSubkeySessions | SharpHound3/Tasks/LoggedOnTasks.cs:130-151 | defines the registry sessions: one per subkey name the matcher accepts, in subkey order; characterised by SidSubkeySessionsOrigin, SidSubkeySessionsBound and SidSubkeySessionsAppend |
| LoggedOnTasks.GetLoggedOnUsersRegistry | SharpHound3/Tasks/LoggedOnTasks.cs:120-160 | disabled: no session and no record; read error: no session and one record carrying the error message when dumping; otherwise the sessions of the matching subkeys and one "Success" record when dumping |
| LoggedOnTasks.ProcessLoggedOn | SharpHound3/Tasks/LoggedOnTasks.cs:19-32 | returns the wrapper itself; a non-computer or unreachable computer causes no probe and no record; otherwise the sessions become Distinct(old ++ api ++ registry), with no duplicates and exactly their union as members, old kept in front, and the API record followed by the registry record appended |
| LoggedOnTasks.ApiSessionsBound | SharpHound3/Tasks/LoggedOnTasks.cs:76-109 | no more sessions than records read |
| LoggedOnTasks.ApiSessionsOrigin | SharpHound3/Tasks/LoggedOnTasks.cs:76-109 | a session is produced exactly when some record that is not dropped has it as its user and computer; every session is on the probed computer |
| LoggedOnTasks.ApiSessionsAppend | SharpHound3/Tasks/LoggedOnTasks.cs:76-109 | the records are handled in order: the sessions of a concatenation are the concatenated sessions |
| LoggedOnTasks.FallbackUserIdFormat | SharpHound3/Tasks/LoggedOnTasks.cs:101-108 | without a translated SID the identifier is the upper-cased user name, '@', and the upper-cased normalized domain, with no lower-case letter |
| LoggedOnTasks.TranslatedUserId | SharpHound3/Tasks/LoggedOnTasks.cs:92-100 | with a translated SID the identifier is that SID, whatever the domain normalizer answers |
| LoggedOnTasks.SidSubkeySessionsOrigin | SharpHound3/Tasks/LoggedOnTasks.cs:130-151 | a registry session is produced exactly when its user identifier is a listed subkey name matching the SID pattern and its computer is the probed one |
| LoggedOnTasks.SidSubkeySessionsBound | SharpHound3/Tasks/LoggedOnTasks.cs:144-151 | at most one session per subkey name |
| LoggedOnTasks.SidSubkeySessionsAppend | SharpHound3/Tasks/LoggedOnTasks.cs:144-151 | sessions keep the subkey order |

## Left out

- The native calls `NetSessionEnum`, `NetWkstaUserEnum` and `NetApiBufferFree`, and the
  `Marshal.PtrToStructure` walk over the result buffer, are foreign calls. The outcome of
  the call is an input (`ProbeCall`) that carries the `entriesRead` records as a sequence.
  A call that left a buffer behind is a flag, and freeing it is counted.
- `Task.Run` and the ten-second `task.Wait` are concurrency. They are modelled by
  the `TimedOut` outcome. The race in which an abandoned call sets `ptrInfo` after the
  `finally` block has run (and so leaks the buffer) is not modelled: a timed-out call holds no buffer.
- `RegistryKey.OpenRemoteBaseKey` and `GetSubKeyNames` are remote I/O. Their result is an
  input (`RegistryRead`): an exception message or the list of subkey names. The opened key
  is never closed in the source; the model has no handle.
- `Helpers.AccountNameToSid`, `Helpers.TryResolveHostToSid`, `Helpers.NormalizeDomainName`,
  `GetDirectorySearcher(domain).LookupUserInGC` and the `NET_API_STATUS` name table
  are network and directory lookups whose code is not part of this model. They are
  deterministic total functions in `Oracles`. Caching and the `await` on them are not modelled.
- `OutputTasks.AddComputerStatus` is an append to the threaded status log. Because the
  log is separate from the session list, the model cannot observe that the "Success"
  record is emitted before the records are read.
- `Options.Instance` (a global) becomes the `Options` parameter. `computer.APIName` is
  only passed to the native calls and is not modelled.
- `Session.Equals` is not part of this model. Sessions are compared structurally on the
  user and computer identifiers.
- Text.ToUpper: maps only the ASCII letters, not the culture-sensitive `String.ToUpper` of
  the current culture. The same goes for `Text.EqualsIgnoreCase` and `CurrentCultureIgnoreCase`.
- Text.StartsWith, Text.EndsWith: compare ordinally, character by character, not with the
  culture-sensitive comparison of the one-argument .NET overloads the source calls, which
  ignores characters such as the soft hyphen U+00AD.
- SidPattern.IsSidMatch: does not model .NET's `$` also matching just before a final
  newline, so a subkey name ending in "\n" after the SID is not accepted.
- User names, logon domains and subkey names are non-null strings. The null-reference
  exceptions the source would throw on null ones are not modelled. A null client name
  (`cname`), a null SAM account name, a null object identifier and a null current user
  name are modelled with `Option`.
- The per-SID `foreach` of the NetSessionEnum path is the helper method
  `NetSessionTasks.AddSessionsFor`, which `GetNetSessions` calls.
