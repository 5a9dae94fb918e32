# Verified model of the ARX-MDM server and agent core

This project models the parts of ARX-MDM whose correctness does not show in any one function: the merge of device
policies, the life of alerts and the incidents they open, and the small protocols between agents, dashboards and the
server. Everything is proved with Dafny 4.11; `dafny verify dfyconfig.toml` checks the whole project.

**Policy merge** (`internal/mdm/policy/merge.go`). `Text`, `Decimal`, `Json` and `JsonText` hold strings and their
order, decimal numbers, JSON values and the text `json.Marshal` gives them, which is proved injective and whose first
character is proved to decide between values of different kinds; `JsonGrammar` ties that text to the grammar.
`Restrictive` is the pairwise choice of a value, `Merging` the merge of the contributions to one path, `RestrictiveWins`
what it comes to for each kind of setting, `Paths` and `Rebuild` the way from a payload to dotted paths and back,
`Effective` and `PolicyLaws` the effective payload and its laws. `Grouping` and `Staging` say when merging in two stages
equals merging at once, for one path and for profiles, `Reordering` when the payload depends on order for profiles with
any keys; `ConflictFlags` and `ConflictOrder` when the conflicts reported do. `Conflicts`, `MapHeap`, `PolicyMerge` and
`Assignments` are the loops and in-place updates of the code, proved against those functions: strings sorted in place in
an array, and nested maps written through references (an arena of map nodes). `Compliance`, `Criticality` and
`Quarantine` use the merged payload.

**Alerts and incidents.** `Alerts` and `Incidents` are the two tables and their transactions, `Lifecycle` the runs of
evaluator reports, heartbeats, closings, manual resolutions and hooks that run in any order, `AlertEngine` the evaluator's
loops, proved to be such runs whichever of their writes fail.

**Protocols.** `FileDownload`, `FileUpload`, `DashboardHub`, `Enrollment`, `AssetIdentity` and `DeviceMetrics`. The first four
are state machines whose theorems quantify over every interleaving; their classes are proved to take the machine's steps.
Rows below that begin with *one step* say what a single step does and rest on no other result.

## What turned out to hold, and what not

* Taking a payload apart and rebuilding it gives it back exactly when no key holds a dot and no root key is empty.
* The effective payload is independent of the order of the profiles exactly when, at every path it shows, lists are
  *settled* (all string lists, all equal, or the non-string ones are least by text) and `true`, `false` and `null` do not
  decide together at a deny key.
* Merging in two stages equals merging at once exactly when no path begins with a dot and shared contributions compose.
  For every order and every cut at once, the contributions must group well. Lists are united only among themselves, so a
  list that meets an object, `null` or a boolean must be alone, or beaten by a string or number, or the union must already
  be the least list; and a list that holds anything but strings must sort before every union of the string lists around it,
  or all lists must be of its sort, or the only string list must be the least.
* Conflict flags are exact, but for numbers and mixed lists they depend on the order of the profiles unless the
  contributions are settled: tolerance is not transitive. The profiles reported, and the assignments marked, are the same
  for all orders exactly when each profile can never be first to disturb a path, or some of its paths conflict in any case.
* An empty object in the list of settings is the map that the rebuild may later write into, so it shows the rebuilt object
  exactly when some path leads further down.
* A critical control that is a non-empty object survives every merge. Otherwise the merged payload is critical exactly when
  the contributions to some control are not blank: a string is merged away by a blank one that sorts no later, and a list
  whose first element is neither a string, a number nor a list is kept or erased by `[]` as the order of the profiles has it.
* With hooks run in order, a fingerprint has an active incident exactly if a critical report opened or refreshed one and no
  recovery queued since then got through. So an open critical alert whose report got through has its incident,
  but a resolved one may have it too:
  after a manual resolution, which queues no hook; after a rule pass whose second closing fails, because it returns before
  it queues the recovery of what the first closing resolved; and after an ordinary heartbeat or pass, because the recovery
  hook runs under a context that is cancelled as soon as the request or the pass returns. Hooks out of order are harmless for
  a fingerprint exactly when the last one to get through for it is of the sort that was queued last among those that did.
* An incident number has seven digits: after number 9999999 new critical alerts open no incident.
* A finished HTTP download is the file exactly if no send found the 8-slot queue full. A loss that nobody notices is possible exactly
  if the agent sends more than nine messages. A failed or abandoned download looks to the client like a complete one.
* A file that upload sessions share holds, place by place, the last write since it was emptied last; that is a session's own
  chunks if no other session writes there or is begun there after its first byte, which nothing keeps from happening.
* Quarantine is edge-triggered, provided the stored status can be read: a device that stays non-compliant is commanded again
  exactly by a report that calls for it and whose status read failed. A quarantine command that could not be inserted is not
  made up for.
* Sending to dashboards never hits a closed queue, and it is the lock that guarantees it: without the lock, or with the queue
  closed before the client leaves the list, there are runs that panic.
* One enrollment token backs at most one success. The comment on `ProcessEnroll` promises that a claim is released when
  signing fails; when the request is cancelled between claim and signature it is not, and the token is lost for good. In
  general a token is used for nothing exactly if its last claim that took effect was not released and its attempt has failed.

## Model

| member | source | states |
|---|---|---|
| `Text.PathLeafIsLast` | internal/mdm/policy/merge.go:590-600 | the name that decides how a path is merged is what follows its last dot, white space around the path aside |
| `Text.LowerEach` | internal/mdm/policy/merge.go:283-307 | names are compared character by character with the capitals A to Z taken as small letters, and no other ASCII character changed |
| `Text.TrimmedParts` | internal/mdm/policy/merge.go:590-600 | trimming takes white space off both ends and nothing else |
| `Text.AsciiSpaces` | internal/mdm/policy/merge.go:590-600 | of ASCII, blank, tab, line and page breaks are white space |
| `JsonText.EncodeInjective` | internal/mdm/policy/merge.go:447-457 | comparing marshalled texts compares values: equal JSON texts come from equal values |
| `JsonText.RankDecides` | internal/mdm/policy/merge.go:434-445 | texts of values of different rank (string, number, array, false, null, true, object) are ordered by rank alone |
| `JsonGrammar.ListText` | internal/mdm/policy/merge.go:447-457 | the text of a list is the texts of its elements in brackets, with commas |
| `JsonGrammar.ObjectText` | internal/mdm/policy/merge.go:447-457 | the text of an object is its members in braces, with commas, in the order of their keys |
| `JsonGrammar.StringText` | internal/mdm/policy/merge.go:447-457 | the text of a string is its characters in quotes, as they are where none needs an escape |
| `Restrictive.PickCommutes` | internal/mdm/policy/merge.go:413-445 | the pairwise choice is commutative, returns one of its arguments, and makes the relation "wins" total |
| `Restrictive.WinsTransitive` | internal/mdm/policy/merge.go:413-445 | "wins" is transitive except for true, false and null together at a deny key |
| `Restrictive.FoldIsBest` | internal/mdm/policy/merge.go:401-411 | unless that triad is on top, the fold finds the one contribution that beats all others |
| `RestrictiveWins.NumbersMerge` | internal/mdm/policy/merge.go:306-326 | numbers: the greatest contribution if the name has a part `min_`, in capitals or not, else the smallest |
| `RestrictiveWins.BoolsMerge` | internal/mdm/policy/merge.go:282-304 | booleans: at a name that ends in `_disabled`, `_blocked` or `_denied`, in capitals or not, true if anyone says true; else true if nobody says false |
| `RestrictiveWins.StringsMerge` | internal/mdm/policy/merge.go:328-331 | strings: the first in dictionary order |
| `RestrictiveWins.StringListsMerge` | internal/mdm/policy/merge.go:333-384 | different lists of strings: all their strings, each once, in ascending order |
| `RestrictiveWins.OtherListsMerge` | internal/mdm/policy/merge.go:333-384 | lists of which some hold more than strings: the first if it does, or if all are the same, else the one whose text is least |
| `RestrictiveWins.KindsMerge` | internal/mdm/policy/merge.go:401-445 | different kinds: strings outrank numbers, numbers lists, and lists all else; of the foremost kind the one wins that would win alone |
| `RestrictiveWins.SwitchesMerge` | internal/mdm/policy/merge.go:413-445 | booleans, null and empty objects: which one wins, unless true, false and null meet at a deny name |
| `Merging.OrderIndependentIffConfluent` | internal/mdm/policy/merge.go:126-226 | the merged value is the same for every order of the contributions if and only if lists are settled and no triad decides |
| `Merging.ArraysDisagree` | internal/mdm/policy/merge.go:341-383 | for every unsettled choice of lists there are two orders with different results, because the scan stops at a non-string |
| `Merging.TriadDisagrees` | internal/mdm/policy/merge.go:413-445 | whenever the triad is on top at a deny key, two orders give different results |
| `Merging.GroupingIndependentIffComposable` | internal/mdm/policy/merge.go:126-226 | string lists only: every grouping of the contributions gives the same value if and only if no triad decides and lists meet other kinds only harmlessly |
| `Grouping.GroupingIndependentIff` | internal/mdm/policy/merge.go:126-226 | any contributions: merging in two groups equals merging at once, for every order and every cut, if and only if they group well; lists with other elements than strings must be the only sort of list, or beside a single string list that is least, or one list that sorts before every union of the string lists around it |
| `Paths.FlattenYieldsLeaves` | internal/mdm/policy/merge.go:99-124 | only scalars, arrays and empty objects reach the per-path table, so the object-merge branch (lines 205-219) is dead |
| `Paths.FlattenedIff` | internal/mdm/policy/merge.go:99-124 | any keys, with dots and empty ones: the contributions of a payload are exactly its leaves, each at the path its keys join to, except what ends up at the empty path |
| `Paths.FlattenReads` | internal/mdm/policy/merge.go:99-124 | for every prefix and dot-free keys: the sequence of values a subtree contributes to a path is the leaf it has there, once, or empty |
| `Rebuild.UnflattenReads` | internal/mdm/policy/merge.go:620-654 | the leaves of a rebuilt object are exactly the table's entries that no other path extends, each with its own value |
| `Rebuild.DeepestPathWins` | internal/mdm/policy/merge.go:620-654 | a path without extension reads back its value; one with an extension reads back as a non-empty object |
| `Rebuild.ExtensionsKeepObject` | internal/mdm/policy/merge.go:638-654 | a place that some written path passes through stays an object, whatever else is written |
| `Rebuild.UnflattenKeys` | internal/mdm/policy/merge.go:620-654 | rebuilt keys are dot-free, and the root has the empty key exactly if some path begins with a dot |
| `Effective.EffectiveReads` | internal/mdm/policy/merge.go:20-97 | the effective payload has the deepest contributed paths as its leaves, each with the merge of its own contributions |
| `Effective.SamePayloadIffSameMerge` | internal/mdm/policy/merge.go:20-97 | two tables give the same payload if and only if they merge alike at every shown path |
| `Effective.RoundTripIffAddressable` | internal/mdm/policy/merge.go:99-124 | a single profile's effective payload is the profile, nested `{}`, `[]` and null included, if and only if its keys are addressable |
| `Effective.MergingAgainChangesNothing` | internal/mdm/policy/merge.go:20-97 | merging an effective payload again changes nothing, if and only if no contributed path begins with a dot |
| `PolicyLaws.OrderDoesNotMatter` | internal/mdm/policy/merge.go:20-97 | any keys: confluent contributions at every shown path make the payload independent of the profiles' order |
| `PolicyLaws.PayloadOrderIndependentIff` | internal/mdm/policy/merge.go:20-97 | no profile contributing twice to a shown path: the payload is the same for all orders of the profiles if and only if the contributions to each shown path are confluent |
| `PolicyLaws.AddressableShownOnce` | internal/mdm/policy/merge.go:99-124 | keys without dots are enough for no profile to contribute twice to a shown path |
| `Reordering.AnyOrderIff` | internal/mdm/policy/merge.go:20-97 | any keys and lists, also where profiles contribute to a path more than once, unless true, false and null meet there at a deny key: the payload is the same for all orders of the profiles if and only if at each shown path whichever contributor comes first leads to the same list, and no triad decides |
| `PolicyLaws.TwoStagesIff` | internal/mdm/policy/merge.go:20-97 | payload of A++B equals the merge of the two effective payloads if and only if no path begins with a dot and shared paths compose |
| `PolicyLaws.TwoStagesSuffice` | internal/mdm/policy/merge.go:20-97 | any keys without a leading dot, any lists: contributions that group well at every shown path are enough, also when one group has `a` and the other `a.b` |
| `Staging.StagingIndependentIff` | internal/mdm/policy/merge.go:20-97 | no profile contributing twice to a shown path, any lists: two stages equal one for every order and every cut of the profiles if and only if no path begins with a dot and the contributions to each shown path group well |
| `ConflictFlags.FlagOrderIndependentIffSettled` | internal/mdm/policy/merge.go:522-538 | the conflict flag of a path is the same for every order if and only if all or none of the numbers is central, or lists are settled |
| `ConflictFlags.ToleranceFlagDependsOnOrder` | internal/mdm/policy/merge.go:522-538 | any three numbers on which tolerance is not transitive have an order that is flagged and one that is not |
| `ConflictOrder.ProfilesOrderIndependentIff` | internal/mdm/policy/merge.go:46-97 | any keys and values: the profiles reported as conflicting are the same for every order of the profiles if and only if every id is decided: none of its paths can be flagged, or some of them always hold a flagged one, whoever comes first |
| `ConflictOrder.ReportedAreConflictProfiles` | internal/mdm/policy/merge.go:46-97 | what the merge reports are those profiles |
| `Conflicts.UniqueBools` | internal/mdm/policy/merge.go:503-520 | the number of truth values that occur, for every list |
| `Conflicts.UniqueFloats` | internal/mdm/policy/merge.go:522-534 | the number of values that are near none kept before them; more than one if and only if some value is out of tolerance of the first |
| `Conflicts.UniqueStrings` | internal/mdm/policy/merge.go:540-546 | the number of different strings, for every list |
| `Conflicts.MergeBoolRestrictive` | internal/mdm/policy/merge.go:282-304 | whether anyone says true at names that end in one of the deny suffixes, and whether nobody says false elsewhere |
| `Conflicts.MergeNumericRestrictive` | internal/mdm/policy/merge.go:306-326 | the result is a contribution, the greatest for every name with a part `min_`, in capitals or not, and the least for every other |
| `Conflicts.MergeStringRestrictive` | internal/mdm/policy/merge.go:328-331 | the argument is sorted in place, and the least of the given strings is returned |
| `Conflicts.MergeArrayRestrictive` | internal/mdm/policy/merge.go:333-384 | effective list and conflict flag for any lists, with the scan that stops at the first non-string |
| `Conflicts.RestrictivePickMixed` | internal/mdm/policy/merge.go:401-411 | the loop computes the fold of the pairwise choice |
| `Conflicts.ConflictParticipants` | internal/mdm/policy/merge.go:484-501 | exactly the contributing profiles whose id is not nil |
| `Conflicts.MergeContributions` | internal/mdm/policy/merge.go:126-226 | value, participants, and the conflict flag, exactly: different kinds, true and false, a number not near the first, a string or list that differs from the first; the reported values as contributed, conflicting strings ascending |
| `Conflicts.ReportedIsPermutation` | internal/mdm/policy/merge.go:126-226 | the reported values are a permutation of the contributed ones |
| `MapHeap.Rebuilder.SetAtDottedPath` | internal/mdm/policy/merge.go:638-654 | one write through nested maps changed in place refines the functional write of the path |
| `MapHeap.WriteShows` | internal/mdm/policy/merge.go:638-654 | writing one key of a map reached along some keys shows at the root as a write along those keys, and nowhere else |
| `MapHeap.UnflattenLeaves` | internal/mdm/policy/merge.go:620-636 | writing all paths in sorted order builds the functional rebuild, and every object that was a leaf is the same map node as the one the rebuild shows at its path |
| `PolicyMerge.ContributionTable.FlattenContributions` | internal/mdm/policy/merge.go:99-124 | the recursion appends to the shared table exactly the payload's contributions, in order |
| `PolicyMerge.MergePaths` | internal/mdm/policy/merge.go:46-88 | one setting per path, one report per conflicting path with the contributing profiles and the contributed values, and the leaves to rebuild |
| `PolicyMerge.MergeAssignedPayloads` | internal/mdm/policy/merge.go:20-97 | fails exactly if an input with an id is not the text of an object or null, naming the first; else payload, settings, conflicts, conflict paths and profiles are those of the fields of the inputs with an id, in order; a single addressable payload comes back unchanged; a setting that is an empty object shares its map with the payload |
| `PolicyMerge.ShownValueDiffersIff` | internal/mdm/policy/merge.go:638-654 | a setting shows something other than its merged value if and only if that is an empty object and some path leads further down: the rebuild writes into the map the setting holds |
| `Assignments.Table.Reconcile` | internal/database/mdm_assignment_state.go:12-80 | reset-then-mark: assignments to the device or to a group it is in, of profiles whose platform has the same name but for blanks and capitals, get conflict or ok by their profile; all other rows and fields are unchanged; a failing statement or commit changes nothing |
| `Assignments.Table.ComputeMergedEffectivePolicy` | internal/api/device_effective_policy.go:73-90 | an in-scope assignment ends up marked if and only if its profile contributes to a flagged path; whatever fails, from the query to the commit, changes nothing |
| `Compliance.ObjectSurvives` | internal/mdm/policy/merge.go:620-654 | a non-empty object that any profile holds is a non-empty object in every merge |
| `Compliance.CriticalitySurvivesMerging` | internal/mdm/compliance/critical.go:9-52 | a non-empty object under a recognised control key makes the merged payload critical whatever other profiles hold |
| `Compliance.NamedControlSurvives` | internal/mdm/compliance/critical.go:9-52 | name by name: a non-empty object of any profile under it makes every merge critical |
| `Compliance.CriticalByName` | internal/mdm/compliance/critical.go:9-68 | a payload is critical exactly if one of the named controls holds a boolean, a number, text that is not blank, or a list or object that is not empty, of the kind it needs |
| `Criticality.CriticalByPlaces` | internal/mdm/compliance/critical.go:9-68 | a payload is critical if and only if one of the control places holds a value that is not effectively empty and of the sort that counts there |
| `Criticality.MergedEmptyIffBlank` | internal/mdm/policy/merge.go:126-226 | any contributions to a key that is not a deny key merge to something effectively empty if and only if they are blank: the least string is blank; or, without strings and numbers, the empty list wins among the lists; or, without lists too, null or empty objects are what is left over true and false |
| `Criticality.CriticalIff` | internal/mdm/compliance/critical.go:9-68 | any profiles: the merged payload is critical if and only if at some control place a contributed path leads further down, or the contributions to it are not blank and merge to the sort that counts |
| `Criticality.TwoProfilesCriticalIff` | internal/mdm/compliance/critical.go:9-68 | two profiles that set one root control to x and y: critical if and only if [x, y] is not blank |
| `Criticality.StringControlLostIff` | internal/mdm/compliance/critical.go:54-68 | two string controls: critical if and only if the lesser string is not blank |
| `Criticality.ListControlDependsOnOrderIff` | internal/mdm/policy/merge.go:341-383 | lists merge to the empty list in some orders only, if and only if the empty list is among them, some other list too, and all others sort after it |
| `Criticality.ListControlErasedByOrder` | internal/mdm/compliance/critical.go:54-68 | a list control that sorts after `[]` is kept in one order of two profiles and erased in the other |
| `Quarantine.Device.EvaluateAfterTelemetry` | internal/mdm/compliance/engine.go:28-124 | which status is stored, exactly, from the trimmed lower-cased state, what failed, whether critical controls may be concerned, and the status read; when nothing is stored; which reason; when quarantine is commanded, dispatched, marked as sent and flagged; for every outcome of the calls it makes |
| `Quarantine.EdgeTriggered` | internal/mdm/compliance/engine.go:96-121 | between two automatic commands some report stored another status, if the status could be read at the later one |
| `Quarantine.CommandedIff` | internal/mdm/compliance/engine.go:96-121 | one step: a report enqueues a command if and only if it calls for one and the device was not read to be non-compliant |
| `Quarantine.SecondCommandIff` | internal/mdm/compliance/engine.go:34-121 | after a command, while nothing but non-compliance is stored, a report commands again if and only if it calls for a command and the stored status could not be read |
| `Quarantine.MissedCommandStaysMissed` | internal/mdm/compliance/engine.go:96-121 | a command that could not be inserted is not enqueued later while the status stays non-compliant |
| `Alerts.AlertStore.UpsertUnresolvedAlert` | internal/database/alerting.go:326-455 | every field of the row after an insert, a reopening or a refresh; notifies exactly if the alert is new or reopened or was last notified the cooldown ago, an hour by default |
| `Alerts.AlertStore.ResolveActiveAlertsKindsForDevice` | internal/database/alerting.go:464-493 | afterwards the device has no open offline alert of either kind; exactly the returned rows changed, no metric alert and no row of another device among them; an error without a device |
| `Alerts.AlertStore.CloseAlertsKindsExcept` | internal/database/alerting.go:571-642 | closes exactly the kind's open alerts that are not desired; the empty-set statement agrees with the general one |
| `Lifecycle.NotificationCadence` | internal/database/alerting.go:353-454 | in every run two notifications for one fingerprint are a cooldown apart, or the alert was resolved in between |
| `Lifecycle.NotifiesIff` | internal/database/alerting.go:353-454 | every run: a report notifies exactly if no earlier report of the fingerprint is unresolved, or the last notification about it is at least the cooldown ago, an hour by default |
| `Lifecycle.OpenIffReported` | internal/database/alerting.go:326-642 | every run: an alert is open exactly if it was reported and not resolved since |
| `Lifecycle.ActiveIncidentIff` | internal/alerting/engine.go:435-472 | every run with hooks in order, manual resolutions, failed passes and cut-off hooks included, at any moment, per fingerprint: there is an active incident if and only if a critical report opened or refreshed one and no recovery queued since then got through for it; and never two |
| `Lifecycle.IncidentFollowsAlert` | internal/alerting/engine.go:89-112 | if the last critical report got through: open or resolved, the alert has an active incident if and only if no recovery queued since got through; an open critical alert has exactly one |
| `Lifecycle.HeartbeatLeavesIncident` | internal/alerting/engine.go:100-111 | every offline breach, its incident, and a heartbeat whose request returns before its recovery hook has run its statement: the alert is resolved, nothing waits, and the incident is active |
| `Lifecycle.DeliveredDecides` | internal/alerting/engine.go:435-472 | hooks run in any order and get through in part or not at all: a fingerprint has an active incident if and only if the last hook that got through for it opened one, and never two |
| `Lifecycle.ReorderingIsHarmlessIff` | internal/alerting/engine.go:435-472 | hooks run in any order: the incidents of a fingerprint are what the order of queueing would give, if and only if the last hook that got through for it is of the sort that was queued last among those that did |
| `Lifecycle.HooksAreConserved` | internal/alerting/engine.go:435-472 | in every run a queued hook waits or has run, exactly one of the two, and runs at most once |
| `Lifecycle.ExhaustedNumbersOpenNothing` | internal/database/migrations/000015_phase36_incidents_cmdb.sql:136 | once the seven-digit numbers are used up, a critical alert without a row opens no incident |
| `Lifecycle.CloseKeepsDesired` | internal/database/alerting.go:571-642 | one step: closing keeps the breaching alerts of the kinds it covers and touches no other kind |
| `Lifecycle.PassLeavesBreaching` | internal/alerting/engine.go:129-235 | after a pass the open alerts of a kind are breaching ones, and all of them if none was resolved meanwhile |
| `Incidents.OpeningActivates` | internal/database/incidents.go:77-160 | after the upsert the fingerprint has exactly one active incident, unless it is new and the numbers are used up; other fingerprints are untouched, the index stays unique |
| `Incidents.RecoveryDeactivates` | internal/database/incidents.go:163-203 | after recovery the fingerprints have no active incident, others are untouched |
| `Incidents.IncidentStore.UpsertIncident` | internal/database/incidents.go:37-160 | insert with the next number, or refresh of the one row of the fingerprint, which puts a resolved or closed one back in progress; due time, impact and urgency by severity; fails beyond number 9999999; a transaction that fails changes nothing but may use up a number |
| `Incidents.IncidentStore.AutoResolve` | internal/database/incidents.go:163-203 | active incidents of the fingerprints are resolved and get a note, closed ones stay; each fingerprint once, up to the first statement that fails; whether it reports success |
| `AlertEngine.Engine.OnHeartbeat` | internal/alerting/engine.go:89-112 | resolves the device's offline alerts and queues one recovery hook if there were any: one step of the run; whether the hook gets through, under a context that ends with the request, is a matter of its delivery |
| `AlertEngine.Engine.EvaluateBuiltinOffline` | internal/alerting/engine.go:129-196 | the watchdog's loop, whichever upsert or closing fails, is a run; if nothing fails, the open watchdog alerts are critical and those of the assets never seen or last seen more than 300 seconds ago |
| `AlertEngine.Engine.EvaluateDeviceRules` | internal/alerting/engine.go:198-377 | the rule loops, whichever upsert, listing of devices or closing fails, are a run; if nothing fails, a rule alert is open exactly if the device is targeted and its sample, or its silence, exceeds the threshold by the rule's operator, and is as severe as the rule |
| `AlertEngine.Engine.DeliverHook` | internal/alerting/engine.go:435-472 | whichever waiting hook runs, and wherever its statements begin to fail: one delivery step for the fingerprints it reached, and a number drawn in vain if an opening failed late |
| `AlertEngine.WatchdogPassIsExact` | internal/alerting/engine.go:129-196 | after an undisturbed watchdog pass exactly the offline assets have open watchdog alerts |
| `AlertEngine.RulePassIsExact` | internal/alerting/engine.go:198-377 | after an undisturbed rule pass the open alerts of both rule kinds are those of the breached conditions, except new ones that could not be written |
| `FileDownload.RunFsDownload` | internal/ws/agent_fs.go:112-166 | the read loop sends the file's stream, or one error if it cannot be opened, up to the first failed write, in chunks of the requested size, or of 256 KiB if none up to 1 MiB was requested |
| `FileDownload.StreamIsTheFile` | internal/ws/agent_fs.go:112-166 | for every sequence of reads up to the end: chunks concatenate to the file, with eof on the last and only there |
| `FileDownload.FailedReadIsAnnounced` | internal/ws/agent_fs.go:140-165 | a file that cannot be read to its end gives its bytes so far and exactly one, final, error: that of the read that failed |
| `FileDownload.WaitKeysDistinct` | internal/ws/fs_bridge.go:23-25 | waiters of different certificates or requests have different keys, if serials or request ids are free of the separator |
| `FileDownload.Hub.Deliver` | internal/ws/fs_bridge.go:100-149 | a message, undecodable frame or explicit end goes to its waiter, as the chunk it stands for, if there is one with fewer than 8 chunks waiting, and no other waiter notices |
| `FileDownload.DownloadFidelity` | internal/api/files.go:136-160 | file read to its end, every interleaving, the handler giving up at any time: a finished response is the file if and only if no send found the queue full; without drops it also finishes |
| `FileDownload.Handler.Serve` | internal/api/files.go:136-160 | the handler's loop and the hub's queue, in any interleaving with the agent's messages, go through the moves of the transfer that the theorems are about, and leave other waiters alone |
| `FileDownload.BrokenDownload` | internal/api/files.go:136-160 | file that cannot be read to its end, every interleaving: the response never finishes, it is a prefix of the bytes read while nothing was lost, and without drops exactly these bytes |
| `FileDownload.EndLooksComplete` | internal/api/files.go:136-160 | an observation, from what the handler's return can tell: after an error or a timeout the client sees what it would see of a complete download of just those bytes |
| `FileDownload.LossGoesUnnoticedIff` | internal/ws/fs_bridge.go:144-149 | some interleaving ends as a finished response that is not the file if and only if the stream has more than nine messages |
| `FileUpload.UploadState.Handle` | internal/ws/agent_fs.go:242-304 | each command handler is one step of the session machine; what it answers, and which sessions are open afterwards |
| `FileUpload.UploadState.AppendChunk` | internal/ws/agent_fs.go:195-211 | bytes are written before they are counted; a chunk is refused if it is short or over the limit |
| `FileUpload.FinishedUploadIsOwnChunks` | internal/ws/agent_fs.go:170-238 | every interleaving, shared paths included: a finished session wrote at most 512 MiB and is gone; its file is its own chunks in order if and only if these are what the last writes to the path left since it was emptied last; in particular if no other session wrote there, or was begun there after the first byte |
| `FileUpload.FileByLastWrites` | internal/ws/agent_fs.go:178-211 | every run, any sharing of paths: a file holds, byte by byte, what the last write covering each place put there since a session on the path was begun last |
| `FileUpload.SharedPathLosesBytes` | internal/ws/agent_fs.go:242-275 | a second session on the same path empties the file of a first that is then reported as finished |
| `FileUpload.FailedSessionIsGone` | internal/ws/agent_fs.go:261-304 | a session that was told of a failure, finished or aborted is in neither table; a step keeps both tables on the same sessions |
| `FileUpload.TablesAgree` | internal/ws/agent_fs.go:170-238 | both tables hold the same sessions after every run |
| `FileUpload.SizeRefusal` | internal/ws/agent_fs.go:195-211 | whatever other sessions do, on the same path too: a chunk is refused for its size if and only if it takes the session over the limit |
| `FileUpload.ServeUpload` | internal/api/files.go:204-257 | what is sent is a prefix of the body within the limit; the upload is finished if and only if the body ends within it |
| `FileUpload.ServedChunksAreKept` | internal/api/files.go:204-257 | no chunk the server sends on is refused by the agent for its size, in any interleaving with other sessions, on the same path too |
| `DashboardHub.QueueSafety` | internal/ws/dash_hub.go:46-67 | every interleaving, where a broadcast picks a client and sends to it in separate steps: no send on a closed queue, closed exactly when the session has finished and once, depth at most 64, nothing reordered |
| `DashboardHub.EachBroadcastOnce` | internal/ws/dash_hub.go:57-67 | a broadcast enters a queue at most once, and when it returns it was offered exactly once to each client listed at its start |
| `DashboardHub.AudienceIsFixed` | internal/ws/dash_hub.go:57-67 | the clients a broadcast serves are fixed when it takes the lock |
| `DashboardHub.UnlistedIsSilent` | internal/ws/dash_session.go:41-48 | once a session has left the list nothing more enters its queue, in any continuation |
| `DashboardHub.DroppedOnlyIfFull` | internal/ws/dash_hub.go:57-67 | every run: a message is dropped only if 64 wait in the queue, and enters it only if fewer do |
| `DashboardHub.PickedIsServing` | internal/ws/dash_hub.go:57-67 | a picked client still serves with its queue open when the broadcast sends, because its session cannot take the lock |
| `DashboardHub.WithoutLockPanics` | internal/ws/dash_hub.go:46-67 | whenever a client is picked, the session's leaving is disabled and the send is safe; without the lock the session overtakes and the send panics |
| `DashboardHub.UnlockedHubHasPanickingRun` | internal/ws/dash_hub.go:46-67 | a hub without the lock has a panicking run from the start, for every client and broadcast |
| `DashboardHub.CloseFirstPanics` | internal/ws/dash_hub.go:46-54 | with the lock but closing before leaving the list: every broadcast still to visit the client has a panicking continuation |
| `DashboardHub.EverySessionCanFinish` | internal/ws/dash_hub.go:33-67 | no deadlock: from every reachable state every session can be brought to its end with its queue closed |
| `DashboardHub.Hub.Register` | internal/ws/dash_hub.go:33-44 | the client is listed with an empty queue; three steps of the machine |
| `DashboardHub.Hub.Unregister` | internal/ws/dash_hub.go:46-54 | the client is unlisted and its queue closed; three steps of the machine |
| `DashboardHub.Hub.Broadcast` | internal/ws/dash_hub.go:57-67 | every listed client is offered the message once, which enters its queue if fewer than 64 wait there and is dropped else; the others are untouched; a run of the machine |
| `DashboardHub.Hub.ReplyJson` | internal/ws/dash_session.go:232-241 | the session's message enters its own queue if fewer than 64 wait there, and is dropped else; one step of the machine |
| `Enrollment.OneSuccessPerToken` | internal/auth/enrollment_service.go:65-94 | any number of concurrent attempts failing anywhere: two successes with one token are the same attempt |
| `Enrollment.SuccessIsFinal` | internal/auth/enrollment_service.go:65-94 | after a success the token stays used in every continuation |
| `Enrollment.ReleaseFreesOnlyItsOwn` | internal/auth/enrollment_store.go:75-92 | a release changes no row but that of the attempt that releases, and nobody else holds that one |
| `Enrollment.RetryIffReleased` | internal/auth/enrollment_service.go:76-90 | after a failure the secret can be claimed again if and only if the release took effect and the token has not expired |
| `Enrollment.CancelledRequestLosesToken` | internal/auth/enrollment_service.go:76-82 | a request cancelled between claim and signature leaves its token used for good, its claim the last one that took effect, and it enrolls nobody |
| `Enrollment.UsedForNothingIff` | internal/auth/enrollment_service.go:65-94 | every run: a token is used although nobody enrolled with it or still might, if and only if the last claim of it that took effect was not followed by a release that did, and its attempt has failed |
| `Enrollment.UsedForNothingIsFinal` | internal/auth/enrollment_store.go:50-92 | such a token stays so in every continuation |
| `Enrollment.CertificatesPerToken` | internal/auth/enrollment_service.go:76-94 | certificates signed for a token: the undeliverable ones, and at most one more |
| `Enrollment.ClientErrorsTouchNoToken` | internal/auth/enrollment_service.go:97-112 | 400 and 401 leave every token as it was; 401 exactly when no unused, unexpired token has the hash |
| `Enrollment.TokenStore.ClaimByPresentationHash` | internal/auth/enrollment_store.go:50-71 | marks the one claimable row with the hash or reports that there is none, also when the answer is lost |
| `Enrollment.TokenStore.ReleaseClaim` | internal/auth/enrollment_store.go:75-92 | clears the row's used flag; succeeds exactly if one used row was updated |
| `Enrollment.Coordinator.ProcessEnroll` | internal/auth/enrollment_service.go:41-95 | an undisturbed call under every combination of faults is a run of the machine by one attempt; when it succeeds, which error it reports, and which token row stays used |
| `Enrollment.Coordinator.Enroll` | internal/auth/enrollment_service.go:97-112 | the status the client gets: 200 exactly for a certificate that was signed and delivered, 400 exactly for a bad CSR, 401 exactly for a good request without a claimable token, 502 for all else |
| `AssetIdentity.NewIdIsAboveAll` | internal/api/telemetry.go:265-278 | `arx-c-N` printed from max+1 parses back to it and exceeds every number in use, leading zeros included |
| `AssetIdentity.StoredIsTheOnlyOne` | internal/api/telemetry.go:237-309 | one step: after a stored report its certificate and its hostname name that asset and no other; no other row changed |
| `AssetIdentity.WhenReportsFail` | internal/api/telemetry.go:237-309 | one step: a report fails exactly if certificate and hostname are known on different assets, or the numbers are used up; nothing changes then |
| `AssetIdentity.CertificateChangesByTakeover` | internal/api/telemetry.go:250-264 | one step: an asset's certificate changes if and only if an unknown certificate reports its hostname |
| `AssetIdentity.CertificateStays` | internal/api/telemetry.go:237-309 | over every run an asset keeps its certificate until such a takeover |
| `AssetIdentity.IdentitiesStayUnique` | internal/api/telemetry.go:200-310 | certificates, hostnames and human ids stay unique over every run |
| `AssetIdentity.HumanIdNeverChanges` | internal/api/telemetry.go:292-309 | over every run no asset changes its human id or disappears |
| `AssetIdentity.NewNumbersIncrease` | internal/api/telemetry.go:265-290 | over every run each new asset is numbered above all before it |
| `AssetIdentity.AssetTable.UpsertAssetFromTelemetry` | internal/api/telemetry.go:200-310 | the row of the certificate, else that of the hostname, gets the report unless another row has the hostname; else a row is added, numbered one above the largest `arx-c-N`, unless that is the largest bigint |
| `DeviceMetrics.InsertDeviceMetric` | internal/database/device_metrics.go:22-45 | what each clamp stores, exactly; stored rows are percentages and sizes within their totals; sound rows are stored unchanged |
| `DeviceMetrics.WindowFitsPoints` | internal/database/device_metrics.go:76-85 | for every requested hour count the window is at most 360 buckets long |
| `DeviceMetrics.AtMost361Buckets` | internal/database/device_metrics.go:76-100 | every hour count and every set of samples in the window: at most 361 buckets |
| `DeviceMetrics.EndsAre360Apart` | internal/database/device_metrics.go:76-100 | from six hours on the first and last bucket of the window are 360 apart at every moment, so the bound is met |
| `DeviceMetrics.ClampsAreIdle` | internal/database/device_metrics.go:112-121 | averages over stored rows already lie in 0..100, so the clamps of the reader change nothing |
| `DeviceMetrics.LoadDeviceMetricHistory` | internal/database/device_metrics.go:71-126 | hours and bucket size; every point is the averages of the rows in its bucket, by sums and counts, rows without a memory total not counted for memory; every row of the window is in a point; ascending, at most 361; and the disk of the latest row |

## Left out

- JSON text is decoded by the standard library; profiles enter as values. Numbers are canonical decimals of any size: a `float64` is identified with its shortest decimal, and negative zero with zero.
- Strings are sequences of characters; `ToLower` is exact for ASCII only, and sorting compares characters where Go compares bytes.
- Conflicts.ConflictParticipants: profile names are not modelled, nor the sorting of participants by lower-cased name; the array forms of `uniqueNormalizedValues` are display only.
- Merging two non-empty objects at one path (merge.go lines 205-219 and 386-399) is not modelled: `Paths.FlattenYieldsLeaves` proves that it cannot happen.
- Staging.StagingIndependentIff: for a profile that contributes twice to a shown path, which takes a key with a dot, only the condition for a given cut in `PolicyLaws.TwoStagesIff` is exact.
- Reordering.AnyOrderIff: no closed condition is given for a profile that contributes more than once to a path at which true, false and null meet at a deny key with nothing above them; `PolicyLaws.OrderDoesNotMatter` stays sufficient there.
- Lifecycle.ActiveIncidentIff: an alert write and the queueing of its hook are one step, and a hook runs in one step; its statements are each about one fingerprint, so for any one of them that step is the statement about it.
- Alert messages and details, the trimming and length cap of titles and messages, work-note texts, incident editing by operators, and delivery of notifications by mail or webhook.
- SQL transactions and single statements are atomic steps on tables. Unique constraints are those of `internal/database/migrations`: on assets and enrollment tokens in 000001_initial.sql, on alert fingerprints in 000013_phase24_alert_engine.sql, on incident fingerprints and the format of incident numbers in 000015_phase36_incidents_cmdb.sql. UUIDs are numbers, the nil UUID is 0.
- Quarantine.EdgeTriggered: evaluations of one asset are serialised; two that overlap may both enqueue a command.
- Timeouts of the download and upload requests appear as the loops ending early or not at all; base64 and JSON framing of chunks are taken as lossless.
- The agent-side hub's own registration and dispatch, which sends after it has released its lock.
- Goroutine scheduling is any interleaving of the listed steps; that a waiting writer blocks new readers of the lock is not modelled and not needed.
- CSR parsing, certificate signing and SHA-256 are parameters: whether a CSR is valid, whether signing succeeds, and a hash taken as injective. `EnrollmentTokenUnusedValid` is a read-only query.
- AssetIdentity.AssetTable.UpsertAssetFromTelemetry: display name, OS type, metadata and last-seen columns are not modelled, nor failing database calls, which roll back and change nothing.
- Rounding of averages in `float8`; samples stamped later than the server's clock.
- HTTP routing, authentication, TLS, the web interface, mobile bindings, backups, package managers and device command status.
