# Contracts verification

A Dafny model of the densest logic of the architecture-context repository, with proofs of what it promises.
`dafny verify dfyconfig.toml` checks everything.

## What is modelled

**Values.** `JsonText` has text as UTF-16 code units, its UTF-8 encoding (section 3 of RFC 3629, lone surrogates replaced)
and the compact JSON text (sections 3 to 7 of RFC 8259). `PrettyJson` has the indented text and `CanonicalJson` the text with
sorted keys. `JsHeap` has runtime values: primitives, and references into a heap of lists and records that may be shared or
cyclic, with prototypes, accessors, symbol keys, holes and non-enumerable properties. `Denotes` says which JSON value a heap
value is as plain own data; `JsAllocation` puts a JSON value into a fresh heap. An exception is an absent result.

**Native model validator.** `NativeJsonWalk` is the depth-first walk with its explicit stack, exit markers and two sets, over any
heap; `NativeJsonData` ties it to JSON data. `ParentChains` and `NativeParents` are the memoised parent walk. `NativeReferences` is reference closure over selectors,
relations and flows: each phase returns exactly the listed issues, and none exactly when the model is closed.

**Runtime topology.** `RuntimeTopology` is the checker with its loops and its sort; `TopologyReport` says what the report means.

**Recovery payloads.** `JsonDataCopy` is the budgeted copy with its running byte counter, `ProjectionRecovery` and
`ChangeSetRecovery` the producers and validators around it.

**Closed failure contract.** `FailureModel` has the policy table, a parameter of every result; each rule of the source is a
constructor and each of its regular expressions and enumerations a predicate on texts. `PlainPolicies`, `FactPolicies`,
`NativeCollection`, `NativeFitting`, `NativeConservation`, `NativeDiagnostics` and `NativeFixedPoint` are the three ways of taking
details, and `FieldOrder`, `PathBehindCounters`, `ReversedCounters` and `NativeOrder` are about the order of native fields.
`PolicyDetails` puts the three together and `DetailsBudget` is the shape budget. `FailureContract`, `FailureReview` and
`FailureSurface` are the cycle of making, reading back, reviewing and enveloping a failure. They use of a policy only what taking
details promises (`FailureContract.Lawful`); `RealContract` proves those promises for every well-formed table, and `FailureTable`
instantiates the table with policies of every kind. `NativeTurns` says when fitting succeeds and `FittedPrefix` what it leaves;
`DetailsAccepted`, `DetailsKept` and `DetailsTaken` say exactly which details are taken and what they are, `CallOutcome` and
`FailureCalls` which calls answer, and with which failure. `FactBudget` and `CommandLimits` say exactly which fact details become a
failure.

**Independent algorithms.** `BlobBatch` (batch frame reader), `Calibration` (Brier score and calibration error over exact reals),
`OrderedSubsequence` (greedy scan), `RunnerIdentity` (status machine) and `ReadPlan` (canonical read plan).

## What the proofs turned up

- `knownFailure` is a fixed point except for the order of native fields: read back, the omission counters come last, the count
  before the characters. Fitting leaves another order in two ways: the `path` is summarised again at a turn after one that wrote
  a counter, or the characters are written a turn before the count, because the caller counted characters
  but no omission and one more was needed to fit (`FieldOrder.FitOrderIff`: these two and no other; `NativeOrder.PathReordered`
  and `NativeOrder.CountersReordered` have an input for each). Sizes, issues and canonical text never notice.
- A rule for long texts lengthens the string budget only when it is declared without the `optional:` prefix. The table declares
  the rule `diagnosticCommands` with that prefix only, so of its 1024 bytes a failure carries 256: a command of 257 to 1024
  bytes meets the rule and the whole failure is refused (`CommandLimits.OptionalListIff`, `CommandLimits.LongCommandRefused`).
  The rule `commandSuggestion` is declared without it, and there the 1024 bytes hold (`CommandLimits.DecisionIff`).
- `isOrderedSubsequence` answers false when both lists are empty, and true for an empty requirement with any command.
- A `parent-cycle` issue is put on the first node in model order whose chain reaches the cycle, which can be a tail leading into
  it (`NativeParents.ParentIssues`).

## Model

| member | source | states |
|---|---|---|
| NativeJsonWalk.JsonWalk | packages/contracts/src/native-context.ts:189-205 | Flags nothing exactly when everything reachable is plain, finite and on no cycle; a flag names the path of a value that really breaks its rule, so a shared value is never a cycle; each object is expanded at most once, and on success every reachable one is |
| NativeJsonWalk.Visit | packages/contracts/src/native-context.ts:194-204 | One popped entry: a flag is witnessed by a real path, and otherwise stack, active set and done set still describe one depth-first walk |
| NativeJsonWalk.ActiveOnCycle | packages/contracts/src/native-context.ts:199-199 | Meeting an active object again closes a cycle of the object graph |
| NativeJsonWalk.FinishedSafe | packages/contracts/src/native-context.ts:196-200 | Objects left by the walk reach no cycle, no foreign prototype and no infinite number |
| NativeJsonData.ChildrenIff | packages/contracts/src/native-context.ts:204-204 | The entries of an object are exactly its own enumerable string-keyed properties, a list's elements under their indices included; an accessor counts by what it gives |
| NativeJsonData.DataIsSafe | packages/contracts/src/native-context.ts:189-205 | Plain JSON data whose objects all have the plain prototype is never flagged |
| NativeJsonData.SafeIsData | packages/contracts/src/native-context.ts:186-206 | A record made of own data alone that is not flagged is JSON data: some JSON value is exactly what it denotes |
| NativeParents.ParentIssues | packages/contracts/src/native-context.ts:223-239 | With unique ids: one parent-cycle per cycle of the parent function, put on the first node in model order whose chain reaches it, one parent-node-missing per dangling node, nothing else, in at most two loop steps per node |
| NativeParents.WalkChain | packages/contracts/src/native-context.ts:226-238 | One chain walk keeps the report exact for the nodes checked so far, puts a new cycle on the node it started from, and takes at most one step more than it has new nodes |
| NativeParents.ReportsNothingIffForest | packages/contracts/src/native-context.ts:223-239 | The walk reports nothing exactly when every chain ends at a parentless node |
| NativeParents.PlainWalkIff | packages/contracts/src/native-context.ts:225-237 | The same walk without the checked set accepts a node exactly when its chain ends at a root |
| NativeParents.MemoAcceptsLikePlain | packages/contracts/src/native-context.ts:223-239 | The memoised walk accepts exactly the models the unmemoised walk accepts |
| ParentChains.CycleNeverEnds | packages/contracts/src/native-context.ts:228-237 | A chain that reaches a cycle never ends |
| NativeReferences.ReferenceIssues | packages/contracts/src/native-context.ts:223-290 | The report is, phase by phase and in order, the parent report, one issue per unsafe path and repeated selector, one per missing relation end, the topology report, and the findings of every flow |
| NativeReferences.NoIssuesIffClosed | packages/contracts/src/native-context.ts:223-290 | That report is empty exactly when the model is reference-closed: parents form a forest, paths are safe, selectors distinct, relation and participant nodes exist, topology is valid, and every required flow is closed |
| NativeReferences.SelectorIssues | packages/contracts/src/native-context.ts:240-255 | Collects exactly the declared selectors; the issues added are, in order, one per unsafe path and one per selector an earlier sink has |
| NativeReferences.SitesQuiet | packages/contracts/src/native-context.ts:240-255 | No such issue exactly when all paths are safe and no selector is declared twice |
| NativeReferences.RelationNodeIssues | packages/contracts/src/native-context.ts:256-258 | The issues added are, in order, one per end of a relation that is given and names no node |
| NativeReferences.FlowIssues | packages/contracts/src/native-context.ts:263-289 | The issues added are exactly the flow's: its capability, then participants, outcomes and steps where it is required |
| NativeReferences.FlowQuiet | packages/contracts/src/native-context.ts:263-289 | A flow has no issue exactly when it is closed over participants, outcomes, steps and evidence |
| NativeReferences.ParticipantIssues | packages/contracts/src/native-context.ts:266-272 | Collects exactly the participant ids; one issue per repeated id and one per missing node, in order |
| NativeReferences.OutcomeIssues | packages/contracts/src/native-context.ts:274-280 | One issue per repeated outcome id and one per undeclared terminal participant, in order |
| NativeReferences.StepIssues | packages/contracts/src/native-context.ts:281-288 | One issue per step with an undeclared end, one per step that differs from the last step of its id, one per undeclared selector, in order |
| NativeReferences.RedefinitionsFound | packages/contracts/src/native-context.ts:283-285 | Comparing each step with the last of its id, as the overwritten map does, finds no difference exactly when all steps of an id agree pairwise |
| NativeReferences.SelectorKeyInjective | packages/contracts/src/native-context.ts:249-249 | Two selectors have one key only if they are the same selector |
| NativeReferences.DefinitionInjective | packages/contracts/src/native-context.ts:283-284 | Two steps have one canonical definition only if they are the same step |
| NativeReferences.EvidenceNamesOneSink | packages/contracts/src/native-context.ts:286-287 | In a closed model each step's evidence is one declared sink, at one place among all nodes |
| NativeReferences.QuietParentsQuietNesting | packages/contracts/src/native-context.ts:223-262 | When the parent walk reports nothing, the topology checker reports no missing namespace parent and no namespace cycle |
| RuntimeTopology.RuntimeTopologyIssues | packages/contracts/src/runtime-topology.ts:55-111 | The report is ordered by its three keys and is, as a bag, exactly the expected issues |
| RuntimeTopology.CollectRelations | packages/contracts/src/runtime-topology.ts:61-81 | Reports exactly the endpoint issues and groups exactly the valid placements by process and by mount |
| RuntimeTopology.EndpointsIff | packages/contracts/src/runtime-topology.ts:61-81 | A relation has no endpoint issue exactly when both ends name nodes of the kinds its own kind asks for |
| RuntimeTopology.MarkAmbiguous | packages/contracts/src/runtime-topology.ts:82-87 | Marks exactly the keys with two different partners |
| RuntimeTopology.ChainRepeats | packages/contracts/src/runtime-topology.ts:99-108 | The chain walk meets a namespace twice exactly when the namespace chain never ends |
| RuntimeTopology.NamespaceIssue | packages/contracts/src/runtime-topology.ts:88-109 | Finds exactly the fault of one namespace: parent missing, of another kind, or endless |
| RuntimeTopology.IssueOrder | packages/contracts/src/runtime-topology.ts:110-115 | The three-key comparison is total and tells any two different issues apart |
| TopologyReport.ReorderedReport | packages/contracts/src/runtime-topology.ts:55-111 | With distinct ids the report is the same sequence under any reordering of nodes and relations |
| TopologyReport.EmptyIffValid | packages/contracts/src/runtime-topology.ts:55-110 | The report is empty exactly when endpoints are valid, every process runs in at most one namespace, every mount has at most one mounter and every namespace chain ends at a parentless namespace |
| TopologyReport.CycleIssueIffEndless | packages/contracts/src/runtime-topology.ts:88-109 | A cycle issue is reported for exactly the namespaces whose chain of namespaces never ends, tails leading into a cycle included |
| TopologyReport.NamespaceIssueReported | packages/contracts/src/runtime-topology.ts:88-109 | Each namespace fault is reported once, under that namespace's id |
| JsonDataCopy.JsonDataCopy | packages/contracts/src/projection-recovery.ts:13-49 | Returns j exactly when the input is plain own data denoting j, nested no deeper than 16, whose compact UTF-8 text is at most the maximum |
| JsonDataCopy.DataCopier.Copy | packages/contracts/src/projection-recovery.ts:16-47 | The running counter grows by exactly the byte size of what was copied, and the early abort refuses only what would not have fitted |
| JsonDataCopy.DataCopier.CopyElements | packages/contracts/src/projection-recovery.ts:35-37 | A list's items and separators are counted exactly, stopping only when the whole list would not fit |
| JsonDataCopy.DataCopier.CopyEntries | packages/contracts/src/projection-recovery.ts:39-46 | A record's keys, colons, separators and values are counted exactly |
| JsonDataCopy.CopyIff | packages/contracts/src/projection-recovery.ts:16-47 | The unbudgeted copy succeeds exactly on plain data within the depth limit, and means the same |
| JsonFacts.SizeIsSum | packages/contracts/src/projection-recovery.ts:9-9 | The UTF-8 size of a list's or record's compact text is its brackets, separators and the sizes of its parts, surrogates included |
| JsonReadability.StringifyInjective | packages/contracts/src/projection-recovery.ts:19-19 | Two JSON values with the same compact text are the same value |
| ProjectionRecovery.ProjectionRecoveryDetailsSnapshot | packages/contracts/src/projection-recovery.ts:88-111 | Returns j exactly when the input is plain bounded data j that meets the closed rules of its reason |
| ProjectionRecovery.DigestIff | packages/contracts/src/projection-recovery.ts:10-10 | A digest is sha256: and 64 lower-case hexadecimal digits |
| ProjectionRecovery.RequestIdIff | packages/contracts/src/projection-recovery.ts:97-97 | A request id is well formed exactly when it is letters, digits, underscores, dots, colons and hyphens, and not empty |
| ProjectionRecovery.KnownReasons | packages/contracts/src/projection-recovery.ts:89-92 | Details are valid for the four reasons only, and only records are |
| ProjectionRecovery.CommittedIff | packages/contracts/src/projection-recovery.ts:88-111 | Committed details are valid exactly when they are the fields of that form, each as the form asks |
| ProjectionRecovery.ManualIff | packages/contracts/src/projection-recovery.ts:88-111 | Manual-only details are valid exactly when they are the fields of that form, each as the form asks |
| ProjectionRecovery.FitCoversEveryBranch | packages/contracts/src/projection-recovery.ts:67-73 | The fit test holds exactly when all three written branches fit |
| ProjectionRecovery.FitPassesEveryBranch | packages/contracts/src/projection-recovery.ts:57-111 | A sound receipt that fits passes the snapshot unchanged in all three branches |
| ProjectionRecovery.CommittedPassesSnapshot | packages/contracts/src/projection-recovery.ts:57-65 | Committed details pass unchanged exactly when the receipt is sound and they fit |
| ProjectionRecovery.ManualOnlyFits | packages/contracts/src/projection-recovery.ts:76-85 | Manual-only details fit for digest-form identities and any request id |
| ProjectionRecovery.ManualOnlyPassesSnapshot | packages/contracts/src/projection-recovery.ts:76-111 | Manual-only details pass unchanged exactly when identities are digests and the request id is well formed or was too long to include |
| ChangeSetRecovery.ProducedPassesSnapshot | packages/contracts/src/changeset-recovery.ts:31-49 | What the producer returns, whole or by reference, passes the snapshot unchanged |
| ChangeSetRecovery.SnapshotIdempotent | packages/contracts/src/changeset-recovery.ts:37-49 | The snapshot of a snapshot is itself |
| ChangeSetRecovery.SnapshotForm | packages/contracts/src/changeset-recovery.ts:37-49 | Whatever passes is whole authority within the budget or a digest-form reference |
| ChangeSetRecovery.FormFits | packages/contracts/src/changeset-recovery.ts:31-36 | Either form is within the recovery budget |
| ChangeSetRecovery.ProducedIs | packages/contracts/src/changeset-recovery.ts:31-36 | The producer returns the whole authority when that is within the budget, and otherwise a reference with count and digest |
| ChangeSetRecovery.JournalIff | packages/contracts/src/changeset-recovery.ts:10-28 | A journal is taken exactly from a closed plain record of four own data strings, and as these |
| ChangeSetRecovery.JournalsIff | packages/contracts/src/changeset-recovery.ts:15-29 | A list of journals is taken exactly when it is dense own data and every element is taken |
| ChangeSetRecovery.DetailsSnapshotIff | packages/contracts/src/changeset-recovery.ts:37-49 | Accepted is exactly the whole authority within its budget, or a complete reference to it |
| ChangeSetRecovery.JournalsReadback | packages/contracts/src/changeset-recovery.ts:15-29 | Plain journals of four strings are read back as themselves |
| PlainPolicies.DetailsFor | packages/contracts/src/failure.ts:349-371 | The loop over the caller's fields computes the fold that the following rows constrain |
| PlainPolicies.PlainConserves | packages/contracts/src/failure.ts:354-369 | Every field is kept or counted, on top of what the caller says was dropped before |
| PlainPolicies.FactIff | packages/contracts/src/failure.ts:328-348 | A field is kept only in its closed form, and plain data of that form is kept as itself |
| PlainPolicies.PlainAgain | packages/contracts/src/failure.ts:349-371 | Plain details taken from plain details are the same details |
| DetailsAccepted.PlainIff | packages/contracts/src/failure.ts:354-368 | Plain details are taken exactly from a record without critical keys and without objects, but for lists of checks where the policy has them |
| DetailsKept.PlainCollects | packages/contracts/src/failure.ts:361-364 | The facts kept are those of the fields that are named by the policy, or the stage, and have their closed form, in the order of the fields |
| DetailsAccepted.PlainBooks | packages/contracts/src/failure.ts:369-370 | The details are the kept facts and the count of all others, capped at 1000000 and left out for an unclassified failure |
| DetailsAccepted.ChecksExact | packages/contracts/src/failure.ts:331-342 | A list of checks is at most 32 own data strings, each ownership or anchors, taken as they are |
| FactPolicies.LocalFactsFor | packages/contracts/src/failure.ts:498-514 | The two loops compute the details that the following rows constrain |
| FactPolicies.DeclaredSelects | packages/contracts/src/failure.ts:501-505 | Under each declared key stands the caller's value by that key's rule, absent only where optional, and nothing else is declared |
| FactPolicies.RuleValueForm | packages/contracts/src/failure.ts:438-497 | What a rule lets through keeps to its form |
| FactPolicies.RuleValueAgain | packages/contracts/src/failure.ts:438-497 | Plain data of a rule's form passes as itself |
| DetailsAccepted.RuleValueIff | packages/contracts/src/failure.ts:438-497 | A fact is taken exactly when it meets its rule, elements and byte limits included, and it is taken as it is, a pair in the order of its rule |
| FactPolicies.FactsAgain | packages/contracts/src/failure.ts:498-514 | Fact details taken from fact details of at most 16 fields are the same details, in schema order |
| DetailsAccepted.FactsIff | packages/contracts/src/failure.ts:498-511 | Fact details are taken exactly when every declared fact meets its rule and every other field is an earlier count or neither critical nor an object |
| DetailsAccepted.FactsBooks | packages/contracts/src/failure.ts:506-513 | The details are the declared facts and the count of the undeclared fields, earlier counts carried over and capped at 1000000 |
| DetailsKept.DeclaredCollects | packages/contracts/src/failure.ts:500-505 | The declared facts stand in the order of the schema, each as its rule takes it |
| NativeCollection.CollectFields | packages/contracts/src/failure.ts:648-685 | The loop over the caller's fields computes the draft that the following rows constrain |
| NativeCollection.CollectList | packages/contracts/src/failure.ts:670-684 | The loop over a list computes the fold that the following rows constrain |
| NativeCollection.ListKeeps | packages/contracts/src/failure.ts:677-684 | Kept items are unaltered entries among the first 32, in their order; a marker lists its kind before its range |
| NativeCollection.ListConserves | packages/contracts/src/failure.ts:677-684 | Every list entry is kept or counted |
| NativeCollection.NativeConserves | packages/contracts/src/failure.ts:648-685 | Entries and fields kept plus the count equal what the caller gave, previous counts carried over |
| NativeCollection.NativeLetters | packages/contracts/src/failure.ts:628-633 | The characters of kept and dropped fields are all accounted for; entries past the limit are never read |
| NativeCollection.NativeForms | packages/contracts/src/failure.ts:634-685 | Collected fields have distinct keys and keep to the form of their rule |
| DetailsAccepted.NativeFoldIff | packages/contracts/src/failure.ts:648-685 | Native fields are taken exactly when each is what its rule takes, and outside the rules neither critical nor an object |
| DetailsAccepted.ItemIff | packages/contracts/src/failure.ts:634-647 | An item is taken exactly when it has the closed shape of its rule, and kept exactly when all its strings are at most 256 bytes |
| DetailsKept.ListCollects | packages/contracts/src/failure.ts:677-684 | Of a list exactly the entries among the first 32 whose strings are at most 256 bytes are kept, in their order |
| DetailsKept.NativeCollects | packages/contracts/src/failure.ts:648-685 | The fields kept are exactly the counts, the diagnostics of at most 256 bytes and the lists, in the order given |
| NativeFitting.FitDecreases | packages/contracts/src/failure.ts:694-714 | Each turn lowers the pair (list entries, strings), although the summary can put path back |
| NativeFitting.FitBudget | packages/contracts/src/failure.ts:707-715 | The loop terminates on that pair and computes the fitted details |
| NativeTurns.FitIsFirst | packages/contracts/src/failure.ts:707-714 | Fitting returns the record of the first turn at which both sizes are at most 8192 bytes, so nothing is dropped once it fits, and it fails exactly when there is no such turn |
| NativeTurns.TurnsEnd | packages/contracts/src/failure.ts:689-714 | There is a next turn, with one more omission counted, unless a counter is no safe integer or no list entry and no string is left |
| FittedPrefix.ShrinkTakesLast | packages/contracts/src/failure.ts:708-713 | One omission takes the last entry of the last list that has one, or, without any, the last string |
| FittedPrefix.FitPrefix | packages/contracts/src/failure.ts:707-714 | The entries left are the first of those collected, read list after list, and so are the strings left; no string goes while an entry is left |
| NativeTurns.NativeIff | packages/contracts/src/failure.ts:625-716 | Native details are taken exactly from a plain record of at most 16 fields, each what its rule takes, at some turn of which both sizes fit |
| NativeTurns.PathIff | packages/contracts/src/failure.ts:686-700 | Once a collected issue has a path, the details have a path exactly when issues are left and all have that path |
| FailureCalls.FittedIsMade | packages/contracts/src/failure.ts:700-703 | The failure whose envelope is measured is the one a call without attributes makes of the fitted details |
| NativeConservation.FitConserves | packages/contracts/src/failure.ts:707-714 | The omission count grows by exactly the entries and strings dropped, the character count by exactly theirs, the path summary uncounted |
| NativeConservation.FitTrims | packages/contracts/src/failure.ts:707-714 | Under every other key stands what was collected, or its list cut from the end, or nothing where a string was |
| NativeConservation.FitSparesTexts | packages/contracts/src/failure.ts:708-713 | No string is dropped while a list entry is left |
| NativeConservation.FitSettles | packages/contracts/src/failure.ts:694-715 | On success the details and the indented envelope are at most 8192 bytes each, and path is the one shared by the issues left |
| NativeConservation.FitForm | packages/contracts/src/failure.ts:694-714 | Fitting keeps every field in the form of its rule |
| NativeDiagnostics.NativeFactsFor | packages/contracts/src/failure.ts:625-716 | Collecting then fitting computes the native details |
| NativeDiagnostics.NativeBooks | packages/contracts/src/failure.ts:625-715 | From the caller's fields to the result: fields, entries and characters kept plus both counters equal what was given, but for a path that became the summary |
| NativeDiagnostics.NativeKeeps | packages/contracts/src/failure.ts:625-715 | Every diagnostic left, other than summary and counters, is one the caller gave, unaltered |
| NativeFixedPoint.NativeAgain | packages/contracts/src/failure.ts:625-716 | Native details taken from native details are the same members, with the counters moved to the end |
| NativeOrder.SameFailureIff | packages/contracts/src/failure.ts:760-770 | A produced failure comes back as the very same one exactly when it is not native or its counters come last, the count before the characters |
| NativeOrder.CallKeptIff | packages/contracts/src/failure.ts:689-715 | Told from the call: a native failure comes back as it was made exactly when what was collected from the caller fits at once, or its characters are not written before its count and its path not behind a counter |
| FieldOrder.FitOrderIff | packages/contracts/src/failure.ts:689-714 | From a draft without counters, fitting ends with the counters last, count first, exactly when one turn is enough, or there was a count or no characters before, and the path, if it is missing in the first summary and there in the last, was there at the second turn with nothing counted before |
| FieldOrder.RunPath | packages/contracts/src/failure.ts:694-714 | Once an omission is counted, a path there in the end stands behind a counter exactly when the first summary is missing, or puts the path behind one |
| FieldOrder.RunCounters | packages/contracts/src/failure.ts:689-693 | Once an omission is counted, the characters end before the count exactly when they stood before it, or stood there without it |
| NativeOrder.PathReordered | packages/contracts/src/failure.ts:694-714 | Two large issues with different paths and a counted omission make a failure that no data denoting it gives back unchanged |
| NativeOrder.CountersReordered | packages/contracts/src/failure.ts:689-714 | Two large issues without a path and counted characters alone make such a failure too |
| PathBehindCounters.FitsInTwoTurns | packages/contracts/src/failure.ts:694-714 | Whenever two issues differ in path, only the first fits and one omission was counted before, fitting ends with the path behind the count |
| ReversedCounters.CountComesLater | packages/contracts/src/failure.ts:689-714 | Whenever two issues do not fit, the first alone does, and characters but no omission were counted before, fitting ends with the count behind the characters, and no path |
| NativeFixedPoint.SettleSame | packages/contracts/src/failure.ts:689-701 | Moving the counters to the end keeps even the order exactly when they already end the record, the count before the characters |
| PrettyJson.SizesPermuted | packages/contracts/src/failure.ts:704-704 | Neither the compact nor the indented size depends on the order of a record's members |
| FailureEnvelopes.EnvelopePermuted | packages/contracts/src/failure.ts:694-705 | The envelope budget does not see the order of the details |
| DetailsBudget.BudgetIff | packages/contracts/src/failure.ts:717-724 | The list of budget issues is empty exactly when depth, strings, lists and records are within their limits |
| DetailsBudget.SnapshotIff | packages/contracts/src/failure.ts:825-846 | Plain data is copied as itself when in budget and refused otherwise |
| DetailsBudget.SnapshotMeans | packages/contracts/src/failure.ts:825-846 | The copy of a value is j exactly when the value holds j in plain records and lists without further keys, and j is within the budget |
| FailureContract.KnownFields | packages/contracts/src/failure.ts:726-759 | Code, reason and message come from the policy; the caller's attribute wins over the policy's and that over the catalogue's; transport failures are never retryable, recovery attributes fixed |
| FailureContract.KnownIff | packages/contracts/src/failure.ts:726-757 | A call returns a failure exactly for a registered pair of code and reason, attributes that are allowed, and details taken within their budget |
| DetailsTaken.DetailsMean | packages/contracts/src/failure.ts:349-716 | For every kind of policy, details are taken exactly when the caller's value has the form that kind asks for, and they are what that form says, field by field and in order |
| CallOutcome.CallMeans | packages/contracts/src/failure.ts:726-759 | For every well-formed table a call returns the failure f exactly when the pair is registered, attributes and their defaults are allowed, f carries just these, and its details are those the policy makes of the caller's value, within budget |
| FailureCalls.DataCall | packages/contracts/src/failure.ts:760-770 | A failure is read from data as a call with its six fields is made, an absent field as one left out |
| FailureCalls.DataRefused | packages/contracts/src/failure.ts:760-770 | No failure is read from what is no record, nor from a record with an accessor under one of the six names |
| FailureContract.DetailsDefault | packages/contracts/src/failure.ts:726-726 | A call without details is the call with an empty record, for every lawful contract |
| FailureCalls.PlainWithoutDetails | packages/contracts/src/failure.ts:726-758 | A plain policy called without details makes a failure with empty details |
| FailureCalls.ForbiddenRefused | packages/contracts/src/failure.ts:354-366 | A critical key the policy does not name, or an object it does not take, refuses the call, whatever stands around it, for plain, fact and native policies |
| FailureContract.ProducedInBudget | packages/contracts/src/failure.ts:753-758 | Details of a produced failure are within the shape and byte budgets, unless they carry recovery authority |
| FailureContract.PolicyAgain | packages/contracts/src/failure.ts:726-759 | A produced failure is produced again from its own fields and any plain data denoting its details |
| FailureContract.FixedPoint | packages/contracts/src/failure.ts:760-770 | For every lawful contract, so over plain, fact, native and recovery policies, data denoting a produced failure gives the failure back; only native members can change order |
| DetailsStorage.DetailsStorable | packages/contracts/src/failure.ts:726-759 | Details have distinct keys at every level, so the returned object exists |
| CanonicalJson.SortPermuted | packages/contracts/src/schema.ts:116-118 | Records with the same members have the same canonical form |
| CanonicalJson.AlikeCanonical | packages/contracts/src/schema.ts:171-175 | The canonical form depends on keys and on the canonical forms of values only |
| CanonicalJson.CanonicalSame | packages/contracts/src/schema.ts:171-175 | The canonical form is the same value up to the order of members at every level |
| FailureReview.ProducedHasNoIssues | packages/contracts/src/failure.ts:847-862 | The contract finds no issue in any failure it produces, wherever it is read from |
| FailureReview.NoIssuesMeansProduced | packages/contracts/src/failure.ts:847-862 | Data without issues has the canonical text of a failure the contract produces |
| FailureReview.NoIssuesMeansClosed | packages/contracts/src/failure.ts:849-854 | Data without issues is a plain record of exactly the seven fields, all of them enumerable own data |
| FailureReview.ReviewIgnoresOrder | packages/contracts/src/failure.ts:850-861 | The issues do not depend on the order of the fields |
| FailureReview.CanonicalTextsMean | packages/contracts/src/failure.ts:860-860 | Equal canonical texts mean equal values up to key order |
| FailureSurface.UnclassifiedKnown | packages/contracts/src/failure.ts:771-783 | An unclassified failure can always be made; its details are the stage and error class where known |
| FailureEnvelopes.UnclassifiedFits | packages/contracts/src/failure.ts:784-790 | Its envelope fits for every request id of at most 256 UTF-8 bytes |
| FailureSurface.EnvelopeCarries | packages/contracts/src/failure.ts:784-791 | A produced failure's envelope carries it and exists exactly when request id and size allow |
| FailureSurface.ToEnvelopeTotal | packages/contracts/src/failure.ts:807-814 | There is an envelope exactly when the request id is at most 256 UTF-8 bytes, for every thrown value; its error has no issues and it is within budget unless it carries recovery authority |
| FailureSurface.ToEnvelopeCarries | packages/contracts/src/failure.ts:807-814 | The thrown failure, or what is known of the thrown error, is what the envelope carries when allowed, else the metadata failure |
| FailureSurface.ThrownCarried | packages/contracts/src/failure.ts:807-814 | Of a thrown failure error the failure is carried as it is read when it can be read and is allowed, and in every other case the metadata failure |
| FailureSurface.NormalizeTotal | packages/contracts/src/failure.ts:815-824 | A result is returned by identity exactly when it is no record or its own data field ok is not false, whatever the request id; otherwise the answer is a sound envelope, and there is one exactly for request ids of at most 256 bytes |
| FailureSurface.NormalizeCarries | packages/contracts/src/failure.ts:815-824 | A failed result holding a failure of the contract is answered with that failure when its envelope is allowed |
| FailureSurface.NormalizeAnswers | packages/contracts/src/failure.ts:815-824 | A result whose ok is false, or cannot be read, is answered with the failure it holds when ok and failure can be read and it is allowed, otherwise with the metadata failure |
| RealContract.RealLawful | packages/contracts/src/failure.ts:349-351 | Every well-formed table, its policies taking details as the program does, keeps all the promises the results about the contract rest on |
| PolicyDetails.DetailsAgain | packages/contracts/src/failure.ts:726-759 | For every kind of policy, details taken from details are the same details, native members possibly in another order |
| PolicyDetails.UnclassifiedTaken | packages/contracts/src/failure.ts:771-783 | Of a stage and an error class exactly what the contract knows is kept |
| FailureTable.SampleLawful | packages/contracts/src/failure.ts:43-315 | Eight policies of the table, covering each kind, with the real critical-key rule, form a contract the results hold for |
| FactBudget.FactFailureIff | packages/contracts/src/failure.ts:753-757 | Fact details taken with allowed attributes become a failure exactly when their strings, shape and bytes are within budget; a long rule lengthens the string budget only where it is not optional |
| FactBudget.FactShape | packages/contracts/src/failure.ts:498-514 | With no list rule over 32, fact details are never too deep or too wide: they have no more fields than the caller gave |
| FactBudget.FactTexts | packages/contracts/src/failure.ts:717-719 | The strings the budget sees are exactly those of the declared facts |
| FactBudget.BoundedFacts | packages/contracts/src/failure.ts:438-497 | A schema whose rules all keep a limit gives no details with a longer string |
| CommandLimits.OptionalListIff | packages/contracts/src/failure.ts:753-757 | A list of long words under an optional key is dead above 256 bytes: with its facts met, a call returns exactly when the caller's words are that short and the details at most 8192 bytes |
| CommandLimits.IgnoredIff | packages/contracts/src/failure.ts:753-757 | With its facts met, architecture-model-ignored is reported exactly when every command is at most 256 bytes and the details at most 8192, although diagnosticCommands takes 1024 |
| CommandLimits.OneCommandIff | packages/contracts/src/failure.ts:470-475 | With one listed command of up to 1024 bytes the facts are taken, and the failure is refused exactly when it is over 256 |
| CommandLimits.LongCommandRefused | packages/contracts/src/failure.ts:754-756 | For every length from 257 to 1024 there is a call with such a command that meets its rule and is refused |
| CommandLimits.DecisionIff | packages/contracts/src/failure.ts:754-756 | Under commandSuggestion, which is not optional, no command its rule takes is too long: only the 8192 bytes can refuse |
| JsAllocation.FreshDenotes | packages/contracts/src/failure.ts:726-759 | Every value with distinct keys is held by some heap, as the objects the program returns are |
| BlobBatch.BlobsAt | docs/verification/issue-328-d5-read-snapshot-evidence/recompute-migration-audit.ts:50-67 | Accepts exactly the batches that are the entries' frames end to end with no byte left, and returns their bodies |
| BlobBatch.HeaderIff | docs/verification/issue-328-d5-read-snapshot-evidence/recompute-migration-audit.ts:53-58 | A header announces n exactly when it is the object id, the word blob and a numeral of n, separated by single spaces, whatever follows after a further space |
| BlobBatch.ReadPrinted | docs/verification/issue-328-d5-read-snapshot-evidence/recompute-migration-audit.ts:50-67 | A batch printed for the entries is read back body by body, whatever bytes the bodies hold |
| BlobBatch.TilingUnique | docs/verification/issue-328-d5-read-snapshot-evidence/recompute-migration-audit.ts:52-64 | A batch can be cut into frames for its entries in one way only |
| BlobBatch.GitHeaderReads | docs/verification/issue-328-d5-read-snapshot-evidence/recompute-migration-audit.ts:53-58 | The header line printed for an object announces exactly its length |
| Calibration.ConfidenceCalibration | evals/run.ts:1054-1077 | Computes the mean penalty and the weighted gap of the bins, and the square of the second is at most the first |
| Calibration.Tally | evals/run.ts:1056-1066 | The first loop counts every confidence level exactly and sums the penalties |
| Calibration.Combine | evals/run.ts:1067-1071 | The second loop adds up the weighted gaps of all bins |
| Calibration.PenaltyByBin | evals/run.ts:1061-1064 | The penalty sum splits over the bins |
| Calibration.BinVariance | evals/run.ts:1061-1070 | A bin's penalties are at least its size times its squared gap |
| Calibration.MeanSquare | evals/run.ts:1070-1070 | The weighted mean, squared, is at most the weighted mean of squares |
| Calibration.ErrorBelowBrier | evals/run.ts:1054-1077 | The squared calibration error is at most the Brier score, for every sample list |
| OrderedSubsequence.IsOrderedSubsequence | scripts/fg6-local-no-cloud-readback.ts:178-185 | True exactly when required occurs in order in the commands; with nothing required it still needs one command |
| OrderedSubsequence.LongestStep | scripts/fg6-local-no-cloud-readback.ts:180-182 | The cursor is the longest prefix of required found so far |
| RunnerIdentity.TransitionIff | packages/contracts/src/github-governance.ts:618-630 | A step succeeds exactly when identity, change and timestamp are accepted: the closing assertion never fires |
| RunnerIdentity.RunIff | packages/contracts/src/github-governance.ts:608-630 | A run from an accepted identity succeeds exactly when every step is permitted, and stays accepted |
| RunnerIdentity.RevokedIsFinal | packages/contracts/src/github-governance.ts:145-149 | revokedAt is set exactly when revoked, and nothing follows a revocation |
| RunnerIdentity.RunStamps | packages/contracts/src/github-governance.ts:622-627 | rotatedAt is the time of the last rotation of the run, revokedAt that of the revocation |
| RunnerIdentity.ScopeKept | packages/contracts/src/github-governance.ts:632-640 | A run never changes what the identity matches, nor its other fields |
| RunnerIdentity.MatchesIff | packages/contracts/src/github-governance.ts:632-640 | A runner matches exactly its installation, its workflow where one is asked for, and the repositories of its scope; the answer fails exactly for an identity or an id that is not accepted |
| RunnerIdentity.EffectiveIff | packages/contracts/src/github-governance.ts:643-646 | A scope is in effect exactly for an accepted identity: the organization, or exactly its repositories |
| RunnerIdentity.ScopeAcceptedIff | packages/contracts/src/github-governance.ts:584-595 | A scope is accepted exactly when it is the organization without repositories, or some repositories, the same in both lists |
| RunnerIdentity.TransitionTable | packages/contracts/src/github-governance.ts:145-149 | Any change of status is permitted but one from revoked |
| RunnerIdentity.CreateIff | packages/contracts/src/github-governance.ts:559-578 | An identity can be created exactly when its keys and stamps are accepted and its scope names the organization or some ids |
| RunnerIdentity.StampsIff | packages/contracts/src/github-governance.ts:599-605 | Stamps are accepted exactly when an active identity has no revocation, a rotating one a rotation and no revocation, and a revoked one a revocation |
| RunnerIdentity.KeysIff | packages/contracts/src/github-governance.ts:580-606 | The keys are accepted exactly when each is given and has its form |
| RunnerIdentity.CreateAccepted | packages/contracts/src/github-governance.ts:559-578 | A created identity is accepted, its scope is the normal form of the one asked for, and its repositories are the ids asked for, ascending, each once |
| RunnerIdentity.NormalizeSet | packages/contracts/src/github-governance.ts:762-776 | Normal forms ascend, hold the same ids, and are equal exactly when the id lists are the same set |
| ReadPlan.QueryTextIff | packages/contracts/src/ports.ts:493-504 | The digested text is the same exactly for queries differing in order or repetition of expanded ids alone |
| ReadPlan.ExpandedKinds | packages/contracts/src/ports.ts:539-542 | The expanded kinds are exactly those the ids name, and the plan depends on the ids as a set |
| ReadPlan.RowLimit | packages/contracts/src/ports.ts:526-551 | For valid queries no cap binds and the row limit is three times the node budget plus the relation budget |
| ReadPlan.PlanIs | packages/contracts/src/ports.ts:507-551 | A plan is made exactly for queries of this version and a known view within the three budgets, and its kind, level, focus, depth and limits are those asked for |

## Left out

- Schema validation, layer rules, the source-path index and the duplicate-id phase of `nativeContextModelIssues`: field-by-field checks.
- The source path an issue of a native report carries beside its three keys.
- The full policy table and its remaining messages: the results hold for every well-formed table, and `FailureTable` instantiates eight policies.
- SHA-256 is a parameter of fixed output form; the readback-request invariants, the repository path test, the runner id and workflow forms and the date parser are parameters.
- How the runtime reads a numeral in a blob header is a parameter of `BlobBatch`.
- JavaScript proxies, inherited property names of foreign prototypes, the reordering of integer-like keys and negative zero. A getter is modelled by a fixed result that is never used as data.
- A reference that leaves the heap behaves like a function value.
- Attributes of `knownFailure` are given as three values; reading them from an attributes object is not modelled.
- A request id that is not a string, and the schema version of a runner identity and its unknown-field checks.
- Rounding in the calibration report.
- The required domains and the plan digest of the read plan: a finite table and a digest of the modelled fields.
- Git, file system and network access around the modelled algorithms, and the ledger, journal and daemon they feed.
- The error texts of exceptions: which input fails is modelled, not the message.
- The small loops over checks, path lists and changed fields inside `fact` and `localFactValue` are recursive functions: each only builds a fresh list.
- Characters of list entries past the thirty-second are in no total, because the program never reads them.
