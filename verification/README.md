# Verified model of managed-services-lib's detached jobs

managed-services-lib lets a provider run backups, restores and similar work as one-shot
Kubernetes Jobs. A Job and its credentials Secret share one name, which is also the
idempotency key. Dispatching, deleting and replacing them are programs of several API
requests without a transaction or a lock: they rely on the order of the requests, on
swallowing exactly one class of error on each of them, and on ownership by UID. This project
models those programs against a store that moves by itself and may fail any request, and
proves what they guarantee, alone and all at once. Around them it models the builders, the
observers, the names and encodings, and the way from an API error to an HTTP answer.

`dafny verify dfyconfig.toml` checks everything.

## How it is modelled

- **The cluster** (`Clusters.dfy`) holds Jobs and Secrets by (namespace, name) and a UID
  counter. Between requests it moves: the Job controller reports progress (it changes times,
  active pods and texts freely, leaves terminal conditions alone, and may set one of them
  while none is True); the TTL controller deletes a finished Job; a terminating Job
  disappears; the garbage collector removes a Secret whose owner is gone or terminating.
- **A request** (`Serve`) is one atomic step. It is answered as it stands, or an error of any
  class comes back, whether the request took effect or not. Two false claims are excluded:
  AlreadyExists for a name that is free, and not found on a delete of something that is
  there; such a fault counts as a failed request. Any other conflict may meet a create at
  any time, also while its name is free: a *false conflict*.
- **A call** (`JobProtocol.dfy`) is Run, Delete or Replace as a state that names its next
  request. `Drive` runs one call through turns, each with moves of the cluster before the
  request; running out of turns is a crash. `JobRunner.dfy` has the methods themselves, over a
  client whose cluster is mutable state, and shows that each performs exactly its program.
- **The system** (`ConcurrentCalls.dfy`) interleaves any number of calls, moves and crashes.
  `AloneIsOneExecution` makes every method of `JobRunner` an execution of it.

## Where the code and its comments part

- `ErrResourceConflict` is documented as "already exists", but `wrapK8sError` also gives it to
  every other conflict, so a create refused by a false conflict is taken for done. Run may
  then return nil without a Job, or start a Job without its Secret
  (`FalseConflictLosesTheJob`, `FalseConflictLosesTheSecret`). `RunPreserves`,
  `ReplaceRefreshes`, `ExecutionIsSafeIff` and `SecretBeforeJobAlways` say that this, and
  nothing else, breaks what nil and the order of the creates are to promise.
- Run's comment says that the pod never starts without its Secret. False conflicts apart,
  `RunAloneIsSafeIff` gives the exact condition: a Secret left over with an owner, or with
  other keys, breaks it, because Run takes that Secret for its own; and `RunsOnOwnValuesIff`
  shows when the keys are right but the values are old. `ReplaceAloneIsSafeIff` shows that
  Replace does not have this trap. With overlapping calls, `Hazards.dfy` has two short
  executions that break the promise for every spec with secrets, and
  `SecretBeforeJobAlways` the hypotheses under which it holds.
- The comment that a bounded deadline is always set holds, but a positive timeout below one
  second rounds down to a deadline of zero seconds (`DeadlineIsZeroIff`).
- The health message is cut between characters, but a message that is cut and is not valid
  UTF-8 is also rewritten. `CutIsPrefix` says exactly when it is not.

## Model

| member | source | states |
|---|---|---|
| `JobRunner.JobRunner.Run` | client/jobrunner.go:131-160 | against any faults and moves, performs exactly the requests of the dispatch program and returns its result; never an error matching conflict |
| `JobRunner.JobRunner.AdoptSecret` | client/jobrunner.go:224-233 | one patch with the given UID, whatever its outcome |
| `JobRunner.JobRunner.Delete` | client/jobrunner.go:196-208 | performs exactly the delete program; nil leaves no live Job and no Secret; never an error matching not found |
| `JobRunner.JobRunner.Replace` | client/jobrunner.go:214-219 | performs exactly delete, then dispatch; nil leaves the outcome of `ReplaceRefreshes`, and the Secret exactly if its create met no false conflict |
| `JobRunner.JobRunner.State` | client/jobrunner.go:165-192 | an absent Job is reported as not found without error, an existing one as it was read (`ReportedTimes` and `ReportedReason` say what that means), its failure explained by what its pods answered; a read error is passed on wrapped, never as not found |
| `JobRunner.JobRunner.FailedPodLogs` | client/jobrunner.go:255-273 | pods and logs may change between the questions: the explanation is the answer of some listed pod such that every pod created strictly later was asked before, for the last 20 lines of its job container, and had nothing to say or an error; empty exactly if listing failed or every pod was asked in vain |
| `JobRunner.KubernetesClient.Create` | client/kubernetes.go:46-48 | one request against the moving cluster, answered with a UID or an error |
| `JobRunner.KubernetesClient.GetJob` | client/kubernetes.go:56-57 | a read after any moves: the Job as it is, or an error of wrapK8sError that claims absence only truly |
| `Clusters.RepliesInform` | client/kubernetes.go:43-79 | what each reply implies about the cluster: a conflict on a create means taken exactly unless it is a false one, not found on a delete means free, a created UID is new |
| `Kubernetes.WrappedHasOneSentinel` | client/kubernetes.go:289-304 | a wrapped API error matches the sentinel of its class and no other, class by class |
| `Kubernetes.WrappedKeepsTheText` | client/kubernetes.go:294-303 | its text is the sentinel's, then the API's own |
| `SequentialCalls.OtherNamesUntouched` | client/jobrunner.go:131-233 | for any call, complete or cut short: every other (namespace, name) ends exactly as the cluster's own moves alone would leave it |
| `SequentialCalls.DeleteLeavesNothing` | client/jobrunner.go:194-208 | crash and fault recovery: from any cluster, a Delete that returns nil leaves no Secret of the name, and at most the same old Job, terminating |
| `SequentialCalls.DeleteCompletesOnRetry` | client/jobrunner.go:194-208 | from every cluster, so after a Delete interrupted anywhere, two requests without faults complete it: the Job is terminating, the Secret gone, and nothing else changed |
| `SequentialCalls.RunPreserves` | client/jobrunner.go:127-160 | under any faults and moves and wherever it stops, Run leaves a Job that does not vanish, and all others, to the cluster alone, and the data of a Secret that is not collected; where the cluster takes neither away during the call, nil means that the Job is there, and the Secret if one is needed, if and only if no create of the call was refused with a conflict while its name was free |
| `SequentialCalls.RunOnlyAdds` | client/jobrunner.go:127-160 | under any faults and any moves: the Job stays the old one, touched by the cluster alone, or is a fresh one of this spec; an unowned Secret keeps its data, any other has its old data or this spec's |
| `SequentialCalls.SmoothRun` | client/jobrunner.go:131-160 | a Run without faults or moves, in closed form, from every cluster |
| `SequentialCalls.DispatchIsIdempotent` | client/jobrunner.go:127-160 | from every cluster, partial ones included, n+1 Runs leave what one leaves |
| `SequentialCalls.ReplaceRefreshes` | client/jobrunner.go:210-219 | under any faults and moves, a nil Replace leaves a fresh Job of this spec, the same old one terminating, or none, and no Secret but this call's, owned if at all by the Job it created; the Secret is there, and the Job unless it vanished before the patch, if and only if its create met no false conflict |
| `Retrying.OldJobIsNeverJoined` | client/jobrunner.go:210-233 | over any history of calls, faults, crashes and moves: while the old Job exists no second one is created and the Secret is never put under it |
| `Retrying.RetryProgress` | client/jobrunner.go:210-219 | whatever calls, faults, crashes and moves happen while the old Job dies change no Job, hand out no UID and put the Secret under nobody; the first fault-free Replace after it vanished creates a fresh Job that owns a Secret with this spec's data |
| `Retrying.LastReplaceRefreshes` | client/jobrunner.go:210-219 | after any such history, a Replace that returned nil last has left no Secret but its own, unowned, and that one if and only if its create met no false conflict |
| `SecretBeforeJob.JobNeedsItsSecrets` | client/jobrunner.go:333-350 | a built Job needs exactly the keys of its spec's secrets from its own Secret |
| `SecretBeforeJob.ExecutionIsSafeIff` | client/jobrunner.go:133-151 | execution by execution, from a safe start: Run or Replace breaks the promise if and only if it met a false conflict on the Secret and a Job it created lives |
| `SecretBeforeJob.RunAloneIsSafeIff` | client/jobrunner.go:127-160 | a single Run keeps "a live Job has its Secret with all its keys" in every execution without a false conflict on the Secret if and only if a Job already there is secured and a Secret already there is unowned and has this spec's keys; in every execution at all if and only if, moreover, the Secret is already there or none is needed |
| `SecretBeforeJob.ReplaceAloneIsSafeIff` | client/jobrunner.go:210-219 | a single Replace keeps it in every execution without a false conflict on the Secret if and only if a Job already there is secured; in every execution at all if and only if, moreover, no Secret is needed |
| `SecretBeforeJob.RunsOnOwnValuesIff` | client/jobrunner.go:133-138 | under any faults and moves, the Secret a Run leaves has this spec's values if and only if its first request met no Secret with other data |
| `ConcurrentCalls.OwnersAreOwn` | client/jobrunner.go:145-158 | ownership safety: in every reachable state of any mix of calls a Secret is unowned or owned by a UID a Create answered with for that name; no UID serves two names |
| `ConcurrentCalls.AloneIsOneExecution` | client/jobrunner.go:131-219 | a call driven alone is one execution of the whole system |
| `ConcurrentRuns.SecretBeforeJobAlways` | client/jobrunner.go:127-145 | over all interleavings of Runs, moves, faults and crashes, as long as no Run is in flight beside a Secret whose owner is gone and none outlives its Job: a live Job's Secret exists in every state, has every key the Job refers to and cannot be collected, if and only if no Job is created without a Secret for a call that met a false conflict on it |
| `ConcurrentRuns.SecretBeforeJobWithoutDeletion` | client/jobrunner.go:127-145 | the same from what a caller can see to beforehand: no Job or owner on its way out at the start, nothing begun but Runs with the same secret keys, and no expiry |
| `ConcurrentRuns.AdoptedSecretStays` | client/jobrunner.go:154-158 | once adopted by the live Job, the Secret stays as it is while that Job lives |
| `ConcurrentRuns.DispatchedOnce` | client/jobrunner.go:131-160 | without deletion at most one Create takes effect, exactly if a Job is there that was not before, and at most one patch is sent: by the call that was answered with the Job's UID, with that UID, and certainly if it has secrets and returned nil; next to a Job already there no Create takes effect and no patch is sent |
| `ConcurrentRuns.CallsReturnNilUnlessRefused` | client/jobrunner.go:131-219 | a call that was not cut short returns nil unless a request of its own was refused with an error other than the expected one |
| `Hazards.OverlappingDeleteBreaks` | client/jobrunner.go:131-208 | for every spec with secrets, a Delete between a Run's creates leaves a live Job without its Secret |
| `Hazards.LatePatchBreaks` | client/jobrunner.go:145-158 | for every spec with secrets, a patch that lands after its Job vanished costs the next Job its Secret |
| `Hazards.FalseConflictLosesTheSecret` | client/kubernetes.go:297-299 | for every spec with secrets, from an empty cluster: a false conflict on the Secret leaves a live Job without it |
| `Hazards.FalseConflictLosesTheJob` | client/kubernetes.go:297-299 | for every spec with secrets, from an empty cluster: a false conflict on the Job makes Run return nil without a Job |
| `Confidentiality.SecretValuesStayInTheSecret` | client/jobrunner.go:86-90 | two calls whose specs differ in secret values alone send equal Jobs, branch alike, return equal errors and leave clusters that differ in those values alone |
| `ErrorClosure.SwallowedOrKept` | client/jobrunner.go:134-151 | for any error of any client: a call swallows the class it expects, and surfaces every other with exactly its classes |
| `ErrorClosure.FailuresTellTheStep` | client/jobrunner.go:136-207 | the text of a returned error names the request that failed and the Job, and keeps the cause's text |
| `ErrorClosure.CallsReturnClosedErrors` | client/jobrunner.go:131-219 | every error a call returns wraps one API failure, of a class other than the swallowed one |
| `ErrorClosure.FailureKeepsItsClass` | provider/routes.go:266-277 | a wrapped API failure is answered by its class, without its text |
| `ErrorClosure.CallsAnswerByClass` | provider/routes.go:240-282 | Run, Delete and Replace end in an HTTP answer among a fixed few, whatever happens |
| `ErrorClosure.ConflictsAreAlike` | client/kubernetes.go:297-299 | no call can tell "already exists" from another conflict on a create: it goes on, or returns nil, alike |
| `Routes.HandleError` | provider/routes.go:240-282 | writes the contract's answer: status and body of the matching sentinel of highest precedence, or 500 |
| `Routes.AnswerIsUnique` | provider/routes.go:240-282 | the contract allows one answer only |
| `Routes.AnswersInOrder` | provider/routes.go:240-282 | the documented answers, literally and in their order |
| `Routes.BareAnswers` | provider/base.go:26-51 | the answer to each domain sentinel itself, text included |
| `Routes.InfrastructureTextNeverLeaks` | provider/routes.go:236-239 | for trees of infrastructure errors, of any depth, the answer depends on the set of sentinels alone |
| `Routes.DomainTextPassesThrough` | provider/routes.go:236-239 | a domain error anywhere in the tree decides and passes the full text; without one the body is one of five fixed texts |
| `Routes.WrappingKeepsStatus` | provider/routes.go:240-282 | wrapping any number of times keeps the status, and without a domain error the whole answer |
| `Errors.IsFindsExactlyTheLeaves` | provider/routes.go:242-277 | errors.Is on a wrap tree is membership among its leaves |
| `Errors.LeafTextsAppear` | provider/routes.go:243-264 | the text of a wrap tree of any depth contains the text of every sentinel at its leaves |
| `JobObjects.BuildJob` | client/jobrunner.go:275-320 | for every map iteration order, the one Job of the spec, which `JobIsLossless` and `ManifestsTellSpecsApart` read back |
| `JobObjects.BuildEnv` | client/jobrunner.go:333-350 | for every map iteration order, the one env of the spec, which `EnvIsCanonical` and `EnvReadsBack` describe |
| `Sorting.SortedKeys` | client/jobrunner.go:365-372 | the map's keys, each once, a key before another exactly where it ends or has the smaller character at their first difference, whatever order the map yields them in |
| `Sorting.SortSlice` | client/jobrunner.go:262-265 | in place, a permutation, sorted; ties in any order |
| `JobObjects.EnvIsCanonical` | client/jobrunner.go:330-350 | one entry a variable, plain ones first, references exactly in the second part, names ascending within each by their first difference |
| `JobObjects.EnvReadsBack` | client/jobrunner.go:330-350 | read with the last entry winning, the env is Env overlaid by Secrets as references with an empty value |
| `JobObjects.ReferencesResolve` | client/jobrunner.go:322-347 | the Job's references are exactly the keys of the Secret built from the same spec, of the same name and namespace |
| `JobObjects.JobHidesSecretValues` | client/jobrunner.go:86-90 | specs that differ in secret values alone build equal Jobs |
| `JobObjects.JobIsLossless` | client/jobrunner.go:284-328 | a reader recovers every field of the spec from the Job and its Secret, an unset backoff limit as 3; no attempt is restarted in place |
| `JobObjects.ManifestsTellSpecsApart` | client/jobrunner.go:275-328 | equal Jobs and Secrets come from equal specs, but for rounded or defaulted numbers |
| `SequentialCalls.RunsJobsThatExplainThemselves` | client/jobrunner.go:291-297 | under any faults and moves, a Job that Run creates gives every attempt a pod of its own, and names its container as the one whose logs are read |
| `JobObjects.DeadlineIsZeroIff` | client/jobrunner.go:374-379 | the deadline is the timeout in whole seconds, or six hours; never negative, and zero exactly for a positive timeout below one second |
| `JobObjects.TtlSurvivesTheCast` | client/jobrunner.go:276-277 | the TTL is the spec's in whole seconds, or one hour, exactly below 2^31 seconds, and congruent to it modulo 2^32 beyond |
| `JobStatuses.ConditionTrueReadsTheFirst` | client/jobrunner.go:381-388 | true exactly if the first condition of the type has status True |
| `JobStatuses.PhaseReadsTheVerdict` | client/jobrunner.go:179-190 | the switch reads the terminal conditions alone: succeeded exactly if Complete is True, failed exactly if only Failed is; active pods matter to unfinished Jobs only |
| `JobStatuses.MessageReadsTheFirst` | client/jobrunner.go:390-403 | the first message or reason offered by a condition of the type, else the fallback |
| `JobStatuses.MessageIsNeverEmpty` | client/jobrunner.go:390-403 | a failure always has a message |
| `Polling.ReportedTimes` | client/jobrunner.go:174-187 | started when the Job's start time is set; finished at its completion time, or, failed without one, at the transition of the first Failed condition that has a time, or never |
| `Polling.ReportedReason` | client/jobrunner.go:235-248 | the message, or else the reason, of the first Failed condition that has either, or a fixed text, then a colon and the logs if there are any; empty unless failed |
| `PodLogs.FirstReadableExplains` | client/jobrunner.go:260-272 | the first readable log after the sort is that of a pod of the listing such that every pod created later was asked before |
| `PodLogs.ListingOrderIsIrrelevant` | client/jobrunner.go:260-265 | with distinct creation times and logs that do not change, the explanation is the same for every listing order and every outcome of the unstable sort |
| `Polling.PollsAreCoherent` | provider/servicejob.go:137-153 | at every poll: reason exactly if failed, backup exists exactly if completed, both mappers carry the same error, and never an error beside a backup |
| `Polling.OperationTellsThePhase` | provider/servicejob.go:137-153 | in every cluster: completed or failed as the terminal conditions say, else running exactly while pods are active, else pending; an absent Job is pending without times |
| `Polling.OperationTellsTheTimes` | provider/servicejob.go:138-142 | started when the Job did; completed when it did, or, failed without a completion time, at the transition of the first Failed condition that has one |
| `Polling.PollsTellTheVerdict` | client/jobrunner.go:179-190 | along any execution a backup is reported to exist exactly if the Job controller decided Complete, and an error exactly if it decided Failed |
| `Polling.VerdictsAreStable` | provider/backupjob.go:22-28 | along any execution, with a Job controller that leaves terminal conditions alone and changes everything else, a finished Job keeps being reported as it was until it disappears |
| `ServiceJobs.NamesAreUniqueIff` | provider/servicejob.go:71-76 | names are unique over all keys if and only if no operation with its dash is a proper prefix of another's |
| `ServiceJobs.BuiltInNamesAreUnique` | provider/servicejob.go:19-23 | the three built-in operations satisfy it |
| `ServiceJobs.OwnOperationsCanClash` | provider/servicejob.go:17-18 | a provider's own "delete" operation does not |
| `ServiceJobs.NamesRoundTrip` | provider/backupjob.go:11-19 | built-in names are the operation, a dash and the key; they decode to operation and key, and only names that were so made decode |
| `ServiceJobs.NamespacesAreUnique` | provider/base.go:77-80 | distinct team IDs have distinct namespaces |
| `ServiceJobs.NamespaceIsDecimal` | provider/base.go:77-80 | "rg-" and the team ID in decimal, digit by digit |
| `ServiceJobs.IdentitiesAreUnique` | provider/servicejob.go:71-76 | (namespace, name) determines team, built-in operation and key |
| `ServiceJobs.ServiceJobSpec` | provider/servicejob.go:83-102 | the conventions' name and the caller's labels overlaid by the identity labels; everything else passed through |
| `ServiceJobs.DispatchedLabels` | provider/servicejob.go:78-102 | end to end and under any faults and moves, a Job that the dispatch creates, its pods and a Secret it creates carry the identity labels over the caller's |
| `JsonPointer.TwoPassesAreOne` | provider/base.go:177-181 | the two replacements are one pass, character by character |
| `JsonPointer.EscapingIsInvertible` | provider/base.go:174-181 | a bijection between strings and the tokens of section 3 of RFC 6901, undone by the decoder of its section 4 |
| `JsonPointer.EscapesEachCharacter` | provider/base.go:177-181 | every character is escaped by itself: "~" as "~0", "/" as "~1", any other as it is |
| `JsonPointer.OtherOrderFails` | provider/base.go:174-176 | with the replacements swapped a slash does not come back |
| `Utf8.CutIsPrefixIff` | provider/interface.go:102-105 | the first k characters written out are a byte prefix exactly if they were well-formed |
| `Utf8.BytesKeepOrder` | client/jobrunner.go:365-372 | the byte order by which keys are sorted is the order of their characters: where two strings first differ in a character, their UTF-8 bytes first differ alike |
| `ServiceStatuses.NewServiceStatus` | provider/interface.go:86-109 | health is absent exactly if unknown or paused, otherwise a fresh copy with the message cut; the caller's is unchanged |
| `ServiceStatuses.CutKeepsCharacters` | provider/interface.go:102-105 | for every message, the first min(500, n) characters and no others; cutting again changes nothing |
| `ServiceStatuses.CutIsPrefix` | provider/interface.go:102-105 | the report is a byte prefix exactly if the message is short or begins with 500 well-formed characters, so always for valid messages |

## Left out

- `JobRunner.JobRunner.Run`: the error return for a Job that cannot be built is absent, with the conversion that would fail; where the cluster is concerned such a call ends like one that crashes before its second create.
- `JobObjects.BuildJob`: the conversion to an unstructured object, which can fail in principle, and `Customize`, an arbitrary function of the caller, are not modelled; the Job, its template and its Secret hold equal labels rather than one shared map.
- `JobObjects.DeadlineIsZeroIff`: durations are whole nanoseconds and seconds are rounded down exactly, without the floating-point step of `durationSeconds`.
- `ServiceStatuses.NewServiceStatus`: the fields a provider sets afterwards (backups, utilization, maintenance) are not part of the record.
- The real Kubernetes client methods, REST configuration and resource mapping are I/O; their outcome classes are kept.
- Job controller internals (retries, deadlines, pods) are moves of the cluster.
- Times are opaque ordered values; their RFC 3339 rendering in `formatTime` is not modelled.
- Strings are sequences of Unicode scalar values, except for health messages, which are bytes.
- Error types with their own `Is` method are not modelled; the library has none.
- Routes, request binding, middleware, server, configuration, telemetry and logging are plumbing around the jobs; the size and replica parsers wrap library parsers.
