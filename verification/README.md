# Redguard: the operator's protocols, verified

Redguard runs Redis with Sentinel on Kubernetes. Its hard logic is a handful of small protocols run
against nodes that fail half-way, and the exact byte and text transformations those protocols lean
on. This project models that logic in Dafny and proves what it is for.

| file | what it models |
|---|---|
| `Rotation.dfy` | online credential rotation as a transition system over single commands, each failing with or without effect |
| `Push.dfy` | `pushCredentials` and the sentinel broadcasts as loops; their history is a run of that system |
| `AuthRecord.dfy` | the applied-credentials record and the stamp a reconcile returns |
| `Restore.dfy` | the restore reconciler, pod boots and drift repair, interleaved at every external effect |
| `RestoreCalls.dfy`, `RestoreEffects.dfy`, `RestorePass.dfy` | the calls of a pass and their order; what each effect does outside; the phase handlers as the code writes them, refining `Restore` |
| `RestoreSettings.dfy` | the down-after values the protocol records and leaves on the sentinels |
| `DriftRepair.dfy` | `syncSentinelMonitorConfig` as loops over sentinels and options |
| `BackupUpload.dfy` | header check, encoder and part-buffering uploader of a streamed backup |
| `Retention.dfy` | object prefixes through path cleaning, ownership of keys, list/filter/sort/prune |
| `AclRules.dfy`, `AclScope.dfy` | validation and rendering of ACL rules against a left-to-right SETUSER evaluator: what an account can have at most, and what it has exactly |
| `AclPrune.dfy`, `AclPruner.dfy` | the prune pass interleaved with the user controller, and its loops |
| `InitScript.dfy` | password quoting, placeholder substitution and guard, credential-line rebuilds |
| `ConfigHash.dfy`, `Text.dfy`, `Basics.dfy` | the canonical text fed to the config hash; splitting, joining and sorting; shared types |
| `Metrics.dfy` | counters advanced by sample deltas, their baselines, and forgetting pods and clusters |
| `Failover.dfy` | failover handling and stray-replica repointing |

Methods and classes stand for the code that changes state step by step. Protocols in which another
actor may move between two effects are transition systems (`Step`/`Run`, or `Next`/`IsRun`), so their
theorems cover every interleaving and every crash. Nondeterministic results (`*`), outcome arguments
and oracle functions stand for the network, the API server and S3: a call may succeed, fail without
effect, or fail after taking effect.

## Where the code and its own words differ

The model follows the code. Each of these has a lemma with a concrete run or input, and a lemma that
says exactly when the promise does hold.

* After a failed push the comment at `redissentinel_controller.go:716-717` and `docs/operations.md:166-167`
  say the cluster still agrees on the previously applied password. It does exactly as long as no
  narrowing command took effect (`Rotation.AbortedPushStaysReachable`). So a Secret edited once more
  leaves the operator a way in exactly as long as none did
  (`Rotation.NewerPasswordIsReachableExactlyWhen`, `Rotation.NewerPasswordAfterAbortedNarrowLocksOut`).
* `docs/operations.md:169-170` says the operator-owned Secret keeps the password the cluster currently
  accepts. After a narrowing that was aborted it need not
  (`Rotation.NewerPasswordAfterAbortedNarrowLocksOut`), and a Secret edited back to the recorded
  password is then taken for unchanged: nothing is pushed, and its version is stamped. A clean pass
  leaves the fleet on the Secret's password exactly when that password is not the recorded one, or
  the fleet was on it before (`AuthRecord.Reconciler.ReconcileAuth`).
* Widening a passwordless node is not additive (`Rotation.FirstContactBreaksALink`):
  `Rotation.WideningIsSafeExactlyWhen` and `Rotation.WideningASentinelIsSafeExactlyWhen` say when its
  links survive.
* The validator accepts a password that contains the placeholder text itself, and no node with a
  password directive boots with it (`InitScript.AcceptedPasswordThatCannotBoot`; exact condition on
  `InitScript.Prepare`).
* "Dataset replaced" can be recorded although the payload was thrown away: when a boot after the
  deadline falls between a pass's expiry check and its look for the payload
  (`Restore.LateProbeMisreportsTheDataset`). It is true exactly when no boot came upon the run's
  payload past its deadline (`Restore.PersistedPhasesTellTheTruth`).
* The quiesce is broken by a drift-repair pass that began before the breadcrumb was written
  (`Restore.StraddlingPassBreaksTheQuiesce`): a sentinel has lost the raised value exactly when such
  a pass set it back (`Restore.QuiesceIsHeld`).
* A stale account declared again after the prune pass listed the RedisUsers is deleted under its new
  owner (`AclPrune.RedeclaredOrphanIsDeleted`): whether a pass deletes a name is settled by what it
  read, enumerated and listed, and by nothing since (`AclPrune.DeletionIsDueExactlyWhen`). A pass can
  also drop the record of an account made meanwhile (`AclPrune.PruneForgetsALiveAccount`), so a live
  account can be without a record: a name stays on it exactly until a drop
  (`AclPrune.RecordedExactlyUntilADrop`), and a pass drops exactly its orphans
  (`AclPrune.ForgettingDropsExactlyWhen`).
* A master address with more than one colon (an IPv6 host) is not taken apart: host and port are
  recovered exactly when neither has a colon (`Failover.Ipv6AddressStaysWhole`,
  `Failover.ParsesExactlyWhen`).
* A pod with an empty name would take its whole cluster's baselines along, and only such a one
  (`Metrics.NamelessPodTakesAnother`, `Metrics.ForgettingAPodSparesTheOthers`).

## Model

| member | source | states |
|---|---|---|
| Rotation.RotationNeverBreaksALink | internal/controller/redissentinel_controller.go:762-857 | over any sequence of pushes, towards any passwords, each stopping at any command with or without effect, no node ever presents a credential that a node it dials refuses |
| Rotation.CompletedPushConverges | internal/controller/redissentinel_controller.go:773-857 | once switch and narrow are acknowledged everywhere, every node accepts exactly and presents exactly the new password |
| Rotation.AbortedPushStaysReachable | internal/controller/redissentinel_controller.go:762-876 | for one previous/desired pair, every node in every aborted state answers to one of the two; the recorded one is listed everywhere exactly while no narrowing took effect |
| Rotation.NewerPasswordAfterAbortedNarrowLocksOut | internal/controller/redissentinel_controller.go:716-717 | a run after which a node answers to neither the recorded nor a newer desired password |
| Rotation.NewerPasswordIsReachableExactlyWhen | internal/controller/redissentinel_controller.go:773-876 | after any aborted pushes from p towards d, every node answers to p or to a third password exactly as long as no narrowing command took effect |
| Rotation.WideningIsSafeExactlyWhen | internal/controller/redissentinel_controller.go:823-833 | adding a password to a redis node keeps the links into it exactly when a nopass node's peers already present a listed password or the new one |
| Rotation.FirstContactBreaksALink | internal/controller/redissentinel_controller.go:823-833 | two redis nodes without a password, whose link breaks when one of them is given its first |
| Rotation.WideningASentinelIsSafeExactlyWhen | internal/controller/redissentinel_controller.go:829-833 | the same for a sentinel and the passwords its fellow sentinels present |
| Rotation.OnlyNarrowingDropsThePassword | internal/sentinel/sentinel.go:181-233 | of all pool and node commands only narrowing takes the old password away, and it always does |
| Rotation.RunKeepsLinks | internal/controller/redissentinel_controller.go:773-857 | the invariant behind link safety, without help from nopass users, and that acknowledged commands stay in place |
| CredentialPush.Operator.Transmit | internal/controller/redissentinel_controller.go:773-857 | one command: refused credentials have no effect, an acknowledged command took effect, and the step belongs to the run |
| CredentialPush.Operator.DialWithEither | internal/controller/redissentinel_controller.go:861-876 | dials with the new password, then the previous one; over a reliable network it connects exactly when the node answers to one of them |
| CredentialPush.Operator.DialAll | internal/controller/redissentinel_controller.go:792-806 | every node is dialled before anything is written; over a reliable network it fails exactly when one node answers to neither password |
| CredentialPush.Operator.RedisPhase | internal/controller/redissentinel_controller.go:823-857 | one phase over the redis nodes acknowledges each of them or stops, and keeps the dialled credentials good until narrowing |
| CredentialPush.Operator.SentinelPhase | internal/sentinel/sentinel.go:181-233 | one phase over the sentinels, each with the new password first and the previous one second |
| CredentialPush.Operator.PushCredentials | internal/controller/redissentinel_controller.go:773-857 | the whole push refines the transition system; reported success means convergence; over a reliable network it succeeds exactly when every node answers to one of the two passwords, and does not even begin when a redis node answers to neither |
| CredentialPush.Operator.PushUntilDone | internal/controller/redissentinel_controller.go:762-876 | from a converged fleet, after any number of pushes of one pair that failed anywhere, one that meets no failure is not locked out and converges the fleet |
| AuthRecord.Reconciler.WriteApplied | internal/controller/redissentinel_controller.go:727-760 | the record write: done when acknowledged, done or not done otherwise |
| AuthRecord.Reconciler.ReconcileAuth | internal/controller/redissentinel_controller.go:635-760 | every non-empty stamp is the version on record; the recorded password moves only to a valid one the whole fleet then accepts and presents; degraded passes leave the record alone and carry its version forward. Where nothing fails on the way, a valid password is stamped with the Secret's version exactly when it is the recorded one or every node answers to it or to the recorded one, and a changed one has then converged the fleet; an unchanged or rejected one is pushed to nobody |
| AuthRecord.RunPasses | internal/controller/redissentinel_controller.go:635-760 | over any sequence of Secret edits and passes, the recorded password is one the fleet was converged to during the run |
| AuthRecord.LaterStillConvergedDuring | internal/controller/redissentinel_controller.go:635-760 | convergence reached in a run stays part of its history however the run goes on |
| Restore.PersistedPhasesTellTheTruth | internal/controller/redisrestore_controller.go:304-482 | whatever fails and interleaves, each persisted phase says how far the run touched the dataset; "replaced" is true exactly when no boot came upon this run's payload past its deadline; Completed has the dataset replaced, no breadcrumb, keys restored, AOF on and nothing staged |
| Restore.QuiesceIsHeld | internal/controller/redisrestore_controller.go:353-385 | from the shutdown until this run lifts the quiesce, ends or is deleted, at least the spec's sentinels run, and each keeps the raised value of 600 seconds exactly as long as no repair pass begun before the breadcrumb was written has set it back; without such a pass all of them do |
| Restore.TerminalRunIsQuiet | internal/controller/redisrestore_controller.go:150-172 | a terminal phase for the current generation admits no further effect of a pass |
| Restore.LivePayloadIsNeverDiscarded | internal/controller/redisrestore_controller.go:646-648 | a boot while the owning run is not half an hour old loads that run's staged payload |
| Restore.BootHonoursTheDeadline | internal/builder/configmap.go:226-256 | a boot loads a payload exactly when it was staged no more than half an hour ago, in whole seconds; otherwise payload and marker go and dataset and AOF stay |
| Restore.StepKeepsInv | internal/controller/redisrestore_controller.go:124-482 | every effect of the reconciler and every move of the environment keeps the protocol's invariant |
| Restore.ReachableInv | internal/controller/redisrestore_controller.go:124-482 | the invariant holds in every reachable state, from a volume that may still hold an earlier payload |
| Restore.StraddlingPassBreaksTheQuiesce | internal/controller/redissentinel_controller.go:1342-1453 | a reachable state with the master shut down and a sentinel back at its normal value, through a repair pass that straddles the breadcrumb write |
| Restore.LateProbeMisreportsTheDataset | internal/controller/redisrestore_controller.go:304-345 | a reachable Verifying state that claims a replaced dataset no payload was loaded into |
| RestoreSettings.BreadcrumbIsTheSpecs | internal/controller/redisrestore_controller.go:353-370 | in every reachable state the value recorded to be put back is the spec's, or 5000 where the spec has none |
| RestoreSettings.SentinelsAreBack | internal/controller/redisrestore_controller.go:460-482 | once a restore is completed, every sentinel is at the spec's down-after, and so it is when a failing run is about to clear its breadcrumb |
| RestoreSettings.ReachableSettled | internal/controller/redisrestore_controller.go:744-775 | the invariant behind it, over every effect, crash and repair pass: sentinels a clean broadcast has reached are back |
| RestoreEffects.SweptVolumeIsEmpty | internal/controller/redisrestore_controller.go:604-645 | where a sweep got through, no payload is left for a boot to load, whatever became of the answer |
| RestoreCalls.NothingFollowsTheLastStep | internal/controller/redisrestore_controller.go:258-482 | in every pass, nothing is issued after the shutdown or a status write |
| RestoreCalls.PayloadFollowsItsMarker | internal/controller/redisrestore_controller.go:874-893 | a payload is put in place only right after its marker was |
| RestoreCalls.RestoringIsEarned | internal/controller/redisrestore_controller.go:289-298 | Restoring is written only with marker and payload both in place |
| RestoreCalls.ShutdownIsEarned | internal/controller/redisrestore_controller.go:304-385 | the shutdown is issued only with the payload seen in place, the breadcrumb recorded, and an acknowledgement from every sentinel |
| RestoreCalls.CompletedIsEarned | internal/controller/redisrestore_controller.go:408-482 | Completed is written only after keys were found, then AOF turned on, then every sentinel took its value back; the breadcrumb goes with it |
| RestoreCalls.AofComesBeforePuttingBack | internal/controller/redisrestore_controller.go:437-482 | once keys were found, no sentinel is told anything before AOF is on |
| RestoreCalls.ClearedBreadcrumbIsEarned | internal/controller/redisrestore_controller.go:565-598 | a failing run clears its breadcrumb only after the sweep and a broadcast every sentinel took |
| RestoreCalls.SettingsAreTheSpecs | internal/controller/redisrestore_controller.go:353-385 | every value a pass records or puts back is the spec's, given that the recorded one is, and a pass that writes Completed has put it back on every sentinel |
| RestoreCalls.UnrefusedPassAdvances | internal/controller/redisrestore_controller.go:124-482 | a pass in which no call is refused and enough sentinels run takes the run on by its next step, unless it fails it |
| RestorePass.Reconciler.Reconcile | internal/controller/redisrestore_controller.go:124-214 | a whole pass, whatever the world does between its effects: each effect has here what it has in the protocol, the calls come in order, the phase moves along one edge at most, and the pass stops early only if it is killed, a read or call fails, or too few sentinels run; a finished run issues nothing. A run begins afresh with the time of its pass, is failed before anything else exactly for an unusable cluster, backup or destination or for lateness, records and puts back exactly the spec's down-after, and writes Completed only once every sentinel took it |
| RestorePass.Reconciler.Act | internal/controller/redisrestore_controller.go:137-214 | the same for an object that is there, in terms of what the pass read of it |
| RestorePass.Reconciler.Handle | internal/controller/redisrestore_controller.go:193-214 | the handler of the phase fails the run before anything else exactly for the reasons that phase has |
| RestorePass.Reconciler.EveryInstantIsReachable | internal/controller/redisrestore_controller.go:124-482 | every instant of every history of passes is a reachable state, so the theorems of Restore hold in it |
| RestorePass.Reconciler.HandlePending | internal/controller/redisrestore_controller.go:218-253 | passing checks end in one write of Downloading; an unusable cluster or backup in one of Failed; anything else issues nothing |
| RestorePass.Reconciler.StagePayload | internal/controller/redisrestore_controller.go:874-893 | the marker first, its deadline counted from the staging, then the payload; reported done only with both in place, and the status is left alone |
| RestorePass.Reconciler.HandleDownloading | internal/controller/redisrestore_controller.go:258-298 | a good download is staged beginning with a marker whose deadline counts from now; a bad one ends in the write of Failed; a failed one issues nothing |
| RestorePass.Reconciler.HandleRestoring | internal/controller/redisrestore_controller.go:304-385 | a run more than half an hour old ends in the write of Failed; any other looks for its payload first, once the master is found |
| RestorePass.Reconciler.HandleVerifying | internal/controller/redisrestore_controller.go:390-482 | likewise: too old, it ends in the write of Failed; otherwise the master is checked first, once found |
| RestorePass.Reconciler.LookForPayload | internal/controller/redisrestore_controller.go:317-385 | the pass first looks; a payload that is gone ends it with one status write; one that is there leads to the breadcrumb and the quiesce, in order, up to the last step, a failed call or too few sentinels |
| RestorePass.Reconciler.QuiesceAndShutDown | internal/controller/redisrestore_controller.go:371-385 | the shutdown is the last call exactly when no sentinel refused the raised value; the persisted status does not change |
| RestorePass.Reconciler.CheckDataset | internal/controller/redisrestore_controller.go:408-436 | the pass first checks the master; a lost role or an empty dataset ends in the write of Failed |
| RestorePass.Reconciler.LiftAndComplete | internal/controller/redisrestore_controller.go:460-482 | Completed is the last write exactly when no sentinel refused its value back |
| RestorePass.Reconciler.FailRestore | internal/controller/redisrestore_controller.go:565-598 | ends in the write of Failed, after the sweep, AOF if the dataset was replaced, and a broadcast to every sentinel if the quiesce is up |
| RestorePass.Reconciler.LiftForFailure | internal/controller/redisrestore_controller.go:762-775 | clears the breadcrumb of a failing run exactly when every sentinel took its value back |
| RestorePass.Reconciler.RejectDestination | internal/controller/redisrestore_controller.go:494-537 | a refused destination ends in the write of Failed, and no sentinel is told anything |
| RestorePass.Reconciler.Broadcast | internal/sentinel/sentinel.go:168-179 | every address is told whatever happened to the others; clean exactly when none refused |
| RestorePass.Reconciler.BootContainer | internal/builder/configmap.go:238-256 | the init script's restore branch leaves no payload, and turns AOF off exactly for one whose marker is current |
| RestorePass.Reconciler.MoveDrift | internal/controller/redissentinel_controller.go:1342-1453 | what drift repair does here is what it does in the protocol |
| DriftRepair.RestoreHoldingQuiesce | internal/controller/redissentinel_controller.go:1437-1453 | names a restore exactly when one of this cluster has its breadcrumb set and is not terminal |
| DriftRepair.Sentinels.Repair | internal/controller/redissentinel_controller.go:1374-1408 | one sentinel: every option is as it was or at the spec, and a clean repair has all desired ones at the spec |
| DriftRepair.Sentinels.SyncMonitorConfig | internal/controller/redissentinel_controller.go:1342-1424 | while a restore holds the quiesce, or cannot be looked up, no down-after value changes; success means all other options, and down-after when nobody holds it, are at the spec; what it does to down-after is a drift-repair pass of the restore protocol |
| BackupUpload.UploadWriter.FlushPart | internal/controller/redisbackup_controller.go:757-789 | appends one part with the next number, creating the upload with the first; a failure stores nothing |
| BackupUpload.UploadWriter.Write | internal/controller/redisbackup_controller.go:736-755 | everything accepted is in full parts and the buffer, in order |
| BackupUpload.UploadWriter.Finish | internal/controller/redisbackup_controller.go:793-820 | stores one object equal to everything accepted with exactly one request: whole if it fills no part, otherwise by completing parts numbered 1..n, all but the last of exactly the part size; reports its length |
| BackupUpload.UploadWriter.Abort | internal/controller/redisbackup_controller.go:822-832 | leaves the bucket as it was found, with no upload open |
| BackupUpload.HeaderWriter.Write | internal/controller/redisbackup_controller.go:692-716 | passes nothing on before five bytes are known to be the magic, nothing at all of a stream it rejects, and otherwise everything, once, in order |
| BackupUpload.StreamBackup | internal/controller/redisbackup_controller.go:838-904 | for every cut of the dump into writes and every schedule of failures: one request that stores one object, the encoding of exactly the bytes delivered cut into parts as above, or no request and the bucket untouched; over a reliable store it succeeds exactly for dumps that start with the magic |
| BackupUpload.AssembledIsFlattened | internal/controller/redisbackup_controller.go:793-820 | completing parts 1..n yields their concatenation |
| BackupUpload.PlainIsIdentity | internal/controller/redisbackup_controller.go:838-904 | without compression the stored bytes are the bytes written |
| Retention.PrefixEndsInIdentity | internal/controller/redisbackup_controller.go:974-983 | for every spec prefix, cleaned or not, the object prefix ends in namespace, cluster and name |
| Retention.PrefixDeterminesIdentity | internal/controller/redisbackup_controller.go:974-983 | equal object prefixes force equal namespace, cluster and name |
| Retention.DirectChildOfOne | internal/controller/redisbackup_controller.go:988-995 | a key is a candidate under at most one prefix |
| Retention.NoObjectIsShared | internal/controller/redisbackup_controller.go:974-995 | no object key is a retention candidate of two different RedisBackups |
| Retention.UploadedKeyIsOwn | internal/controller/redisbackup_controller.go:847-850 | every uploaded key is a candidate of its own backup |
| Retention.CandidateExactlyWhen | internal/controller/redisbackup_controller.go:988-995 | a key is a candidate exactly if it is the prefix, backup-, anything without a slash, and .rdb or .rdb.gz |
| Retention.PlainPrefixStays | internal/controller/redisbackup_controller.go:974-983 | a spec prefix of ordinary segments stays in front of namespace, cluster and name as it is |
| Retention.DnsNamesAreAccepted | internal/controller/redisbackup_controller.go:974-978 | every name of lower-case letters, digits and dashes is accepted |
| Retention.OwnIsExactly | internal/controller/redisbackup_controller.go:1025-1029 | the filter keeps exactly the candidates, each as often as it is listed |
| Retention.FailuresAreReported | internal/controller/redisbackup_controller.go:1041-1049 | a key is reported exactly if its delete failed |
| Text.LeqExactlyWhen | internal/controller/redisbackup_controller.go:1034-1036 | keys are ordered by their characters: prefixes first, then the smaller character at the first difference |
| Retention.SortedPrefixIsOldest | internal/controller/redisbackup_controller.go:1032-1042 | what is cut off the head of the sorted list and what stays split the listing, exactly the retention count stays if there are as many, and everything cut off is older than everything that stays, or as old with an earlier key |
| Retention.Bucket.ListOwn | internal/controller/redisbackup_controller.go:1015-1030 | however the listing is cut into pages, the candidates are the own objects of all of it, and an object is among them exactly if it is a candidate on some page; one failed page fails it |
| Retention.Bucket.DeleteFirst | internal/controller/redisbackup_controller.go:1040-1050 | every delete is requested once, in order, whatever became of the others; exactly the failed ones are reported |
| Retention.Bucket.CleanupOldBackups | internal/controller/redisbackup_controller.go:1000-1050 | the deletes attempted are exactly the n-k oldest own backups, by time and then key, every failed one is reported, and no other object is touched |
| AclRules.AcceptedRuleIsConfined | internal/controller/redisuser_controller.go:534-680 | an accepted rule never touches credentials or state, adds nothing beyond its own grant, and stays inside its field |
| AclRules.AdditionIsGranted | internal/controller/redisuser_controller.go:640-680 | what the server adds for an accepted + rule is what the validator granted, upper case and folding Unicode letters included |
| AclRules.OpeningForgetsThePast | internal/controller/redisuser_controller.go:722-731 | after reset, password and on/off the account is a constant |
| AclRules.RemovalsEvaluate | internal/controller/redisuser_controller.go:462-466 | the trailing removals leave nothing of what they name |
| AclRules.RenderedUserIsConfined | internal/controller/redisuser_controller.go:722-745 | for every accepted spec, prior account and assignment of commands to categories, the account is independent of the past and allows nothing the floor removes, nothing outside the accepted grants, and no command, key or channel that was not asked for |
| AclScope.RenderedUserIsExact | internal/controller/redisuser_controller.go:717-745 | what the account has, in both directions: all keys exactly if a rule opens them and none after it resets them, otherwise exactly the patterns no later rule resets; the same for channels; exactly the commands a + rule adds, no later rule takes away, and that are neither in the categories admin and dangerous nor one of the six floor commands |
| AclScope.ScopeExactly | internal/controller/redisuser_controller.go:722-745 | one field of accepted rules, from any scope it starts with |
| AclScope.CommandsExactly | internal/controller/redisuser_controller.go:722-745 | the same for commands, from any set of commands it starts with |
| AclScope.RenderedUserIsTaken | internal/controller/redisuser_controller.go:722-745 | the server takes the rendered rules of every accepted spec whose names it knows, if no pattern follows a rule that opens everything |
| AclScope.PatternsAreAccepted | internal/controller/redisuser_controller.go:534-640 | every key and channel pattern without white space and parentheses is accepted |
| AclScope.CommandsAreAcceptedExactlyWhen | internal/controller/redisuser_controller.go:640-680 | a command may be removed always, and added exactly if the policy allows it |
| AclScope.CategoriesAreAcceptedExactlyWhen | internal/controller/redisuser_controller.go:640-680 | a category may be removed always, and added exactly if it is known and neither all, admin nor dangerous |
| AclPrune.PruneSparesDeclaredAccounts | internal/controller/redissentinel_controller.go:1582-1744 | every DELUSER of a pass, in any interleaving, is for a valid, recorded name that was on the node when enumerated and that nobody declared when the RedisUsers were then listed |
| AclPrune.OrphanExactlyWhen | internal/controller/redissentinel_controller.go:1582-1637 | what a pass takes for an orphan: exactly a valid name that was recorded when it read the record and that nobody declared when it then listed the RedisUsers |
| AclPrune.DeletionIsDueExactlyWhen | internal/controller/redissentinel_controller.go:1582-1744 | at any moment after the List, a name may be deleted from a node exactly if it is valid, was recorded at the read, was on the node at the enumeration, and was declared by nobody at the List |
| AclPrune.DeclaredSinceEnumerationIsSpared | internal/controller/redissentinel_controller.go:1604-1637 | a name a RedisUser declares from the enumeration of a node up to the deletion is not deleted there |
| AclPrune.AppliedAndDeclaredIsSpared | internal/controller/redissentinel_controller.go:1604-1637 | an account a RedisUser applied to a node before it was enumerated, and has declared ever since, is not deleted there |
| AclPrune.UndeclaredBeforeDeletion | internal/controller/redissentinel_controller.go:1604-1637 | between a node's enumeration and a deletion there is a moment at which a given RedisUser does not declare the name |
| AclPrune.ReservedAccountsStay | internal/controller/redisuser_controller.go:242-258 | neither controller ever removes 'default' or another name it would not write |
| AclPrune.DefaultAccountStays | internal/controller/redisuser_controller.go:443-451 | no run of either controller takes the account named default off a node |
| AclPrune.PlainNamesAreValid | internal/controller/redisuser_controller.go:443-460 | of the names of letters and digits, default alone is one the operator would not write |
| AclPrune.RecordIsLostOnlyByADrop | internal/controller/redisuser_controller.go:373-434 | a recorded name stays recorded until a drop; a pass that drops it listed nobody declaring it |
| AclPrune.RecordedExactlyUntilADrop | internal/controller/redisuser_controller.go:373-434 | a recorded name is on the record throughout exactly if nothing dropped it |
| AclPrune.ForgettingDropsExactlyWhen | internal/controller/redissentinel_controller.go:1582-1682 | a pass that ends well drops a name exactly if it is valid, was recorded at its read, and was declared by nobody at its List |
| AclPrune.RedeclaredOrphanIsDeleted | internal/controller/redissentinel_controller.go:1610-1648 | a run that deletes a declared, freshly applied account written after the List |
| AclPrune.PruneForgetsALiveAccount | internal/controller/redissentinel_controller.go:1676-1681 | a run that ends with an applied, declared account and no record of it |
| AclPruner.Cluster.Enumerate | internal/controller/redissentinel_controller.go:1689-1709 | an unreadable node is reported, never taken for an empty one |
| AclPruner.Cluster.FindOrphans | internal/controller/redissentinel_controller.go:1620-1637 | exactly the recorded, valid, undeclared names, in order, once each |
| AclPruner.Cluster.DeleteAccounts | internal/controller/redissentinel_controller.go:1715-1744 | each enumerated node loses exactly the orphans it held and took the command for; no failure is missed; every node with a removal has its aclfile saved if it can be, whatever happens on the others; each deletion is a step of AclPrune |
| AclPruner.Cluster.Prune | internal/controller/redissentinel_controller.go:1582-1682 | the pass fails closed and is a run of AclPrune; it is complete exactly when every node was reached, every removal saved and the spec's size covered; then no orphan is left, and the names leave the record unless that write fails |
| InitScript.Quote | internal/builder/configmap.go:176-185 | the quoting loop builds the escaped, quoted token |
| InitScript.Substitute | internal/builder/configmap.go:186-194 | the substitution loop terminates and equals left-to-right replace-all |
| InitScript.PasswordSurvivesTheConfig | internal/builder/configmap.go:171-196 | substituting and then tokenizing a directive gives back its words and exactly the original password, for every password |
| InitScript.QuotedDecodes | internal/builder/configmap.go:171-185 | the config tokenizer undoes the quoting, whatever follows the token |
| InitScript.PlaceholderSurvivesExactlyWhen | internal/builder/configmap.go:198-205 | the guard sees a placeholder exactly when the line had one and the password contains it |
| InitScript.Prepare | internal/builder/configmap.go:171-205 | the script goes on exactly when no placeholder is demanded, or the password is there and does not contain it |
| InitScript.AcceptedPasswordThatCannotBoot | internal/builder/configmap.go:24-39 | an accepted password, the placeholder itself, that the guard refuses |
| InitScript.AsciiPasswordIsValidExactlyWhen | internal/builder/configmap.go:24-39 | of ASCII passwords, exactly those of printing characters without blank, double quote and backslash are accepted |
| InitScript.TwoWordsExactlyWhen | internal/builder/configmap.go:221 | awk finds two words at the front of a line exactly if it begins with them, blanks around them |
| InitScript.FirstWordExactlyWhen | internal/builder/configmap.go:500 | the same for one word |
| InitScript.RebuildAcl | internal/builder/configmap.go:208-224 | the lines kept stand in the file at increasing positions, exactly those whose first two words are not user default, and one default-user line with the credential comes last |
| InitScript.AclRebuildLaws | internal/builder/configmap.go:208-224 | every other line is there as often as before, the new line exactly once; rebuilding twice equals rebuilding with the last |
| InitScript.RebuildSentinel | internal/builder/configmap.go:482-511 | likewise: exactly the lines that carry no credential stay, verbatim and in order, and the three credential lines of the password come last, or none for an empty one |
| InitScript.DropCredentials | internal/builder/configmap.go:482-505 | the awk filter alone |
| InitScript.SentinelRebuildLaws | internal/builder/configmap.go:482-511 | every other line is there as often as before; rebuilding twice equals rebuilding with the last |
| InitScript.KeepThins | internal/builder/configmap.go:208-224 | what the filter keeps stands in the file at increasing positions, and the positions left out are exactly those of dropped lines |
| ConfigHash.ConfigText | internal/builder/statefulset.go:47-60 | whatever order the map enumerates its keys in, the loop feeds the same text |
| ConfigHash.CanonicalIffSame | internal/builder/statefulset.go:50-56 | sorted lines are equal exactly when the lines are equal as multisets |
| ConfigHash.ConfExactlyWhen | internal/builder/statefulset.go:51 | a key is a configuration file exactly if it ends in .conf |
| ConfigHash.TextParses | internal/builder/statefulset.go:57-58 | the text can be taken apart into keys and values again |
| ConfigHash.TextEqualExactlyWhenSameConfig | internal/builder/statefulset.go:47-60 | equal text exactly for the same keys, the same .conf lines as multisets and identical other values |
| Metrics.KeysAreDistinct | pkg/metrics/metrics.go:360-363 | two label sets never collide on one tracking key |
| Metrics.ForgetIsExact | pkg/metrics/metrics.go:532-548 | forgetting matches exactly the keys of the pod, or of the cluster |
| Metrics.ForgettingAPodSparesTheOthers | pkg/metrics/metrics.go:532-548 | no other pod's baseline is dropped, exactly when the pod has a name |
| Metrics.NamelessPodTakesAnother | pkg/metrics/metrics.go:532-548 | the key of a named pod that forgetting a nameless one takes along |
| Metrics.CounterNeverDecreases | pkg/metrics/metrics.go:438-474 | over any events that leave a series alive, its samples grow at the end and its counter never decreases |
| Metrics.RisingTelescopes | pkg/metrics/metrics.go:447-474 | over one lifetime of a node the counter advances by the difference of the last and the first sample |
| Metrics.RestartCountsFromZero | pkg/metrics/metrics.go:438-446 | a sample below the last one is a restart: all of it counts, and then what follows |
| Metrics.SampledHistory | pkg/metrics/metrics.go:447-450 | every finite sample that is not negative is counted, zero included, for its own series only |
| Metrics.UnusableIsIgnored | pkg/metrics/metrics.go:447-450 | not-a-number, infinite and negative samples are not |
| Metrics.GonePodsEnd | pkg/metrics/metrics.go:508-530 | when a pod list follows another, exactly the series of the pods gone from it end |
| Metrics.DeletedClusterEnds | pkg/metrics/metrics.go:479-489 | a deletion ends exactly the series of its cluster |
| Metrics.SampleIsFaithful | pkg/metrics/metrics.go:447-474 | a counted sample leaves exactly the state its longer history calls for |
| Metrics.RemovalIsFaithful | pkg/metrics/metrics.go:479-530 | a removal leaves exactly the state the history calls for, label sets of baselines and exports still equal |
| Metrics.Sweep | pkg/metrics/metrics.go:541-547 | deletes exactly the matching keys of one vector |
| Metrics.Registry.AddCounterDelta | pkg/metrics/metrics.go:447-474 | keeps counter = sum of increases since the baseline; unusable samples change nothing |
| Metrics.Registry.SyncClusterPods | pkg/metrics/metrics.go:508-530 | drops exactly the series of pods reported before and gone now |
| Metrics.Registry.DeleteClusterSeries | pkg/metrics/metrics.go:479-489 | drops exactly the cluster's series, baselines and pod list |
| Failover.ParsesExactlyWhen | internal/controller/redissentinel_controller.go:1885-1901 | host:port is recovered exactly when neither part has a colon; otherwise the whole address is the host; a host alone gets port 6379 |
| Failover.Ipv6AddressStaysWhole | internal/controller/redissentinel_controller.go:1885-1901 | an address with an IPv6 host, of which neither host nor port is recovered |
| Failover.FormerIsElsewhere | internal/controller/redissentinel_controller.go:1533-1557 | however the former master is written, it is not dialled at the new master's host |
| Failover.Fleet.EnsureReplicasFollow | internal/controller/redissentinel_controller.go:1803-1863 | commands go only to other running pods that do not follow yet; every one that answers and takes it follows in the end |
| Failover.Fleet.RepointStrays | internal/controller/redissentinel_controller.go:1752-1800 | only replicas of something else are told anything; whatever claims to be a master is left alone |
| Failover.Fleet.DemoteFormer | internal/controller/redissentinel_controller.go:1533-1557 | the former master is told exactly if its address names another host, and follows if it took the command |
| Failover.Fleet.HandleFailover | internal/controller/redissentinel_controller.go:1483-1565 | no SLAVEOF unless quorum was healthy and the re-queried master is the detected one, never one to that master's host for host:port addresses; the former master is told first, if it is another host, and all other running pods that take their command follow |

## Left out

* Everything between the operator and the API server: caching, conflict retries, events, condition messages. A write of persisted state either takes effect or does not, and is either acknowledged or not.
* What happens inside S3, an exec session, a TLS connection or a gzip stream. A call succeeds or fails; the encoder is any stateful function.
* CredentialPush.Operator.PushCredentials: the fleet it moves is the one it found; a pod that restarts, joins or leaves half-way is not followed.
* BackupUpload.StreamBackup: a request that fails has done nothing, and an abort always works. Buffers are sequences here, so the code's reuse of one slice in place is not visible.
* RestoreSettings.BreadcrumbIsTheSpecs: the spec's down-after does not change during a run.
* Restore.QuiesceIsHeld: one restore drives the cluster, the set of sentinels stays, and Sentinel does not elect another master meanwhile.
* Restore.BootHonoursTheDeadline: the restore branch of the boot happens at once, as does each file write or rename; a staging script ends with its container, and with the operator, although in the code it may run on after the operator has died and rename the payload later. The master, the cluster object and the destination allow-list stay what they were.
* RestorePass.Reconciler.Reconcile: what a phase reads before it acts (keyspace sizes, the backup object, the download, the master pod, the role and keyspace of the restarted master) arrives as one answer. Moving the old AOF out of the way for good, and the key count the backup recorded, are not there.
* AclPrune.PruneSparesDeclaredAccounts: each read is of the latest object, not of the operator's informer cache.
* AclPruner.Cluster.Prune: its loops run with nobody else moving; AclPrune is where others do. An aclfile whose save failed stays as it is, so a name off the record may still come back with it.
* AclRules.RenderedUserIsConfined: SETUSER knows the rule forms the validator can let through. The command table, the permitted commands and the categories are whatever sets one likes; rules on a command's first argument, and what is inside a selector, are not modelled.
* Metrics.Registry.AddCounterDelta: values are real numbers, without the rounding of floats, and a call is one step, although the code advances the counter after it has let go of its lock.
* Failover.Fleet.HandleFailover: what the two Sentinel queries answer is given; of an address with several colons only the parse is claimed.
* InitScript.RebuildAcl: the credential is any text where the code puts a digest; creating, renaming and protecting the file are left to the shell.
* ConfigHash.ConfigText: SHA-256 itself; the claim is about what goes into it.
* Rendering and checking custom configuration, and everything that only builds a Kubernetes object.
* When things run: schedules, polling, requeues. How they show: status, labels, the sentinel event watcher. How they start: `cmd/main.go` and the admission rules of the CRDs.
