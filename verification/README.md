# Verification of the AI provider gateway's core protocols

A Dafny model of the parts of the gateway whose correctness depends on order, interruption and
interleaving, with proofs that hold for every input, run and schedule of the model.

| files | what they model |
|---|---|
| `UpdateProtocol`, `UpdateRuns`, `UpdateCompletion`, `UpdateAtomicity`, `UpdateManager` | replacing the Sidecar's binary and manifest: a state machine of file steps, its runs with exceptions and crashes, what operations leave behind when nothing fails, their all-or-nothing theorems, and the manager whose methods take those steps |
| `SseLines`, `ClosingStream` | rewriting of event-stream lines and token usage, and the stream that closes its upstream and accounts for the request once |
| `ModelCatalogue`, `ModelRegistry` | identifiers, what the registry's operations mean for its two tables, and the transactions that carry them out |
| `ProviderStore` | validation of configured providers, their protected storage and the replacement of provider and catalogue together |
| `ConfigText`, `SidecarConfig`, `ProxyPlacement` | the printed Sidecar configuration, the checker that reads it back, its proxy setting, and where accepted texts may have that |
| `AdminSessions`, `PasswordRecovery` | administrator sessions, and password recovery running beside them |
| `Lifecycle` | ownership of the Sidecar processes that a manager has spawned, and its stop and readiness loops |
| `QuotaRows`, `QuotaCache` | the quota table and the throttled cache over it |
| `GatewayKeys` | creation, two-step authentication and revocation of gateway keys |
| `Text`, `Wrappers` | string operations, and options and results |

Each protocol is a total step function over a state value, with events for the stretches of code that
run without interruption, and lemmas over all event sequences. Classes with the program's fields carry
out the same operations with loops and assignments, and their contracts equate the new state with the
step function applied to the old one, or with a run of it. `dafny verify dfyconfig.toml` checks everything.

Some promises do not hold of the code in general. For each the exact condition is proved; the second column
says what fails, and names the lemma that shows it where there is one:

| promise | fails for | holds exactly |
|---|---|---|
| an interrupted install leaves the old pair or the new one | `UpdateAtomicity.EarlierMarkerIsRestored`: begun beside a marker that an earlier failure left | `UpdateAtomicity.EarlierMarkerDecides`, and `UpdateAtomicity.MarkedIsAllOrNothing` once it has written its own marker |
| recovery restores the backup the marker records | `UpdateRuns.SomeRecordedIsNotChosen`: a recorded name outside the safe pattern, beside a newer backup | `UpdateRuns.RecordedIsChosenIff` |
| a stored model resolves by its canonical identifier | `ModelCatalogue.LongIdIsStored` | `ModelCatalogue.StoredModelResolvesToItself`: up to 512 characters |
| a stream that is closed is accounted for | `ClosingStream.UnreadGeneratorIsNotAccounted` | `ClosingStream.AccountedUnlessAbandoned`: unless it is a generator closed before its first read |
| a written proxy setting is accepted again | `SidecarConfig.QuotedZoneLocksConfig` | `SidecarConfig.ReadAfterWrite`: no quote, and its own normal form |
| an accepted configuration is the printed one | `ProxyPlacement.AcceptedWithProxyNeedNotBePrinted` | `ProxyPlacement.AcceptedIsPrintedIff`, `ProxyPlacement.AcceptedWithProxyIff`; always without a proxy |
| a provider change that ends in an error changes nothing | `ProviderStore.SomeCommitEndsInError`: a commit beside other headers that do not load; an empty discovery, which records a failure | `ProviderStore.CommitEndsInErrorIff` for replacements, `ProviderStore.DiscoveryEndsInErrorIff` for discoveries |
| a recovery completes before its challenge expires | `PasswordRecovery.CompletionMayEndLate`: the clock moves on between the call's reading and its last step | `PasswordRecovery.EndsLateIff`: as long as neither the first clock value nor any tick has reached the expiry; in every case its call's reading is before it (`PasswordRecovery.RecoveryIsSafe`) |
| a child that never exits is killed | `Lifecycle.SomeStuckChildIsNotKilled`: an interval that is not positive with a timeout that is | `Lifecycle.StuckChildIsKilledIff` |

## Model

| member | source | states |
|---|---|---|
| UpdateRuns.RunsAreSafe | src/ai_provider_gateway/sidecars/cliproxy/updater.py:225-440 | From any safe state, after any sequence of installs, rollbacks and recoveries in which every file step may complete, raise or be cut short: no marker implies that the installed binary matches its manifest, a marker implies that its recorded backup is valid, these operations only ever start matching pairs, and recovery finds a valid source whenever a marker is left behind |
| UpdateRuns.NextKeepsSafe | src/ai_provider_gateway/sidecars/cliproxy/updater.py:308-440 | Each single step, exception, crash or beginning of an operation keeps that invariant, including the steps of recovery itself |
| UpdateAtomicity.InstallIsAllOrNothing | src/ai_provider_gateway/sidecars/cliproxy/updater.py:308-353 | Through any crashes, exceptions and recoveries, of an install that began without a marker or has written its own over an earlier one: while the marker stands recovery restores the pair from before the install; once it is gone and nothing is in progress, the installed pair is the candidate if the install archived its marker and otherwise the old pair. For a backup whose name matches the safe pattern or that is newer than all others |
| UpdateAtomicity.RollbackIsAllOrNothing | src/ai_provider_gateway/sidecars/cliproxy/updater.py:389-424 | The same of a rollback: the files of the backup that was latest if it archived its marker, otherwise the current pair if that was valid |
| UpdateAtomicity.MarkedIsAllOrNothing | src/ai_provider_gateway/sidecars/cliproxy/updater.py:320-353 | The invariant behind both, from the moment an operation has written its marker, whatever marker stood there before |
| UpdateAtomicity.EarlierMarkerDecides | src/ai_provider_gateway/sidecars/cliproxy/updater.py:308-322 | An operation begun beside an earlier marker and interrupted before it has written its own leaves the installed pair and the earlier marker; recovery then uses the source of the earlier marker as it was, except that it takes the new backup if the earlier one has no safe name and the new one is the latest, and it restores the installed pair if and only if that source holds it |
| UpdateAtomicity.EarlierMarkerIsRestored | src/ai_provider_gateway/sidecars/cliproxy/updater.py:308-322 | The failing input: an install that crashes in its first step beside an earlier marker whose backup holds other files is followed by a recovery that replaces the valid installed pair |
| UpdateAtomicity.SomeInstallIsNotAllOrNothing | src/ai_provider_gateway/sidecars/cliproxy/updater.py:308-322 | Such a state exists and is safe |
| UpdateCompletion.RecoveryCompletes | src/ai_provider_gateway/sidecars/cliproxy/updater.py:426-440 | In a safe state with a marker a recovery in which no step fails restores and starts its source, archives the marker as recovered, and changes nothing else |
| UpdateCompletion.InstallCompletes | src/ai_provider_gateway/sidecars/cliproxy/updater.py:308-340 | An accepted candidate that is confirmed over a valid installed pair is installed if no step fails: its 18 steps leave exactly the candidate installed and started, the pair it replaced as a new backup with its time, no marker, and one more marker archived as an installation |
| UpdateCompletion.RollbackCompletes | src/ai_provider_gateway/sidecars/cliproxy/updater.py:389-411 | A confirmed rollback with a valid backup, if no step fails, leaves exactly the files of the latest backup installed and started, a valid installed pair kept as a new backup first, and the marker archived as a rollback |
| UpdateCompletion.FailureIsUndone | src/ai_provider_gateway/sidecars/cliproxy/updater.py:341-353 | Whichever step of the guarded block raises, and whatever it leaves behind, a handler in which nothing fails puts back and starts the pair the operation falls back to and archives the marker under the handler's status |
| UpdateCompletion.WhatMayBeLeft | src/ai_provider_gateway/sidecars/cliproxy/updater.py:185-216 | The failures that the theorems reckon with: any step may do nothing, a copy may leave any content, a failed start or stop the Sidecar running or not |
| UpdateCompletion.AnyStepMayFail | src/ai_provider_gateway/sidecars/cliproxy/updater.py:308-440 | A crash ends an operation at any step, an exception before the guarded block, in a recovery or in a handler ends it too, except that a handler's first stop is forgiven |
| UpdateCompletion.WhatCannotBeDone | src/ai_provider_gateway/sidecars/cliproxy/updater.py:202-233 | The steps that can only raise: making a backup directory that exists, saving a file that is missing, accepting a new backup that is not valid, restoring from an incomplete one |
| UpdateCompletion.SourceIsValid | src/ai_provider_gateway/sidecars/cliproxy/updater.py:285-298 | Recovery uses the backup in the marker whenever its name is safe and its files match, and in every case only a backup whose files match |
| UpdateCompletion.NumberedBackupIsSafe | src/ai_provider_gateway/sidecars/cliproxy/updater.py:196-201 | The backup of a version made of letters, digits and dots has a name that recovery takes from the marker |
| UpdateCompletion.NotBegun | src/ai_provider_gateway/sidecars/cliproxy/updater.py:308-320 | Which operations begin and what the others answer: nothing begins unconfirmed, an unconfirmed one is cancelled exactly if its candidate or a valid backup is there, and nothing on the disk changes |
| UpdateCompletion.InstalledIsVerified | src/ai_provider_gateway/sidecars/cliproxy/updater.py:131-149 | However it went, what an install has installed was confirmed, has an identifier of at most 128 characters without a path separator, was tested and matches the checksum in its own manifest |
| UpdateCompletion.OnlyVerifiedPairsStart | src/ai_provider_gateway/sidecars/cliproxy/updater.py:253-271 | In every run these operations start the Sidecar only on a tested pair whose binary matches the checksum in its manifest |
| UpdateRuns.InstallReportsTruly | src/ai_provider_gateway/sidecars/cliproxy/updater.py:308-353 | However an install went, "installed" means that the candidate is installed and the marker gone, "rolled_back" that the old pair is, and a failure that the marker still names a backup holding the old pair |
| UpdateRuns.RollbackReportsTruly | src/ai_provider_gateway/sidecars/cliproxy/updater.py:389-424 | "rolled_back" means that the files of the backup that was latest are installed and the marker is gone; a failure without a marker means that the old pair, if it was valid, is back |
| UpdateRuns.RecoveryReportsTruly | src/ai_provider_gateway/sidecars/cliproxy/updater.py:426-440 | In a safe state recovery never lacks a source, and "rolled_back" means that the source it chose is installed and the marker is gone |
| UpdateRuns.DeclinedChangesNothing | src/ai_provider_gateway/sidecars/cliproxy/updater.py:308-320 | An operation that is cancelled, not needed or without a backup leaves every file as it was; one that raises before its guarded block, at whatever step, changes nothing but backups |
| UpdateRuns.RollbackUndoes | src/ai_provider_gateway/sidecars/cliproxy/updater.py:389-411 | With increasing backup times a successful rollback after a successful install, or after a successful rollback from a valid pair, brings back the pair from before both |
| UpdateRuns.RecordedBackupIsChosen | src/ai_provider_gateway/sidecars/cliproxy/updater.py:285-298 | In runs whose installs and rollbacks begin without a leftover marker and at increasing times, the lookup "marker backup, else latest backup" picks the recorded backup at every point, even when its name does not match the safe pattern, because partial backups are never chosen |
| UpdateRuns.RecordedIsChosenIff | src/ai_provider_gateway/sidecars/cliproxy/updater.py:431 | In a safe state with a marker, recovery restores the recorded backup if and only if its name matches the safe pattern or it is the latest one |
| UpdateRuns.SomeRecordedIsNotChosen | src/ai_provider_gateway/sidecars/cliproxy/updater.py:285-298 | The failing input: a recorded backup whose name holds a plus sign is passed over for a newer one |
| UpdateProtocol.LatestIsUnique | src/ai_provider_gateway/sidecars/cliproxy/updater.py:355-372 | Creation time, then name, singles out one latest backup |
| UpdateProtocol.LatestBackup | src/ai_provider_gateway/sidecars/cliproxy/updater.py:355-372 | The choice is a valid backup with a readable record that every other one is older than, and there is none only if no backup is valid |
| UpdateManager.SidecarUpdateManager.Install | src/ai_provider_gateway/sidecars/cliproxy/updater.py:308-353 | The call takes exactly the steps of a run of the protocol; from a safe state it keeps it safe, and its status is true of the files. It is cancelled exactly if an accepted candidate is not confirmed, and installs whenever candidate and installed pair are valid, the backup name is free and the environment makes no step fail |
| UpdateManager.SidecarUpdateManager.Rollback | src/ai_provider_gateway/sidecars/cliproxy/updater.py:389-424 | Likewise for a rollback, which fails without a backup exactly if there is no valid one, is cancelled exactly if there is one and it is not confirmed, and succeeds otherwise unless a step fails or the name for the saved pair is taken |
| UpdateManager.SidecarUpdateManager.RecoverInterruptedUpdate | src/ai_provider_gateway/sidecars/cliproxy/updater.py:426-440 | Likewise for recovery, which declines exactly if there is no marker and the installed pair is valid, lacks a source exactly if there is none, and otherwise succeeds unless a step fails |
| UpdateManager.SidecarUpdateManager.BackupCurrent | src/ai_provider_gateway/sidecars/cliproxy/updater.py:196-216 | The backup steps in order, changing nothing but backups however they end; a valid pair under a free name is saved unless the environment makes a step fail |
| UpdateManager.SidecarUpdateManager.CreateBackup | src/ai_provider_gateway/sidecars/cliproxy/updater.py:196-206 | A new directory for the backup with its time and no files yet, under a name that was free |
| UpdateManager.SidecarUpdateManager.RestoreFrom | src/ai_provider_gateway/sidecars/cliproxy/updater.py:225-241 | The five restoring steps in order; an exception in any of them leaves the operation where its handler expects it, and a complete backup is restored unless the environment makes a step fail |
| UpdateManager.SidecarUpdateManager.Undo | src/ai_provider_gateway/sidecars/cliproxy/updater.py:341-353 | The handler: a failed stop is forgiven, any other failure ends the operation with its marker in place |
| UpdateManager.SidecarUpdateManager.FindLatestBackup | src/ai_provider_gateway/sidecars/cliproxy/updater.py:355-372 | The scan over the backup directory returns the latest valid backup |
| UpdateManager.SidecarUpdateManager.FindRecoverySource | src/ai_provider_gateway/sidecars/cliproxy/updater.py:285-298 | The backup named by the marker if its name is safe and its files are valid, otherwise the latest one |
| UpdateManager.SidecarUpdateManager.ArchiveTransaction | src/ai_provider_gateway/sidecars/cliproxy/updater.py:300-306 | One step of the protocol: the marker, if there is one, moves to the archive under its status |
| ClosingStream.ClosesOnce | src/ai_provider_gateway/gateway/app.py:394-445 | Over every interleaving of reads, cancellation, upstream failure, overlapping closes and closes that raise: the upstream is closed at most once, usage is reported at most once, and exactly once when the closing call has ended |
| ClosingStream.AccountedUnlessAbandoned | src/ai_provider_gateway/gateway/app.py:332-368 | Once some call closes the stream and the closing call is over, upstream and usage are both settled, if and only if the stream is not a generator closed before its first read |
| ClosingStream.UnreadGeneratorIsNotAccounted | src/ai_provider_gateway/gateway/app.py:345-368 | The failing input: a generator that is closed first is a run that closes no upstream and reports nothing |
| ClosingStream.ClosedOrAbandoned | src/ai_provider_gateway/gateway/app.py:359-368 | The stream is closed, or an unread generator abandoned, exactly if some closing call, end, failure or cancellation has happened |
| ClosingStream.NothingNewAfterClosing | src/ai_provider_gateway/gateway/app.py:394-396 | After closing only reads that were already waiting can deliver a line, and what was delivered stays |
| ClosingStream.ReportIsVerdict | src/ai_provider_gateway/gateway/app.py:431-445 | The one report is determined by the trace before the closing call ended: succeeded if a terminator line was read, otherwise failed if the upstream ended or raised, otherwise aborted, with the usage of the last line that reported tokens, which the recorder accepts |
| ClosingStream.StreamReport | src/ai_provider_gateway/gateway/app.py:411-445 | The same on the text of the lines: the one report is succeeded exactly if some line read before the closing call ended is `data:` and `[DONE]` with only white space around the latter, and the parser did not raise at it; its usage is that of the last line that reports any |
| ClosingStream.WholeRequest | src/ai_provider_gateway/gateway/app.py:394-445 | Reading any lines one after the other and then ending, failing, cancelling or closing is a run the stream allows; every line is delivered as rewritten, the upstream is closed once and one report made |
| ClosingStream.RequestIsReported | src/ai_provider_gateway/gateway/app.py:413-445 | Such a request has succeeded exactly if one of its lines marks the end, has otherwise failed if the upstream ended or raised, and is otherwise aborted |
| ClosingStream.GeneratorReadsAlone | src/ai_provider_gateway/gateway/app.py:345-352 | The generator around the stream never has two reads suspended |
| ClosingStream.BareReadsOverlap | src/ai_provider_gateway/gateway/app.py:391-396 | Without it reads and a close may overlap, and a read that was waiting still delivers its line |
| ClosingStream.DeliveredIsRewritten | src/ai_provider_gateway/gateway/app.py:410-415 | The delivered stream is the rewriting of the lines read, in order, without those at which parsing or encoding raises |
| ClosingStream.OutputsAreOneForOne | src/ai_provider_gateway/gateway/app.py:410-415 | One delivered line for each line read if none of them raises |
| ClosingStream.StreamReadsRecordable | src/ai_provider_gateway/gateway/app.py:466-479 | Every usage taken from a line meets the rule of the usage recorder |
| ClosingStream.ClosingSSEStream.ReceiveLine | src/ai_provider_gateway/gateway/app.py:410-415 | A received line updates usage and terminator flag and is returned rewritten, or lost to an exception: one step of the model |
| ClosingStream.ClosingSSEStream.StartClose | src/ai_provider_gateway/gateway/app.py:417-424 | Only the first close takes effect, and it is one step of the model |
| ClosingStream.ClosingSSEStream.EndClose | src/ai_provider_gateway/gateway/app.py:425-445 | Reporting follows closing the upstream whether or not that raised |
| SseLines.RewriteKeepsFraming | src/ai_provider_gateway/gateway/app.py:448-463 | One output line for one input line that is delivered: data lines stay data lines, blank lines stay blank, other lines are unchanged, and no line break is added (section 9.2.5 of the WHATWG HTML Standard) |
| SseLines.RewriteChangesModelOnly | src/ai_provider_gateway/gateway/app.py:448-463 | An object keeps every field and the order of its keys; only the top-level `model` is set, in place or at the end. Lines without an object are unchanged |
| SseLines.RewriteIsIdempotent | src/ai_provider_gateway/gateway/app.py:448-463 | Rewriting a rewritten line changes nothing |
| SseLines.RewriteKeepsUsage | src/ai_provider_gateway/gateway/app.py:466-479 | Rewriting does not change the usage a line reports |
| SseLines.ExtractedIsRecordable | src/ai_provider_gateway/usage/storage.py:122-130 | Extracted usage has no negative count, and names a source exactly if it has a count, which is what the recorder demands |
| SseLines.DoneIsReadIff | src/ai_provider_gateway/gateway/app.py:413-414 | A line is taken as the end of the stream exactly if it is `data:`, white space, `[DONE]` and white space, and parsing it, which happens if white space follows, does not raise |
| SseLines.DataLineIs | src/ai_provider_gateway/gateway/app.py:448-479 | What becomes of a data line, from its text behind the white space: an object is printed with its model set and reports the usage under its `usage`, any other or malformed text is delivered as it came and reports none, and nothing is delivered if parsing or encoding raises |
| SseLines.UsageCounts | src/ai_provider_gateway/gateway/app.py:482-501 | Which counts are read: the integer that is not negative under the current name, under the older name only if there is none, input and output each under their own names, and the source is the upstream exactly if there is a count |
| ModelCatalogue.CanonicalIsInjective | src/ai_provider_gateway/models/registry.py:109-112 | Provider and upstream identifier can be read back from the canonical one, also when the upstream identifier contains a slash |
| ModelCatalogue.RenormalisingIsIdentity | src/ai_provider_gateway/models/registry.py:510-514 | Normalising a canonical identifier again gives the same identifier |
| ModelCatalogue.NormalsAreFixed | src/ai_provider_gateway/models/registry.py:462-481 | The normalisers leave normal identifiers alone |
| ModelCatalogue.ValidateModels | src/ai_provider_gateway/models/registry.py:447-459 | A validated catalogue has as many entries as the listing, each with a normal upstream identifier and no identifier twice |
| ModelCatalogue.CheckSucceedsIff | src/ai_provider_gateway/models/registry.py:447-459 | A listing is accepted exactly if each of its identifiers and names is and no two identifiers come to the same |
| ModelCatalogue.TextIsNormalised | src/ai_provider_gateway/models/registry.py:471-494 | Identifiers lose the white space around them and must then be printable, not empty and of at most 512 characters; blank names and aliases count as absent |
| ModelCatalogue.RefreshMeans | src/ai_provider_gateway/models/registry.py:193-228 | Marking all unavailable and upserting in a loop is one simultaneous change: listed models are present, available and described by their entry and keep their alias, the provider's other models become unavailable, and the rest is unchanged |
| ModelCatalogue.RunsAreWellFormed | src/ai_provider_gateway/models/registry.py:121-314 | Over every run rows are filed under their own identifier, every provider with rows has a discovery row, and aliases stay globally unique |
| ModelCatalogue.RunOffersLastAccepted | src/ai_provider_gateway/models/registry.py:121-273 | After any run a provider's available models, with their names, are exactly its last accepted catalogue, and its last success is the time of its last live one, whatever was configured by hand or failed since |
| ModelCatalogue.RunRecordsLastOutcome | src/ai_provider_gateway/models/registry.py:121-273 | After any run a provider's discovery row says how and when its last recorded attempt ended: a live discovery is available without error, a hand-made catalogue stale and not verified, an empty discovery and a failure stale with their category |
| ModelCatalogue.ListedAreStamped | src/ai_provider_gateway/models/registry.py:205-228 | A listed model carries the time of the refresh that listed it, and every other row the time it had |
| ModelCatalogue.ApplyIsLocal | src/ai_provider_gateway/models/registry.py:162-314 | No operation deletes a row or touches another provider's, only setting an alias changes an alias, and failures change no model row |
| ModelCatalogue.StoredModelResolvesToItself | src/ai_provider_gateway/models/registry.py:338-371 | In every reachable registry a stored model resolves to itself by its canonical identifier, whatever aliases there are, if and only if that identifier has at most 512 characters |
| ModelCatalogue.LongIdIsStored | src/ai_provider_gateway/models/registry.py:471-481 | The failing input: one discovery of a model whose upstream identifier is long enough stores a row that does not resolve to itself |
| ModelCatalogue.SomeStoredModelIsNotResolved | src/ai_provider_gateway/models/registry.py:471-481 | Such a run exists |
| ModelCatalogue.AliasIsSetIff | src/ai_provider_gateway/models/registry.py:275-314 | An alias is set exactly if its model is stored and no other model has it, and clearing it always works |
| ModelCatalogue.AliasResolves | src/ai_provider_gateway/models/registry.py:338-371 | From then on the alias finds its model, if and only if it is not another model's canonical identifier |
| ModelCatalogue.ResolveFinds | src/ai_provider_gateway/models/registry.py:338-371 | A lookup answers a model exactly if some model has the text as its canonical identifier or alias, and only such a one |
| ModelRegistry.CheckModels | src/ai_provider_gateway/models/registry.py:447-459 | The loop with its set of seen identifiers computes the validated catalogue or the first error: identifier, then repetition, then display name |
| ModelRegistry.ModelRegistry.StoreCatalogue | src/ai_provider_gateway/models/registry.py:193-236 | The upsert loop leaves the tables that the set-level refresh describes |
| ModelRegistry.ModelRegistry.RefreshSuccess | src/ai_provider_gateway/models/registry.py:121-139 | A non-empty valid listing is stored; an empty one is recorded as a failure and refused; an invalid one changes nothing |
| ModelRegistry.ModelRegistry.RefreshConfigured | src/ai_provider_gateway/models/registry.py:162-191 | A configured catalogue is stored as unverified, and the last success stays what it was |
| ModelRegistry.ModelRegistry.RecordFailure | src/ai_provider_gateway/models/registry.py:254-273 | Succeeds exactly for a valid provider and category; only the discovery row changes, and it keeps its last success |
| ModelRegistry.ModelRegistry.AssignAlias | src/ai_provider_gateway/models/registry.py:275-314 | Succeeds exactly if the model exists and no other row has the alias, and changes only that alias |
| ModelRegistry.ModelRegistry.ResolveModel | src/ai_provider_gateway/models/registry.py:338-371 | A canonical match first, then an alias |
| ProviderStore.ReplacedIsLoaded | src/ai_provider_gateway/providers/openai_compatible/storage.py:97-137 | After a successful replacement loading returns the normalised identifier, name, URL, key and headers and, as a set, exactly the given models; an empty listing leaves the catalogue alone |
| ProviderStore.GivenIsLoaded | src/ai_provider_gateway/providers/openai_compatible/storage.py:245-340 | The same in terms of what was given: the key as it was if it was not empty, header values as they were, and display name, header names and models without the white space around them |
| ProviderStore.KeyLoadsIff | src/ai_provider_gateway/providers/openai_compatible/storage.py:195-224 | A stored key loads exactly as what it opens to, unless that holds a NUL |
| ProviderStore.AcceptedIff | src/ai_provider_gateway/providers/openai_compatible/storage.py:245-349 | A provider is accepted if and only if its identifier is a slug other than the reserved one, its texts are printable and within their limits, its URL normalises, no two models or header names come to the same, no header is blocked, and none authorizes next to an API key |
| ProviderStore.HeaderNameIsToken | src/ai_provider_gateway/providers/openai_compatible/storage.py:80 | Words of letters, digits and hyphens are header names, and no header name holds white space, a control character, a quote, a bracket or a separator |
| ProviderStore.ReplaceIsLocal | src/ai_provider_gateway/providers/openai_compatible/storage.py:107-132 | A replacement keeps the registry well formed and touches no row of another provider in either table |
| ProviderStore.DiscoveredIsLoaded | src/ai_provider_gateway/providers/openai_compatible/storage.py:168-181 | A live discovery for a configured provider becomes what that provider loads, and nothing else of it changes |
| ProviderStore.CommitEndsInErrorIff | src/ai_provider_gateway/providers/openai_compatible/storage.py:139-166 | A replacement that has committed still ends in an error if and only if the headers of some other stored provider do not load |
| ProviderStore.DiscoveryEndsInErrorIff | src/ai_provider_gateway/providers/openai_compatible/storage.py:139-181 | A discovery that has committed ends in an error if and only if its listing is empty or the headers of some other stored provider do not load |
| ProviderStore.SomeCommitEndsInError | src/ai_provider_gateway/providers/openai_compatible/storage.py:97-166 | The failing input: beside a row sealed by another account a replacement commits and ends in an error |
| ProviderStore.VerificationIsOfLastAttempt | src/ai_provider_gateway/providers/openai_compatible/storage.py:236-242 | After any run of the registry a provider counts as verified exactly if its last recorded attempt was a live discovery that found models, as unverified exactly if there was none or its catalogue was configured by hand, and otherwise as failed with that attempt's category |
| ProviderStore.GivenIsDescribed | src/ai_provider_gateway/providers/openai_compatible/storage.py:139-166 | What a successful replacement answers, on what was given: whether a key was, the names of the headers, how many models, none of them verified |
| ProviderStore.DiscoveredIsDescribed | src/ai_provider_gateway/providers/openai_compatible/storage.py:168-181 | After a live discovery the provider counts as verified, with as many models as were found |
| ProviderStore.AcceptedIsSafe | src/ai_provider_gateway/providers/openai_compatible/storage.py:245-325 | An accepted provider has no reserved identifier, no authorization header next to an API key, no blocked or malformed header name, no two names that agree but for case, and no model twice |
| ProviderStore.ListingAgrees | src/ai_provider_gateway/providers/openai_compatible/storage.py:293-307 | A catalogue this store accepts is accepted unchanged by the registry |
| ProviderStore.IdAgrees | src/ai_provider_gateway/providers/openai_compatible/storage.py:261-267 | Identifier validation is idempotent and agrees with the registry's normaliser |
| ProviderStore.HeadersAreFixed | src/ai_provider_gateway/providers/openai_compatible/storage.py:310-325 | Header validation is idempotent, so stored headers pass it again when they are loaded |
| ProviderStore.OfferedIsLoaded | src/ai_provider_gateway/providers/openai_compatible/storage.py:205 | The loaded models are, as a set, the catalogue the registry offers |
| ProviderStore.CheckHeaderList | src/ai_provider_gateway/providers/openai_compatible/storage.py:310-325 | The header loop with its set of seen lower-cased names computes the validated headers or the first error |
| ProviderStore.CustomProviderStore.ReplaceProvider | src/ai_provider_gateway/providers/openai_compatible/storage.py:97-137 | Provider row and catalogue change together or not at all; an error before the commit changes nothing, and after it there is one exactly if some stored headers do not load. Success answers the metadata of the new row |
| ProviderStore.CustomProviderStore.DescribeProvider | src/ai_provider_gateway/providers/openai_compatible/storage.py:139-166 | Describing a provider succeeds exactly if it is stored and the headers of all providers load |
| ProviderStore.CustomProviderStore.RefreshDiscoveredModels | src/ai_provider_gateway/providers/openai_compatible/storage.py:168-181 | Only a configured provider with an acceptable listing changes anything; an empty listing is recorded as a failure; the call succeeds exactly if the listing was stored and all stored headers load |
| SidecarConfig.PrintedMatchesIff | src/ai_provider_gateway/portable.py:494-537 | A printed text is accepted if and only if its Sidecar key is the runtime's, its management key is the runtime's or has one of the three hash prefixes and verifies for it, and its proxy, if any, holds no quote or line break and is its own normal form |
| SidecarConfig.AcceptedKeys | src/ai_provider_gateway/portable.py:510-537 | Any accepted text holds one Sidecar key, the runtime's, and one management key, the runtime's or a hash that verifies for it |
| SidecarConfig.OtherKeyIsRefused | src/ai_provider_gateway/portable.py:494-502 | A text with a management key that is neither the runtime's nor a hash with one of the three prefixes that verifies for it is never accepted |
| SidecarConfig.OwnKeyIsAccepted | src/ai_provider_gateway/portable.py:494-502 | The text printed with the runtime's own management key is accepted, and so is the one printed with any hash of the three kinds that verifies for it |
| SidecarConfig.PrintedText | src/ai_provider_gateway/portable.py:462-491 | The printed text line by line |
| SidecarConfig.AcceptedWithoutProxyIsPrinted | src/ai_provider_gateway/portable.py:505-537 | Any accepted text without a proxy setting is, to the letter, the printed text for its own management key |
| ProxyPlacement.AcceptedWithProxyIff | src/ai_provider_gateway/portable.py:505-537 | The accepted texts with a proxy are exactly these: the printed text without one, for the right keys, with one setting that is its own normal form inserted before some line, or glued to the front of a line that holds no key |
| ProxyPlacement.AcceptedIsPrintedIff | src/ai_provider_gateway/portable.py:505-537 | An accepted text with a proxy is the printed text for its own keys if and only if the setting stands alone on the line where the printer puts it |
| ProxyPlacement.AcceptedWithProxyNeedNotBePrinted | src/ai_provider_gateway/portable.py:505-537 | With the setting in front of the first line an accepted text is not the printed text for any keys and proxy |
| SidecarConfig.ReadAfterWrite | src/ai_provider_gateway/portable.py:572-617 | What is written is accepted again if and only if the normalised value holds no quote and is its own normal form; then the management key is kept and reading gives that value |
| SidecarConfig.WriteSucceedsIff | src/ai_provider_gateway/portable.py:584-617 | Writing goes through exactly if the present text is accepted and the value is blank or normalises |
| SidecarConfig.WriteAfterWrite | src/ai_provider_gateway/portable.py:584-617 | A second write replaces such a value without trace; after any other value every write fails |
| SidecarConfig.SetThenClearRestores | src/ai_provider_gateway/portable.py:584-617 | Setting a proxy in an accepted text that has none and clearing it again restores the text, if and only if the value is such a one |
| SidecarConfig.QuotedZoneLocksConfig | src/ai_provider_gateway/portable.py:540-569 | The failing input: a loopback address whose zone holds a quote is a normal form, is written, and makes the file one that the checker rejects |
| SidecarConfig.InitialIsAccepted | src/ai_provider_gateway/portable.py:628-665 | The first configuration written is accepted |
| SidecarConfig.SidecarTemplateIsPlain | src/ai_provider_gateway/portable.py:462-491 | For a directory path without a line break none of the fixed lines matches one of the three patterns |
| SidecarConfig.ConfigFile.WriteInitial | src/ai_provider_gateway/portable.py:628-665 | Creates an accepted file, or accepts or rejects the one that is there, or that has appeared meanwhile, without changing it; a creation that breaks off leaves what it leaves and fails |
| SidecarConfig.ConfigFile.Write | src/ai_provider_gateway/portable.py:584-617 | An error of the check or before the rename leaves the file; a failure to secure it afterwards is an error with the new text in place |
| SidecarConfig.ConfigFile.Read | src/ai_provider_gateway/portable.py:572-581 | Succeeds exactly for an accepted file, and then names its one proxy setting, or none if it has none |
| ConfigText.LinesOfJoin | src/ai_provider_gateway/portable.py:457-459 | Splitting joined lines gives the lines back, so patterns anchored to lines may be read line by line |
| ConfigText.RemovesOne | src/ai_provider_gateway/portable.py:525 | Removing the one match changes only its line: the line goes if a line break follows the match, and otherwise keeps what stands behind it |
| AdminSessions.RunsAreSound | src/ai_provider_gateway/control/auth.py:49-89 | Over every run with a clock that does not go back the table stays within its limit, and it is a suffix, in login order, of the sessions issued since the last verifier change and not logged out: expiry and eviction only ever remove the oldest |
| AdminSessions.LoginKeepsNewest | src/ai_provider_gateway/control/auth.py:55-61 | What a login keeps beside the new session is a suffix of what it found |
| AdminSessions.ExpiryKeepsLive | src/ai_provider_gateway/control/auth.py:113-116 | Expiry removes exactly the expired sessions |
| AdminSessions.EvictionIsMinimal | src/ai_provider_gateway/control/auth.py:58-60 | Eviction makes room for one session and no more |
| AdminSessions.AuthorizedExactlyIf | src/ai_provider_gateway/control/auth.py:73-82 | A token is authorised if and only if its session is in the table and expires after the reading |
| AdminSessions.AuthorizedIsLive | src/ai_provider_gateway/control/auth.py:73-82 | An authorised token was issued since the last verifier change, is not logged out and has not expired |
| AdminSessions.LoginOpensSession | src/ai_provider_gateway/control/auth.py:49-82 | The right password and no other opens a session, which is authorised until its lifetime is over |
| AdminSessions.LogoutEndsOne | src/ai_provider_gateway/control/auth.py:84-89 | A logout ends the sessions with its token and no others |
| AdminSessions.ReplaceIsFresh | src/ai_provider_gateway/control/auth.py:64-71 | A new verifier leaves the state of a fresh manager with that verifier; an empty one changes nothing |
| AdminSessions.LoginsMayCoincide | src/ai_provider_gateway/control/auth.py:49-62 | Two logins in the same instant are a run and leave both sessions if there is room |
| AdminSessions.AdminSessionManager.Login | src/ai_provider_gateway/control/auth.py:49-62 | A session is issued exactly if the password verifies; the eviction loop leaves what the model says |
| AdminSessions.AdminSessionManager.AuthorizeToken | src/ai_provider_gateway/control/auth.py:73-82 | Allowed exactly if the token is in the table once expired sessions are removed |
| AdminSessions.AdminSessionManager.ReplacePasswordVerifier | src/ai_provider_gateway/control/auth.py:64-71 | The verifier changes and every session goes; an empty verifier changes nothing |
| AdminSessions.AdminSessionManager.PurgeExpired | src/ai_provider_gateway/control/auth.py:113-116 | The loop keeps exactly the sessions that have not expired, in order |
| PasswordRecovery.RecoveryIsSafe | src/ai_provider_gateway/control/password_recovery.py:144-193 | Under every interleaving with logins and session checks a challenge completes at most once and only if its call began before it expired, the stored verifier is the session manager's whenever no completion is between its two replacements, and the step that ends a completion leaves no session |
| PasswordRecovery.RunsAreSound | src/ai_provider_gateway/control/password_recovery.py:144-199 | The invariant behind it, which also bounds the outstanding challenges and keeps outstanding, current and completed ones apart |
| PasswordRecovery.SessionsPostdateCompletions | src/ai_provider_gateway/control/password_recovery.py:192 | Every session in the table at any later time was issued by a login after the completion |
| PasswordRecovery.StartIssuesIff | src/ai_provider_gateway/control/password_recovery.py:149-199 | A confirmed start drops exactly the challenges that have expired and issues one with the full lifetime exactly if fewer than the limit are left |
| PasswordRecovery.CompletionReplaces | src/ai_provider_gateway/control/password_recovery.py:167-193 | A completion of an outstanding challenge with an acceptable verifier can always go through, and then both verifiers are the new one, no session is left, the challenge is used up and all others that have not expired stay |
| PasswordRecovery.FailedCompletionConsumes | src/ai_provider_gateway/control/password_recovery.py:176-188 | One that cannot store its verifier uses up its challenge and changes nothing else |
| PasswordRecovery.LoginInBetweenIsEnded | src/ai_provider_gateway/control/password_recovery.py:185-192 | A login with the old password between the two replacements is possible, and the second replacement ends its session |
| PasswordRecovery.CompletionMayEndLate | src/ai_provider_gateway/control/password_recovery.py:174-192 | A run in which a call that began in time replaces the verifier when its challenge's lifetime is over: expiry bounds the beginning of a completion, not its end |
| PasswordRecovery.EndsLateIff | src/ai_provider_gateway/control/password_recovery.py:174-192 | Over every run a completion takes its last step at or after its challenge's expiry if and only if the clock stood there at first or some tick has reached it |
| PasswordRecovery.AdminPasswordStore.Replace | src/ai_provider_gateway/control/password_recovery.py:75-89 | The row changes exactly if the verifier is valid, a row exists and the transaction commits |
| PasswordRecovery.AdminPasswordStore.InitializeIfMissing | src/ai_provider_gateway/control/password_recovery.py:51-73 | A verifier already there stays in force |
| PasswordRecovery.PasswordRecoveryManager.StartRecovery | src/ai_provider_gateway/control/password_recovery.py:149-165 | Once the desktop has confirmed, a challenge is issued exactly if fewer than the limit are outstanding; the dialog is over either way |
| PasswordRecovery.PasswordRecoveryManager.CompleteRecovery | src/ai_provider_gateway/control/password_recovery.py:167-193 | The exact condition for success; the challenge is consumed either way, and stored verifier and session manager change together or not at all |
| Lifecycle.AtMostOneChild | src/ai_provider_gateway/sidecars/cliproxy/lifecycle.py:121-190 | Whatever the calls, child deaths and cancellations, at most one spawned child is neither exited nor sent a kill, and it is the current handle's |
| Lifecycle.RunsAreOwned | src/ai_provider_gateway/sidecars/cliproxy/lifecycle.py:121-190 | The invariant: a child is spawned only when the handle's has exited, and given up only when it has exited or been sent a kill |
| Lifecycle.CLIProxyAPILifecycle.Status | src/ai_provider_gateway/sidecars/cliproxy/lifecycle.py:170-181 | An unlocked status call changes nothing, and names the only child that may still be running; stopped, crashed, starting and up are what handle, poll and probe say |
| Lifecycle.StopLoopIsBounded | src/ai_provider_gateway/sidecars/cliproxy/lifecycle.py:153-156 | For a positive interval and timeout the loop sleeps at most ceil(timeout / interval) times, for at most the timeout in all, and times out exactly after that many sleeps and exactly the timeout |
| Lifecycle.StuckChildIsKilledIff | src/ai_provider_gateway/sidecars/cliproxy/lifecycle.py:147-161 | A child that never exits is given up on, and so killed, if and only if the interval is positive or the timeout is not |
| Lifecycle.SomeStuckChildIsNotKilled | src/ai_provider_gateway/sidecars/cliproxy/lifecycle.py:147-161 | The failing input: with an interval of zero and a positive timeout the loop waits for a child that never exits however often it sleeps |
| Lifecycle.TotalOfSleeps | src/ai_provider_gateway/sidecars/cliproxy/lifecycle.py:155 | The requested sleeps add up to the elapsed count, cut off at the timeout |
| Lifecycle.CLIProxyAPILifecycle.WaitForExit | src/ai_provider_gateway/sidecars/cliproxy/lifecycle.py:153-156 | The loop makes exactly those sleeps, and ends beside a living child only by timing out or by cancellation |
| Lifecycle.CLIProxyAPILifecycle.StopUnlocked | src/ai_provider_gateway/sidecars/cliproxy/lifecycle.py:147-161 | Only the handle's child may be sent a kill, and only after a timeout; a cancelled stop keeps the handle |
| Lifecycle.CLIProxyAPILifecycle.StartUnlocked | src/ai_provider_gateway/sidecars/cliproxy/lifecycle.py:127-139 | Beside a living child nothing is spawned and its state answered; otherwise the old child has exited, and one is spawned exactly if the launch succeeds |
| Lifecycle.CLIProxyAPILifecycle.Start | src/ai_provider_gateway/sidecars/cliproxy/lifecycle.py:121-139 | Beside a living child nothing is spawned and the handle stays; otherwise a launch that succeeds spawns one, and the call fails only if a readiness probe does |
| Lifecycle.CLIProxyAPILifecycle.AwaitReadiness | src/ai_provider_gateway/sidecars/cliproxy/lifecycle.py:183-190 | The first settled status within the attempts, or the one after the last of them, each by its own probe, with one sleep fewer than checks; there is none only if a probe fails |
| Lifecycle.CLIProxyAPILifecycle.Stop | src/ai_provider_gateway/sidecars/cliproxy/lifecycle.py:141-145 | A stop that ends leaves no child running and no handle; it ends unless it is cancelled while the loop still waits for a living child |
| Lifecycle.CLIProxyAPILifecycle.Restart | src/ai_provider_gateway/sidecars/cliproxy/lifecycle.py:163-168 | The stop ends unless it is cancelled while the loop still waits; then no old child is running and, if the launch succeeds, exactly one new child has been spawned, which is the handle's. A cancelled one spawns nothing and keeps the handle |
| QuotaCache.AttemptsAreSpaced | src/ai_provider_gateway/quota/cache.py:85-94 | Under every interleaving, forced or not and even if the clock steps back, any two recorded attempts for a provider are at least the minimum interval apart |
| QuotaCache.ProbesIff | src/ai_provider_gateway/quota/cache.py:85-94 | Whoever holds a provider's turn asks the probe exactly if the last attempt was at least the minimum interval ago and either the call is forced, or nothing is stored for the provider, or something stored is older than the lifetime |
| QuotaCache.TurnsAreTaken | src/ai_provider_gateway/quota/cache.py:88-104 | A probe that ends or is cancelled gives up the turn and stays counted as an attempt |
| QuotaCache.RefreshLeaves | src/ai_provider_gateway/quota/cache.py:95-104 | A refresh leaves its provider with the probe's whole set in stored form exactly if that is not empty, valid, for this provider, without a bucket twice and committed; otherwise with one unknown row, or with what it had exactly if storing failed twice. It answers what it stored; other providers keep their rows |
| QuotaCache.RowsAreOfLastRefresh | src/ai_provider_gateway/quota/cache.py:85-104 | A provider's rows stay as its last refresh left them, whatever other callers and providers do |
| QuotaCache.TableStaysValid | src/ai_provider_gateway/quota/cache.py:55-64 | Every run keeps each row in stored form and consistent, with ratios between zero and one that sum to one and a status that says whether there are any, and no bucket of a provider twice |
| QuotaCache.QuotaCache.GetOrRefresh | src/ai_provider_gateway/quota/cache.py:85-104 | Fresh rows are served as they are; otherwise the call is an attempt and its outcome, or, within the minimum interval, the cached rows |
| QuotaRows.WriteValidReplaces | src/ai_provider_gateway/quota/cache.py:55-64 | A write succeeds exactly if its rows are one provider's with no bucket twice and the transaction commits; it then replaces that provider's rows and no other's, and otherwise changes nothing |
| QuotaRows.ValidatedIsSettled | src/ai_provider_gateway/quota/cache.py:106-115 | Validation is idempotent |
| QuotaRows.AcceptedIff | src/ai_provider_gateway/quota/cache.py:106-132 | Exactly which snapshots are accepted, and that validation changes nothing but the case of names and the white space around texts, and drops an empty error category |
| QuotaRows.QuotaStore.StoreRows | src/ai_provider_gateway/quota/cache.py:60-63 | Deleting and inserting row by row, with rollback on a repeated bucket, leaves what the model says |
| QuotaRows.QuotaStore.WriteRows | src/ai_provider_gateway/quota/cache.py:55-64 | Validation of all rows precedes the transaction |
| QuotaRows.QuotaStore.ReadRows | src/ai_provider_gateway/quota/cache.py:65-73 | The provider's rows, for a valid name |
| GatewayKeys.NothingAfterRevocation | src/ai_provider_gateway/gateway/authentication.py:121-158 | Under every interleaving, once a revocation has committed no authentication whose stamp comes later returns that key, even one that had already read its row |
| GatewayKeys.RunsAreSound | src/ai_provider_gateway/gateway/authentication.py:89-202 | The invariant: identifiers are never created twice, prefixes are unique, revoked keys stay inactive, and whoever authenticated presented the key's prefix and a secret its verifier accepts |
| GatewayKeys.LogIsBorneOut | src/ai_provider_gateway/gateway/authentication.py:89-202 | Under every interleaving, whoever has authenticated presented the first 16 characters of that key's secret and a secret its verifier accepts, and no identifier is created twice |
| GatewayKeys.CreatedKeyAuthenticates | src/ai_provider_gateway/gateway/authentication.py:89-158 | A created key authenticates with its secret until it is revoked, whatever else happens |
| GatewayKeys.KeyIsCreatedIff | src/ai_provider_gateway/gateway/authentication.py:89-119 | A secret of 32 to 512 characters with a hash becomes an active, unused key under its first 16 characters, unless identifier or prefix is taken; otherwise nothing changes |
| GatewayKeys.AuthenticatesIff | src/ai_provider_gateway/gateway/authentication.py:121-158 | A call on its own succeeds exactly for the secret of an active key and then changes only its last use; otherwise nothing changes |
| GatewayKeys.KeyIsRevokedIff | src/ai_provider_gateway/gateway/authentication.py:189-202 | Revoking deactivates an active key and records when; on any other, and a second time, it changes nothing |
| GatewayKeys.IdIsNormalised | src/ai_provider_gateway/gateway/authentication.py:205-211 | Identifiers lose the white space around them and must then have 1 to 64 characters, each alphanumeric, a hyphen, a dot or an underscore |
| GatewayKeys.GatewayApiKeyStore.AuthenticateKey | src/ai_provider_gateway/gateway/authentication.py:121-158 | Returns an identifier exactly if an active key has the prefix and its verifier accepts the secret |
| GatewayKeys.GatewayApiKeyStore.CreateKey | src/ai_provider_gateway/gateway/authentication.py:89-119 | Creates a key exactly if identifier and secret are acceptable and neither identifier nor prefix is taken |
| GatewayKeys.GatewayApiKeyStore.RevokeKey | src/ai_provider_gateway/gateway/authentication.py:189-202 | Deactivates an active key, and says whether it did |

## Left out

Assumptions of the model:

- Renaming a file is atomic; a copy that does not complete may leave any content; the artifact verifier is a fixed predicate of content and hash; nobody edits staged or saved files during an operation.
- A cancelled update operation counts as a crash, because no handler in it catches a cancellation. A crash may leave the Sidecar running or not.
- A JSON object that was parsed, with its model set, is printed, if it can be encoded, as one line that parses to the same object; data protection undoes itself; a normalised URL has no line break; a hash has no quote or line break and verifies its key.
- Tokens and challenges are never generated twice. Times are integers or, in the stop loop, reals; the rounding of floating-point sums and ratios is not modelled.
- A database transaction commits whole or leaves its tables alone.

What the model does not capture:

- UpdateManager.SidecarUpdateManager.Install: the version in the result, the check that all directories share a volume, symbolic links and the operation lock are not modelled.
- UpdateManager.SidecarUpdateManager.ArchiveTransaction: archived markers are kept as a list of statuses, not as files with time stamps.
- UpdateManager.SidecarUpdateManager.Undo: the captured copies of failed files and the temporary files of copies are not part of the state.
- UpdateRuns.RecordedBackupIsChosen: holds for runs without leftover markers and with increasing times; for all others `UpdateRuns.RecordedIsChosenIff` gives the exact condition.
- ClosingStream.ReportIsVerdict: a usage sink is always attached, and what the sink does with the report is not modelled.
- ClosingStream.ClosingSSEStream.ReceiveLine: whether parsing or encoding a line raises is decided by the JSON library's parameters, not by its grammar; the custom data plane's own close is not modelled.
- SseLines.RewriteKeepsFraming: only lines without a line break, which is what the upstream's line iterator yields.
- ModelRegistry.ModelRegistry.RefreshSuccess: the returned list of records and its order are not modelled, and neither are column widths, which the database does not enforce.
- ModelRegistry.CheckModels: covers the values of a listing, not elements of other types.
- ProviderStore.ReplacedIsLoaded: models are compared as a set because loading orders them by identifier.
- ProviderStore.CustomProviderStore.DescribeProvider: which provider's error is reported when several fail is left open.
- SidecarConfig.ConfigFile.Write: encodings and access control lists are not modelled; preparing the temporary file counts as one outcome.
- AdminSessions.AdminSessionManager.AuthorizeToken: the request boundary check before it is not modelled.
- AdminSessions.RunsAreSound: authorisation may use an old clock reading; only logins need readings that do not go back.
- PasswordRecovery.PasswordRecoveryManager.StartRecovery: the desktop's answer is an input.
- Lifecycle.CLIProxyAPILifecycle.StopUnlocked: cancellation is modelled at the sleeps of the loop; the state machine allows it at every point.
- QuotaCache.QuotaCache.GetOrRefresh: a cancelled probe appears only in the state machine; values of a wrong type count as a probe that raised.
- QuotaRows.QuotaStore.ReadRows: the order by bucket is not modelled.
- GatewayKeys.GatewayApiKeyStore.CreateKey: hashing, verification and the class of alphanumeric characters are parameters.

Parts of the repository that are not modelled: HTTP routing and clients, the launcher, runtime and health
modules, access control and data protection calls, request boundary checks, redaction, usage aggregation and
purging, harness exports, migrations, and the listing functions of the registry, the key store and the provider
store.
