# Verification of the go-mink core

go-mink is an event-sourcing toolkit: an append-only, position-ordered event log with background
processing and data-protection tooling on top. This project models its stateful algorithms in Dafny
and proves what they promise about whole logs, whole runs and every interleaving. `dafny verify
dfyconfig.toml` checks everything.

| module | what it models |
|---|---|
| `Events`, `Stores`, `Splitting` | events and their metadata, the position-ordered log and its batch reads, the checkpoint store |
| `RetentionSpec`, `RetentionScan`, `Retention`, `RetentionRuns` | the retention sweep: the fold it computes, the manager's loops proved against that fold, and what sequences of sweeps guarantee |
| `FieldPaths`, `Sealing`, `FieldEncryption` | field-level encryption: dotted paths, sealing and unsealing of a JSON tree, the envelope of a whole event |
| `Upcasting` | the upcaster chain |
| `SubjectTags`, `EventCodec` | what the store does to an event on its way in and out, and re-encryption in place |
| `SubjectSpec`, `SubjectResolution` | attribution of events to data subjects, footprints by scan and by index, the index backfill |
| `ErasureSpec`, `Erasure` | erasing a subject: key discovery, the shared-key guard, revocation, the certificate, the index purge |
| `ProjectionSpec`, `ProjectionWorker`, `Supervision`, `Backoff` | the asynchronous projection worker, its supervisor's lifecycle, and the backoff arithmetic |
| `SagaRow`, `SagaProtocol` | saga rows under optimistic concurrency with several managers |
| `IdempotencyKeys`, `IdempotencyProtocol` | the bounded idempotency key and the reservation protocol |

Conventions. The log is a sequence of events with strictly increasing positions; a batch read at `p`
gives the next events strictly after `p`. The AEAD is ideal: a box opens only under the data key and
the additional authenticated data it was sealed with. JSON values stand for their encodings. Errors of
collaborators (store, provider, checkpoint, hooks) are inputs, so every failure branch is covered.
Methods of classes follow the original's loops and field updates and are proved equal to specification
functions; the lemmas are about those functions.

## What turned out differently from the documentation

* `HasEncryptionEnvelope` is documented as requiring a non-empty field list; the code checks only that
  the list is present (encryption.go:516-521). The model follows the code.
* `StartFromBeginning` is documented for a first boot "when no checkpoint exists"; the code starts at 0
  whether or not one exists (projection_engine.go:1318-1319). The model follows the code; no event is lost either way.
* When `Stop`'s join returns, a worker's supervising flag can still be set by a `Restart` that passed its
  own check before the stop (`Supervision.RacingRestartLeavesAGuard`). `Supervision.JoinedMeansNoneLive`
  says exactly when; with no launch under way every flag is clear.
* A terminal saga save evicts the saga's mutex while another call may be blocked on it. With retry capture
  on, two calls of one manager can then work on the saga at once and the persisted list can hold an event
  twice (`SagaProtocol.EvictionUnderAWaiterDuplicates`). With capture off the race is harmless, and
  `SagaProtocol.SoundExactlyWithoutCapture` says so in both directions. With capture on, the saga results
  hold in every run in which no call is blocked on a mutex as it is evicted, for instance when a manager
  gets one call per saga at a time.
* A failed command whose error text is the reservation marker is stored as a record that cannot be told
  from a reservation (`IdempotencyProtocol.UnownedInFlightExactlyWhen`).
* A replayed success has lost its data, and an aggregate id over 255 bytes its end
  (`IdempotencyProtocol.ReplayIsTheResultExactlyWhen`).
* "No client-chosen key can make one scope's key collide with another's" (idempotency.go:157-160) holds of
  commands that have a scope; `IdempotencyKeys.UnscopedKeysMeetExactlyWhen` says when one without a scope
  meets one that has it.
* Skipping a poison event after a failing custom batch handler passes over the whole batch.
  `ProjectionSpec.SkippingAFailedBatch` says exactly when that loses something, and
  `ProjectionSpec.TurnLosesNothingExactlyWhen` says it of every turn.
* Expiry is not atomic with removal, so two callers that saw the same expired record may both run their
  handlers (`IdempotencyProtocol.ExpiryBreaksExclusion`); `RemovalIsSafeExactlyWhen` and
  `ExpiryIsSafeExactlyWhen` give the exact condition.
* The backoff can miss an overflow (`Backoff.UnboundedBaseMayWrap`); `Backoff.BackoffIsIdealExactlyWhen`
  says for which bases and caps.
* A provider may accept a revocation and keep the key recoverable for a while (encryption/kms/kms.go:301-305).
  Such a key counts as revoked in an erasure's result; only the certificate tells the difference
  (`Erasure.DataEraser.ScheduledKeyDeniesTheVerdict`).
* Re-encryption in place tags an untagged event, so an upcaster that reads the tags may make Load return
  something else (`EventCodec.ResealingMayChangeLoad`). `EventCodec.PassesKeepLoadExactlyWhen` says for
  which chains no Load ever changes.
* Re-erasing a subject is documented to succeed (eraser.go:449-451). Under the guard it is refused when a
  key that was revoked, and is found again through a tagged event, also protects an untagged one, which
  nobody can be shown to own any more (`ErasureSpec.RerunMayBeRefused`). `Erasure.DataEraser.EraseTwice`
  gives the exact condition.

## Model

| member | source | states |
|---|---|---|
| Retention.RetentionManager.Run | retention.go:367-523 | One sweep's complete effect: exactly the report, the revoked keys and the checkpoint that the sweep's specification determines; a failed read changes neither key nor checkpoint |
| Retention.RetentionManager.ScanStore | retention.go:425-480 | The batched loop visits a prefix of the events after the start, the whole rest unless the cap ended it, and its counters, candidates, frontier and freeze are those of the fold over that prefix |
| Retention.RetentionManager.ScanEvent | retention.go:439-476 | One event's policies, the frontier, the freeze and the cap check |
| Retention.RetentionManager.VisitEvent | retention.go:440-455 | Every active policy is applied to the event, and the event is pending exactly when some policy matches it too young |
| Retention.RetentionManager.Act | retention.go:577-608 | What one eligible match does to candidates, counters and errors, on real and dry runs |
| Retention.ShredCandidates.Add | retention.go:544-553 | A key's recorded frontier is the one before its first match, and the floor is the least of them |
| Retention.ShredCandidates.Settled | retention.go:566-571 | The resume point is the furthest one that lies neither beyond the frontier nor beyond the recorded frontier of any candidate, so it is safe whatever the guard decides |
| Retention.RetentionManager.DetectSharedShredKeys | retention.go:646-667 | The whole-store scan counts, for each candidate key, exactly the enveloped events no Shred policy covers |
| Retention.RetentionManager.GuardSharedKeys | retention.go:619-639 | Candidates are split into keys to revoke and keys refused, each refusal reported with its count; a failed scan decides nothing |
| Retention.RetentionManager.Revoke | retention.go:702-719 | Exactly the keys to revoke that the provider accepts are revoked and every refusal is an error |
| Retention.RetentionManager.SettleMatches | retention.go:493-511 | Matches of revoked keys are acted on, all others skipped, and the frontier is held back to just before the first match of every key that stays unrevoked |
| Retention.RetentionManager.ActivePolicies | retention.go:377-386 | Unscoped policies are left out, and they and hookless ones are reported |
| RetentionScan.FrontierIsSettled | retention.go:410-461 | No visited event at or below the frontier is pending; the frontier is the start or an event's position, and it is frozen exactly when some visited event is pending |
| RetentionScan.ShreddableAreCandidates | retention.go:544-553 | Every shreddable event visited has its key among the candidates with a recorded frontier strictly below the event |
| RetentionScan.CandidatesAreShreddable | retention.go:544-553 | Every candidate key comes from a shreddable event visited and its recorded frontier lies between start and final frontier |
| RetentionScan.ScanConserves | retention.go:577-608 | During a real scan every match is acted on, skipped, a failed hook call, or waiting under its key |
| RetentionScan.DryScan | retention.go:577-608 | A dry scan sees what a real scan sees and counts nothing as acted on or skipped |
| RetentionSpec.OutOfScopeIff | retention.go:673-699 | A key has out-of-scope events exactly when some enveloped event under it in the whole log is covered by no Shred policy |
| RetentionSpec.CategoryIs | retention.go:132-137 | A stream is of a category exactly if it is named after it, alone or with a '-' and more behind it; an id that starts with a '-' is its own |
| RetentionSpec.MatchMeans | retention.go:99-130 | An event matches exactly when it meets every matcher that is set: category, prefix, tenant, type and age; a policy is unscoped exactly when none is |
| RetentionSpec.PendingMeans | retention.go:122-130 | An event is pending exactly when some policy, whatever its action, is only too young to match it |
| RetentionSpec.PolicyErrorsMean | retention.go:87-104 | Exactly the policies that match everything, and those that want a hook and have none, are reported |
| RetentionRuns.KeysToRevokeAreExactly | retention.go:610-667 | A key is to be revoked exactly when the sweep saw a shreddable event under it and the guard is off or every enveloped event under it is covered; it is revoked unless the run is dry or the provider cannot |
| RetentionRuns.CondemnedKeysAre | retention.go:108-137 | Said of the policies as they are written: a key is to be revoked or refused exactly when an enveloped event the sweep saw under it meets every matcher of some Shred policy; a key that passes the guard protects no other event, and a refused one does |
| RetentionRuns.CategoryBounds | retention.go:132-137 | When all Shred policies name one category, every revoked key has an event on one of that category's streams |
| RetentionRuns.RevocationStaysInScope | retention.go:610-699 | With the guard on, a sweep changes the decryptability of no event outside the Shred policies |
| RetentionRuns.MatchesAreConserved | retention.go:482-511 | Matched = Acted + Skipped + failed hook calls, for every real sweep |
| RetentionRuns.DryRunPreviewsApply | retention.go:346-352 | A dry run reports the scanned, matched, plaintext, to-revoke and refused figures of the real run and acts on nothing |
| RetentionRuns.VisitedEventIsSettled | retention.go:410-475 | Whatever lies at or below a sweep's final frontier is not pending, and its key was revoked by this very sweep if a Shred policy matches it |
| RetentionRuns.EveryRunStaysSettled | retention.go:396-521 | Over every sequence of appends, clock advances, foreign revocations and checkpointed Apply runs, with any guard, provider and write outcome, nothing at or below the checkpoint is pending and every enveloped Shred match there has its key revoked |
| RetentionRuns.ResumingRevokesTheSame | retention.go:396-480 | In a settled state a key is revoked by resuming exactly if it is by starting over |
| RetentionRuns.CompleteApplyRevokes | retention.go:619-719 | Which keys a sweep that reaches the head revokes, read off the log alone |
| RetentionRuns.RescanIsComplete | retention.go:388-394 | Without a checkpoint no scan is ever cut short, so it revokes what a complete sweep does |
| RetentionRuns.CapEndsTheSweep | retention.go:464-480 | The cap ends a checkpointed sweep exactly at the first event, from the cap on, after which its resume point can safely move; otherwise the sweep reaches the head |
| RetentionRuns.ResumedSweepEqualsRescan | retention.go:396-480 | From any settled state a resumed sweep that reaches the head leaves the same revoked keys as a sweep of the whole store |
| RetentionRuns.TruncatedSweepProgresses | retention.go:464-475 | A sweep cut short by the cap ends with a strictly larger resume point and strictly fewer events above it |
| RetentionRuns.CappedSweepsReachTheHead | retention.go:464-520 | On a fixed log there are at most as many capped sweeps in a row as events above the first checkpoint |
| RetentionRuns.UnfailedSweepHandledEverything | retention.go:482-520 | A real sweep that reports no error acted on every match and left no plaintext and no refused key |
| FieldPaths.SegmentsAreInjective | encryption.go:573-575 | Different paths have different segments |
| FieldPaths.DepthCountsSegments | encryption.go:726-728 | Counting dots gives the number of segments |
| FieldPaths.ValidPathMeans | encryption.go:774-785 | A path is well formed exactly when it is not empty and has no dot at either end or beside another |
| FieldPaths.OrderByDepthOrders | encryption.go:734-754 | The sort orders by depth, either way |
| FieldPaths.OrderByDepthIsStable | encryption.go:734-754 | Paths of equal depth keep their given order |
| FieldPaths.FlatListsAreOrdered | encryption.go:734-745 | Skipping the sort when no path is nested makes no difference |
| Sealing.SealOutcomeIs | encryption.go:573-615 | A field is sealed exactly when its path leads to a value, and refused exactly when some parent on it is neither an object nor null |
| Sealing.SealedTree | encryption.go:573-615 | After sealing, the path holds the box of its value, unrelated paths are untouched and nothing below it can be reached |
| Sealing.UnsealUndoesSeal | encryption.go:633-680 | Unsealing a path restores the tree it was sealed in |
| Sealing.SealedAreTheResolving | encryption.go:341-351 | Deepest first, sealing succeeds exactly when no path clashes with the original tree and seals exactly the paths that resolve in it |
| Sealing.UnsealsCommute | encryption.go:424-431 | Unsealing two different paths of equal depth commutes |
| Sealing.AnyDepthOrderUnseals | encryption.go:756-761 | Any two depth-ordered arrangements of the recorded names unseal to the same tree |
| Sealing.SealUnsealRoundTrip | encryption.go:341-431 | For any tree and any list of paths, overlapping ones included, unsealing the recorded names in any recorded order restores the tree |
| Sealing.EveryConfiguredPathIsHidden | encryption.go:336-351 | In the sealed tree every configured path leads to a box or to nothing |
| Sealing.AcceptedBindingsAre | encryption.go:695-720 | A reader accepts the full path or its leaf, with the stream or, as old boxes have it, without |
| Sealing.SealingShows | encryption.go:341-351 | Whatever is sealed, the tree changes: the value at the last path sealed is wrapped deeper than before |
| FieldEncryption.FieldEncryptionConfig.constructor | encryption.go:202-211 | Every path is validated once and every event type's sealing order is the depth order |
| FieldEncryption.FieldEncryptionConfig.EncryptFields | encryption.go:308-371 | The method's checks and loop compute the specified encryption |
| FieldEncryption.FieldEncryptionConfig.EncryptJSONField | encryption.go:573-615 | The recursive walk computes the seal at the path's segments, bound to the full path |
| FieldEncryption.FieldEncryptionConfig.DecryptFields | encryption.go:374-440 | The method's checks and loop compute the specified decryption |
| FieldEncryption.FieldEncryptionConfig.DecryptJSONField | encryption.go:633-680 | The recursive walk computes the unseal at the path's segments, reporting tampering and unopened boxes apart |
| FieldEncryption.FieldEncryptionConfig.DecryptFieldValue | encryption.go:695-720 | A value is found exactly when one of the four accepted bindings opens the box |
| FieldEncryption.EncryptThenDecrypt | encryption.go:308-440 | Decrypting an encrypted event gives its payload back under any configuration that can unwrap the key, whatever the order of the recorded names |
| FieldEncryption.EncryptionFollowsThePayload | encryption.go:341-368 | Success, the recorded names and the presence of a complete envelope are read off the payload |
| FieldEncryption.EncryptsExactlyWhen | encryption.go:308-371 | Encryption of a type with configured fields succeeds exactly when every path is well formed, a provider has a usable key for the event, and no path clashes with the payload; the key recorded is the resolver's answer for the tenant, or else for the first tag, and the default only where resolution is not required |
| FieldEncryption.DecryptionFailsClosed | encryption.go:374-431 | Ciphertext is served only opened under a supported algorithm and a usable key, or as it is with the handler's consent |
| FieldEncryption.ShreddedFieldsStayHidden | encryption.go:396-407 | Without a usable key a reader gets an error, or ciphertext that shows no configured field |
| FieldEncryption.BoxOpensOnlyWhere | encryption.go:552-557 | A box moved elsewhere opens exactly at its own stream and path or as the leaf of that name |
| FieldEncryption.DepthOrdered | encryption.go:734-761 | The order used on both sides is the depth order |
| Upcasting.UpcasterChain.Register | versioning.go:57-94 | Registration keeps each type's transitions ascending and the latest version right, and refuses bad and duplicate ones |
| Upcasting.UpcasterChain.Validate | versioning.go:99-119 | It reports no gap exactly when every chain is contiguous, and a reported gap is real |
| Upcasting.UpcasterChain.Upcast | versioning.go:130-170 | The loop computes the specified upcast, gaps and failures included |
| Upcasting.UpcasterChain.LatestVersion | versioning.go:206-214 | The version after the last transition, or the default |
| Upcasting.RegistrationOrderIsIrrelevant | versioning.go:75-91 | The same upcasters registered in any order make the same chain |
| Upcasting.UpcastIsStepByStep | versioning.go:130-170 | From any version every version up to the latest gets its own step once, ascending, or the first missing one is reported |
| Upcasting.ValidIffNoGap | versioning.go:99-119 | A chain is contiguous if and only if no version from its lowest start on runs into a gap |
| Upcasting.TwoLegsAreOne | versioning.go:130-170 | Upcasting with a chain and later with an extension of it equals upcasting with the extension |
| Upcasting.NothingToUpcast | versioning.go:121-125 | Data at or beyond the latest version is unchanged |
| SubjectTags.CleanSubjects | subject.go:198-218 | The loop keeps the first occurrence of every non-empty id in order |
| SubjectTags.CleanMeans | subject.go:198-218 | Cleaning keeps exactly the non-empty ids, each once |
| SubjectTags.ReplacedTagsAreTheTaggers | subject.go:58-70 | Replacing tags leaves exactly the tagger's |
| EventCodec.StoredTagsAre | store.go:1013-1034 | What an append records as tags, whatever the caller's metadata: by default exactly the tagger's non-empty ids; where callers are trusted theirs stay, ahead of the tagger's; without a tagger they are untouched |
| EventCodec.ResealedTagsAre | store.go:817-822 | Re-encryption records tags under the same policy |
| EventCodec.SealedForItsSubject | store.go:1074-1083 | With required subject-scoped keys an appended event is sealed under the key of the first subject the tagger names, whatever the caller's metadata |
| EventCodec.StoredVersionIs | store.go:981-1011 | An append stores the caller's version only if callers may set it, the type has upcasters and it lies between 1 and the latest; otherwise the latest, or none without upcasters; and nothing over the size limit |
| EventCodec.NoForgedEnvelope | store.go:957-978 | No caller metadata survives under the envelope keys: a stored envelope is complete and the store's own, or there is none and the payload is as given |
| EventCodec.AppendThenLoad | store.go:887-928 | For every caller metadata, Load returns the appended payload upcast from the version it was stored under |
| EventCodec.AppendThenLoadIsIdentity | store.go:1049-1095 | With the default policies Load returns exactly the appended payload |
| EventCodec.ReEncryptStreamInPlace | store.go:846-885 | However far the pass gets, each row is as it was or sealed once; a completed pass settles every row; a pass over settled rows rewrites none; the count is the number of rows changed |
| EventCodec.ReEncryptRow | store.go:861-882 | One row is sealed where it stands, or left alone, and then has nothing left to do |
| EventCodec.ResealingIsAppending | store.go:802-828 | Sealing a stored event gives exactly what an append of it would have stored |
| EventCodec.ResealingKeepsPayload | store.go:801-846 | Whatever its upcasters do, a rewritten row keeps its payload, its recorded version and everything but data and reserved metadata, and Load of it is the upcast of the old payload under the new metadata |
| EventCodec.PassesKeepLoadExactlyWhen | store.go:801-885 | Per store and event type: passes leave every Load unchanged, however far they got, if and only if the upcaster chain answers alike on each plaintext event under its metadata and under those that sealing stamps |
| EventCodec.ResealingKeepsLoad | store.go:801-846 | Passes keep every Load when the type's upcasters read neither the envelope nor the tags |
| EventCodec.ResealingKeepsTaggedLoad | store.go:801-846 | Load of an event whose tags stay as they are is unchanged when the upcasters do not read the envelope |
| EventCodec.ResealingMayChangeLoad | store.go:811-828 | An upcaster that reads the tags, and an untagged event that Load returns differently once it is re-encrypted, so neither side of that equivalence holds |
| EventCodec.PassesCompose | store.go:837-841 | However many passes were cut short, each row is as it was or sealed once |
| EventCodec.PassThroughSettles | store.go:868-874 | An event with nothing to seal is skipped by every later pass, whatever the data key |
| SubjectSpec.RevocationOnlyHides | subject.go:160-192 | Revoking keys can take attributions away but never changes or adds one |
| SubjectSpec.AppendedIsAttributed | subject.go:173-176 | Under the default policy an appended event belongs to exactly those the tagger named, for every later reader and whatever became of the keys |
| SubjectSpec.SealedIsAttributedAsPlaintext | subject.go:177-245 | While its key is usable a sealed event is attributed exactly as its plaintext would be, by the caller's tagger or else the store's, to the non-empty ids it names |
| SubjectSpec.BackfilledIndexAgreesWithScan | subjectindex.go:99-124 | After a backfill with the same tagger, index and scan give the same footprint for every subject, apart from the partial flag |
| SubjectSpec.CoveringIndexAgreesWithScan | subject.go:487-525 | Stale extra streams in an index do not matter; missing ones are the only thing that does |
| SubjectSpec.ReportMeans | subjectindex.go:137-163 | Scanned = indexed + untagged, undecryptable is part of untagged, and untagged is non-zero exactly when a scan is partial |
| SubjectResolution.FootprintBuilder.Record | subject.go:633-645 | One more event keeps streams, counts, keys, cleartext count and memo exact |
| SubjectResolution.SubjectResolver.Resolve | subject.go:462-480 | The resolved footprint and the remembered events are exactly the subject's |
| SubjectResolution.SubjectResolver.ResolveByScan | subject.go:530-557 | The scan finds the subject's footprint in the whole log and is partial exactly when some event can be attributed to nobody |
| SubjectResolution.SubjectResolver.DetectSharedStreams | subject.go:576-593 | A footprint stream is shared exactly when some event on it has a subject other than the target among its subjects |
| SubjectResolution.SubjectResolver.ResolveByIndex | subject.go:487-505 | The index path finds exactly the subject's events on the listed streams |
| SubjectResolution.MemorySubjectIndex.IndexSubjects | subjectindex.go:45-66 | Each non-empty subject gains the stream, nothing is lost and no other subject changes |
| SubjectResolution.BackfillSubjectIndex | subjectindex.go:171-206 | A completed backfill adds exactly every attributed event's stream under each of its subjects, and its report is the exact tally; it fails only on a failing load or index write |
| ErasureSpec.ExclusiveRevocationSparesOthers | eraser.go:140-150 | Revoking keys the guard passes changes neither what Load returns for an event that is not the target's alone nor whom it is attributed to |
| ErasureSpec.SharedKeysAre | eraser.go:1069-1087 | The guard refuses exactly the keys over an event that has a subject other than the target among its subjects, or no subject at all |
| ErasureSpec.RevocationAddsNoKeys | eraser.go:1101-1119 | With quiesced writes the second resolve finds no key the first one did not |
| ErasureSpec.RerunIsRefusedExactlyWhen | eraser.go:1048-1099 | Of keys that were the target's alone the guard refuses, after some are revoked, exactly the revoked ones that protect an untagged event |
| ErasureSpec.RerunMayBeRefused | eraser.go:1072-1091 | A log of one tagged and one untagged event under a key that is the subject's alone: once it is revoked it is found again and refused |
| ErasureSpec.ScopedStreamsSpareCoTenants | eraser.go:784-808 | A listed stream with attributable events contributes exactly the keys of the subject's own events in the requested period that the filter lets through, and is partial exactly if it skips one nobody can be attributed; a stream without any contributes those of all such events |
| ErasureSpec.CleanReportMeans | verify.go:210-216 | A clean report leaves each event that is the subject's, or nobody's, shredded for good |
| ErasureSpec.CleanExactlyWhen | verify.go:210-216 | A report is clean exactly when nothing was partial and each event that is the subject's, or nobody's, is shredded for good; it checked something exactly when some event is the subject's |
| ErasureSpec.CleanVerificationCoversTheLog | verify.go:470-526 | If the verification of what was found is clean, every event of the whole log that was the subject's before the revocation is shredded for good, attributable or not, provided no stream of the subject was missed |
| ErasureSpec.FiledStep | verify.go:535-562 | Classifying one more event keeps the report exact |
| Erasure.DataEraser.Erase | eraser.go:455-607 | With others appending from discovery on, before and after the first revocation: the request's scope, and late keys all or none, are what is revoked, attested and recorded, and no other key changes state; under the guard every event under a revoked key has the target for its only subject, and all others load and are attributed as before; the verdict is positive exactly when nothing remains in events, sibling stores, read models, marker and keys, and then speaks for the whole log whenever the resolver missed none of the subject's streams; the index goes exactly when the erasure is verified and complete; with quiesced writes only the scope is revoked; an error without result leaves keys and index as they were |
| Erasure.DataEraser.EraseTwice | eraser.go:449-454 | A second erasure with quiesced writes finds no new key and changes no key's state; if the store can be read it is refused exactly when the guard is on and a revoked key it finds again protects an untagged event |
| Erasure.DataEraser.ScopeIs | eraser.go:464-521 | A request that names only its subject is resolved by scan or index; any other is what the sources it names come to |
| ErasureSpec.FilteredScopeIs | eraser.go:852-935 | A filtered request condemns the keys it names and those of the events in its period that its filter lets through, and no other |
| Erasure.DataEraser.ErasureSparesOthers | eraser.go:523-547 | Under the guard every event under a revoked key is the target's alone, and every other event loads and is attributed as before the erasure, late keys included |
| Erasure.DataEraser.VerdictCoversTheLog | verify.go:302-330 | A positive verdict leaves each of the subject's events of the log under a permanently revoked key when the recorded streams and events are all the subject's |
| Erasure.DataEraser.QuiescedAddsNothing | eraser.go:1101-1119 | Unless others append meanwhile, the second resolve finds no late key, by scan or index |
| Erasure.DataEraser.DetectSharedKeys | eraser.go:1048-1099 | The scan reports exactly the keys under which some event has a subject other than the target among its subjects, or none |
| Erasure.DataEraser.CollectStreamKeys | eraser.go:791-808 | A listed stream contributes exactly the selected events' keys, and tells whether it is shared and whether it skipped unattributable events |
| Erasure.DataEraser.DiscoverKeysByStream | eraser.go:689-712 | Keys, streams, shared streams and attested events of the listed streams, each by its own scoping rule, and partial exactly when one of them skipped an unattributable event |
| Erasure.DataEraser.DiscoverKeysByScan | eraser.go:852-900 | Keys, streams and shared streams of exactly the matching events, and the subject's own among them as attested |
| Erasure.DataEraser.GuardAndRevoke | eraser.go:523-560 | Nothing is revoked when the guard refuses, reporting exactly the shared keys, or when revocation is unsupported; otherwise exactly the accepted keys leave service, for good or pending deletion as the provider decides, and the rest are recorded as failed |
| Erasure.DataEraser.ReconcileAfterRevoke | eraser.go:1105-1155 | Late keys are revoked all or none, only under the same guard, and make the result partial; without late keys nothing changes |
| Erasure.DataEraser.VerifyStreams | verify.go:470-526 | A completed verification reports exactly on the events of the given streams |
| Erasure.DataEraser.BuildCertificate | verify.go:302-460 | The verdict is positive exactly when every gate passes: clean events, no count of a sibling store fails or finds a row, all of them erased and unshared, no failed key, the marker written, no residual read model, and not vacuous |
| Erasure.DataEraser.VerifiedExactlyWhen | verify.go:302-460 | A completed verification is positive exactly when nothing is partial, no key was refused, every read model was redacted, no marker lost, every sibling store erased whole with no row it can count, every event of the subject's or nobody's on the streams shredded, and, unless nothing was to be erased, some event proves it |
| Erasure.DataEraser.ScheduledKeyDeniesTheVerdict | verify.go:205-216 | A key whose deletion is only scheduled counts as revoked, yet no verdict is positive while an event of the subject's lies under it |
| Erasure.DataEraser.AccountabilityMeans | eraser.go:566-597 | Losing the marker or the certificate fails the erasure exactly under strict accountability; a verification runs exactly for a sink or for the index |
| Erasure.DataEraser.PurgeSubjectIndex | eraser.go:614-624 | The index entries go exactly when the erasure is verified and did not fail and the deletion succeeds; a failing deletion is an error |
| Erasure.DataEraser.PurgeMeansNothingFailed | eraser.go:609-624 | The index is given up only when every key was accepted and none was late, every read model redacted, every sibling store erased, every hook run and no marker lost |
| Erasure.ErasureResult.Failed | eraser.go:415-427 | Failed exactly when there are errors, a partial footprint, a residual read model or a skipped store |
| ProjectionWorker.AsyncWorker.ProcessAsyncBatch | projection_engine.go:1483-1661 | One cycle's load, decrypt cut, batch handler, sequential fallback and checkpoint do what the specification says |
| ProjectionWorker.AsyncWorker.SelectEvents | projection_engine.go:1563-1591 | The batch is cut exactly at the first handled event that cannot be decrypted |
| ProjectionWorker.AsyncWorker.ApplySequentially | projection_engine.go:1616-1630 | Exactly the events before the first failure are applied, and an error names that event while a panic does not |
| ProjectionWorker.AsyncWorker.HandlePoisonEvent | projection_engine.go:1152-1184 | An accepted poison event is skipped and the position moves to it even if the checkpoint write fails |
| ProjectionWorker.AsyncWorker.RunOnce | projection_engine.go:1312-1480 | One lifetime of polling turns, with its two error counters and its exits |
| ProjectionWorker.AsyncWorker.Supervise | projection_engine.go:1273-1305 | The supervising loop restarts a faulted worker from its checkpoint for as long as the policy permits |
| ProjectionSpec.BatchKeepsNoLoss | projection_engine.go:1483-1661 | One batch loses nothing, whatever fails in it short of a batch handler's own error |
| ProjectionSpec.PoisonKeepsNoLoss | projection_engine.go:1152-1184 | Skipping the failed event loses nothing but that event |
| ProjectionSpec.SkipLosesNothingExactlyWhen | projection_engine.go:1152-1184 | A skip loses nothing exactly when nothing before the skipped event was lost |
| ProjectionSpec.NoEventIsEverLost | projection_engine.go:1273-1480 | Over every supervised life, with or without a batch handler, each handled event at or below the position or the checkpoint was applied or accepted as poison, and so was everything strictly before the failing event, as long as no batch handler answers with an error |
| ProjectionSpec.BootStartsAt | projection_engine.go:1312-1343 | A lifetime begins at 0 only if it need not resume and starts from the beginning; otherwise at the checkpoint, once one of three reads succeeds |
| ProjectionSpec.NeverFallsBackExactlyWhen | projection_engine.go:1307-1343 | A resumed worker never falls back behind its checkpoint, whatever it meets, exactly unless it carries over an event behind it that the poison handler would skip |
| ProjectionSpec.NoRestartReplays | projection_engine.go:1267-1305 | In every lifetime after the first, and in the first if it resumes, the worker begins at its checkpoint and never loads an event at or below it, whatever StartFromBeginning says |
| ProjectionSpec.SupervisedFrom | projection_engine.go:1273-1305 | Each restart goes on as a supervised life of its own, and only restarts the policy permits happen |
| ProjectionSpec.FirstFailureStops | projection_engine.go:1616-1630 | Exactly the events before the first one not accepted are applied; an error makes that event the failing one, a panic names nothing new |
| ProjectionSpec.CatchesUp | projection_engine.go:1483-1661 | After no more smooth turns than events left the worker and its checkpoint are at the head of the log, and every handled event was applied or accepted as poison |
| ProjectionSpec.PausedTurnsDoNothing | projection_engine.go:1371-1375 | However long it is paused, a worker does nothing but show it |
| ProjectionSpec.TurnLosesNothingExactlyWhen | projection_engine.go:1388-1436 | Whatever the batch handler answers, a turn loses something exactly when it skips an event before which something was lost |
| ProjectionSpec.SightedSkipsLoseNothing | projection_engine.go:1388-1436 | Over every stretch of polling, whatever the batch handler answers, nothing is lost as long as no skip is blind |
| ProjectionSpec.TransientErrorsNeverFault | projection_engine.go:1388-1427 | Transient errors never fault the worker, never show as a fault and never reach the poison handler |
| ProjectionSpec.SkipsFollowTheBudget | projection_engine.go:1420-1436 | An event is skipped only after as many poison errors in a row as the budget has, whatever transient errors and pauses lie between |
| ProjectionSpec.SupervisedExitShowsInState | projection_engine.go:1273-1305 | A stopped worker shows as stopped, and one that is given up shows as faulted and only without a policy that still permits a restart |
| ProjectionSpec.SkippingAFailedBatch | projection_engine.go:1631-1639 | After a failing batch handler a skip loses nothing exactly when every event but the last was accounted for |
| Supervision.AtMostOneSupervisor | projection_engine.go:1242-1265 | For any interleaving of launches, exits and one Stop each worker has at most one live supervisor |
| Supervision.NeverAddedAfterStop | projection_engine.go:586-591 | Once stopping is set the wait group is never incremented |
| Supervision.JoinedMeansNoneLive | projection_engine.go:593-609 | When the join has returned no supervisor lives, and a flag is set exactly by a launch on its way to being refused |
| Supervision.QuietJoinClearsEveryGuard | projection_engine.go:1254-1261 | With no launch under way every supervising flag is clear after the join |
| Supervision.RacingRestartLeavesAGuard | projection_engine.go:736-754 | A concrete run in which the join returns with a flag set |
| Backoff.BackoffIsIdealExactlyWhen | projection_engine.go:250-268 | In 64-bit wrapping arithmetic every delay is min(base·2^shift, cap) if and only if the cap is at most the least positive value an overflowing delay wraps around to |
| Backoff.DelaysGrowExactlyWhen | projection_engine.go:246-268 | Delays never shrink if and only if the same condition holds |
| Backoff.DelaysGrowAndAreCapped | projection_engine.go:246-392 | Under that condition retries and restarts wait for the base delay at first, twice as long each time, and never longer than the cap |
| Backoff.SmallBasesMeetIt | projection_engine.go:250-268 | A base and a cap whose product stays below 2^63 always meet it |
| Backoff.FallbackIsTheSameBackoff | projection_engine.go:1437-1451 | The built-in fallback is the same backoff from 100ms to 30s |
| Backoff.UnboundedBaseMayWrap | projection_engine.go:262-267 | A base and cap for which an overflow goes unnoticed, and one beyond 2^63 for which none does |
| SagaRow.RemoveProcessedEventKey | saga_manager.go:2001-2012 | The loop removes every occurrence of the key and keeps the order |
| SagaRow.RowStepKeepsOk | saga_manager.go:1393-1416 | A lawful save keeps the list distinct, bounded and equal to the latest events folded |
| SagaRow.FoldKeepsDistinctExactlyWhen | saga_manager.go:1406-1416 | Folding an event keeps the list distinct exactly when the event is not among the entries that stay |
| SagaProtocol.PersistedListIsSound | saga_manager.go:1393-1509 | In every run without an eviction under a blocked call, capture on or off, the persisted list is duplicate-free, at most 100 long and equal to the latest events folded, non-terminal rows are non-empty, and no manager works on the saga twice at once |
| SagaProtocol.EveryChangeIsLawful | saga_manager.go:1836-1937 | A terminal row changes only by a retry, which clears only the retried key; a listed event is never folded again; failures fold nothing |
| SagaProtocol.SoundExactlyWithoutCapture | saga_manager.go:1393-1470 | With no condition on the interleaving: the persisted list is sound in every run, and every change of the row is lawful in every run, if and only if trigger events are not captured for retries |
| SagaProtocol.NextRowIsLawful | saga_manager.go:1026-1073 | What a call is about to write is a lawful change of what it read |
| SagaProtocol.OnlyTheseAreAdmitted | saga_manager.go:942-986 | Only a live starting event creates a saga; a retry goes on only with a settled saga that did not complete, a resume with a running one, a timeout sweep with one that has not ended |
| SagaProtocol.SavedRowTells | saga_manager.go:1026-1073 | Whatever other calls did between drive and save: a completing drive is saved as completed, any other good one as running, a failed one under its own status; only a good drive lists its event; the trigger event is kept exactly if captured |
| SagaProtocol.OnlyDeliveriesStartOver | saga_manager.go:747-795 | A save the store refuses changes nothing, and only a live delivery may start over, under the same mutex |
| SagaProtocol.AdvanceKeepsLocks | saga_manager.go:617-620 | The mutex discipline survives every step unless a mutex is evicted under a blocked call |
| SagaProtocol.OneCallAtATimeEvictsAlone | saga_manager.go:617-620 | No call is blocked on an evicted mutex when a manager gets one call for the saga at a time |
| SagaProtocol.EvictionUnderAWaiterDuplicates | saga_manager.go:1465-1470 | With capture on, a run from the empty store leads to a list that holds an event twice, by a change no job may make |
| IdempotencyKeys.TruncateUTF8Bytes | audit.go:212-224 | The loop cuts at the last rune start at or before the limit |
| IdempotencyKeys.RunesAreScalars | audit.go:210-224 | What counts as a character is exactly the UTF-8 form (section 3 of RFC 3629) of a Unicode scalar value |
| IdempotencyKeys.TruncationIsSafe | audit.go:210-224 | Truncating valid UTF-8 gives a valid prefix that fits and loses at most three bytes more than required |
| IdempotencyKeys.KeyFits | idempotency.go:176-192 | The key never exceeds 255 bytes, is empty only for the empty key, and is an unscoped key itself where that fits |
| IdempotencyKeys.PrincipalsNeverCollide | idempotency.go:157-164 | Unhashed keys of scoped principals are equal exactly when scope and key are |
| IdempotencyKeys.UnscopedKeysMeetExactlyWhen | idempotency.go:157-176 | A command without a scope meets a scoped one exactly when its key spells out the other's encoding |
| IdempotencyKeys.HashedKeysKeepTheScope | idempotency.go:166-171 | Hashed keys meet only if the digests of the full scoped keys do |
| IdempotencyKeys.MixedKeysKeepTheScope | idempotency.go:166-176 | A key stored as it is never meets a hashed key of another scope |
| IdempotencyKeys.ScopesNeverMeet | idempotency.go:157-171 | However long scopes and keys are, commands of two scopes meet in the store only if the digests of their full keys do |
| IdempotencyProtocol.OneOwnerAtATime | idempotency.go:307-386 | In every run of unboundedly many callers at most one owns the key, so at most one handler runs at a time |
| IdempotencyProtocol.InFlightIffOwned | idempotency.go:262-265 | An in-flight record is there if and only if exactly one caller owns the key, unless a handler's error text is the marker |
| IdempotencyProtocol.UnownedInFlightExactlyWhen | idempotency.go:366-383 | Settling leaves an in-flight record nobody owns exactly when it stores such a result |
| IdempotencyProtocol.OnceStoredAlwaysReplayed | idempotency.go:333-361 | Once a result is stored no handler runs again and every later call returns that record's result |
| IdempotencyProtocol.SettlingStores | idempotency.go:368-379 | A success, and a failed command where errors are stored, is stored with nobody left owning the key |
| IdempotencyProtocol.SettlingFrees | idempotency.go:380-383 | Any other result frees the key, and the next caller runs |
| IdempotencyProtocol.ReleasingFrees | idempotency.go:368-379 | A result that cannot be stored still goes back to its caller, and once the reservation is released the next caller runs |
| IdempotencyProtocol.ReplayIsTheResultExactlyWhen | idempotency.go:72-106 | A replay gives back the stored success exactly when it had no data and its aggregate id fits; a failure comes back as a failure that says the same |
| IdempotencyProtocol.SuccessIsReplayed | idempotency.go:333-361 | Such a success is what every call answers that finishes after it was stored |
| IdempotencyProtocol.FailurePolicyIsKept | idempotency.go:324-353 | Over every run, failures and expiry included: fail-closed, no handler starts unless its caller has just reserved the key; fail-open, no command is refused for an unavailable store |
| IdempotencyProtocol.OneHolderUnlessDisturbed | idempotency.go:307-386 | With failing stores, expiry and late removals, at most one caller holds the key as long as no record expires or is removed while somebody does |
| IdempotencyProtocol.RemovalIsSafeExactlyWhen | idempotency.go:340-344 | Removing a stale record seen earlier keeps exclusion exactly when nobody holds the key at that moment |
| IdempotencyProtocol.ExpiryIsSafeExactlyWhen | idempotency.go:333-344 | A record's expiry keeps exclusion exactly when nobody holds the key as it expires |
| IdempotencyProtocol.ExpiryBreaksExclusion | idempotency.go:340-344 | From the empty store: two callers that saw the same expired result both run their handlers |

## Left out

- RetentionRuns.EveryRunStaysSettled: failures of redaction and anonymization hooks are not held back by the frontier, so they are outside the settledness claim
- RetentionRuns.ResumedSweepEqualsRescan: takes revocation as idempotent with a fixed outcome per key
- Sealing.SealUnsealRoundTrip: JSON objects are values here; the in-place overwriting of a decoded tree's map entries is not modelled, and trees decoded from text share no parts
- FieldEncryption.EncryptThenDecrypt: the AEAD, base64 and JSON formatting are ideal; numbers keep their literal
- EventCodec.AppendThenLoad: the byte-size limit is any predicate on the payload; serializers, expected versions and the adapter's append are not part of this model
- SubjectSpec.BackfilledIndexAgreesWithScan: the partial flag of an index-backed footprint is the caller's assertion and not derived from the log, so a verified index-backed erasure says nothing about unattributable events
- Erasure.DataEraser.Erase: others append at two moments, between discovery and the guard's scan and after that scan up to the reconciliation, not in the middle of a scan; what is said of other events holds of those the guard's scan saw; the purgers of sibling stores, read-model redactors, hooks and the marker stream appear by their outcomes only; notes, cleartext and scan counters of the result are not modelled
- Erasure.DataEraser.EraseTwice: for resolver-scoped erasures, with a provider whose refusals stay the same
- ProjectionSpec.NoRestartReplays: takes the poison handler's answer to depend on the event alone; `ProjectionSpec.NeverFallsBackExactlyWhen` covers any worker a lifetime may begin with
- ProjectionSpec.NoEventIsEverLost: without a concurrent rebuild, and with batch handlers that do not answer with an error; the lemmas on skips cover those that do
- Supervision.JoinedMeansNoneLive: one Stop; live projections and engine reuse after a stop are not modelled
- SagaProtocol.PersistedListIsSound: with capture on, for runs in which no call is blocked on a mutex as it is evicted; capture is one setting for all managers; sagas do not set their own status and rows are not deleted
- IdempotencyProtocol.OneOwnerAtATime: for runs without record expiry and without failing store operations, which `IdempotencyProtocol.OneHolderUnlessDisturbed` adds; handlers that panic count as never returning
- Sorted and de-duplicated lists of keys and streams are sets; error lists are sets or counts; texts of errors and notes are not modelled
- Clocks, tickers and goroutine scheduling are inputs: a non-decreasing clock value, explicit turns, arbitrary interleavings
- Key providers are a set of unusable keys and a state per key; KMS and Vault providers, AES-256-GCM and SHA-256 themselves are not part of this model
- The saga cursor, correlation lookup, command dispatch retries and the reload of captured trigger events
- Concurrent registration of upcasters during an upcast
- Standalone verification, export, the schema registry, outbox routing, the command bus, repositories, rebuilders and live projections, which add easier members
