# Verification of the ADMZ control plane

ADMZ manages network devices: it gates risky operations behind a human confirmation, gets itself
into devices and keeps its own account there, learns what devices support, stores secrets, limits
login attempts, parks sign-in handshakes, waits for reboots, talks DNS on discovery and masks
secrets before showing anything. This project models that logic in Dafny and proves what it keeps
over whole runs: with devices, clocks, random values, the key file, database failures and the
scheduling of concurrent tasks as arbitrary inputs.

One module models one component:

| module | component |
|---|---|
| `ConfirmPolicy` | risk words, confirmation levels, the level of a plan |
| `ConfirmStore` | the shared table of confirmation sessions |
| `ApprovalContext` | the ambient approval, its scopes and its copying to spawned tasks |
| `Approval` | gate, consumers, approvers, scopes and onboarding as one interleaved system |
| `SecretParams`, `ApprovalParams` | the parameters of a held operation, from its caller to whatever runs |
| `ApprovalTime` | when a token may be read, won and run |
| `ApprovalSteps` | what each gate, an approval and an onboarding pass come to in that system |
| `Gate` | the gate and the consumer as single calls, and their place in that system |
| `EntryCredentials` | which credentials one pass tries, in what order, and what the page shows |
| `EntryListWrites` | adding to and removing from the stored entry list |
| `Provisioning`, `Onboarding` | account writes on a device, and the onboarding pass around them |
| `OnboardingDecisions` | every outcome of a pass, told beforehand from the state and the call |
| `BatchAdd` | adding several devices concurrently; removing several |
| `Capabilities` | the capability store, its leases and the learner |
| `FleetSettings` | encrypted settings and their migration under a changing key file |
| `SettingsRaces` | the same settings read in two statements, with other processes between them |
| `RateLimit` | the token-bucket limiter and its pruning |
| `RateLimitPruning` | for which policies the pruning can be noticed, exactly |
| `RateLimitDenials` | a check is denied only where a window is full; the built-in limits in numbers |
| `HandshakeParking` | the parking lot for sign-in handshakes |
| `Recovery` | the reboot-recovery poller |
| `DnsName`, `DnsMessage` | the DNS name encoder and decoder, and reading a response (section 4.1 of RFC 1035) |
| `Redact` | structure redaction |
| `Text`, `Wrappers` | ASCII string operations; `Option` and `Result` |

Objects whose methods change fields are classes here; each such method is proved equal to a function
of the old state, and the theorems are about those functions, folded over runs. Protocols are
transition systems: a label names a step and everything it meets, a disabled step changes nothing,
and a run is any sequence of labels.

Assumptions: encryption is symbolic (a token opens only under its key, and no two encryptions give
the same token); the hash behind a history fingerprint is injective; session tokens are never drawn
twice; each database statement is atomic; an operation on a device takes effect or fails without one.

Where the code is not what its own text or the obvious reading says, the model follows the code:

- `admz/api/confirm_store.py:406-437` says completing a session strips its payload; the statement at
  444-450 does not, and the strip is a later, separate step. `ConfirmStore` models two steps.
- `Onboarding.AdmzKeepsWorking`: a stored `admz` password survives a pass exactly when the pass is not one
  of those that `Onboarding.Clobbers` describes by its inputs: approved, on a device that overwrites
  accounts and a registry that cannot remove, with a stored password that step 1 does not see accepted,
  because the registry cannot be read, the password is empty or the device does not answer, and a
  candidate that gets in. `Onboarding.AdmzWorksAllAlong` is the same over all passes, and
  `Onboarding.ClobberedAdmz` gives two such runs.
- `ApprovalParams.SecretsReachTheTableIffUnclassified`: declared secrets stay out of the session table
  unless the lookup of what is declared fails; then a pending row holds exactly what its caller gave.
- `EntryListWrites.RemovalTakesTheShownRow`: the page reads its rows before it takes the revision, and the
  revision does not cover the key file. Without a write in between, the slot shown is the one removed
  exactly when the legacy pair is readable at both moments or at neither
  (`EntryListWrites.ChangedKeyShiftsTheRow` removes the next row instead); with one, it is the row that
  the position has in the settings the revision was taken of
  (`EntryListWrites.WriteBehindThePageShiftsTheRow`).
- `SettingsRaces.ChangeIsLostIff`: a `set` or `delete` of a secret is lost exactly when a reader that had
  found the legacy text before it writes that text back after it (`SettingsRaces.OldSecretComesBack`).
- `FleetSettings.UntroubledSweepLeavesNoPlaintext`: a sweep without failures leaves plaintext exactly
  where the text itself has the shape of a token; such a setting reads as unset.
- `DnsName.RoundTripExactly`: names survive exactly when every label is 1 to 191 characters long. The
  encoder also accepts empty labels and labels of 192 to 255, which the decoder reads differently.
- `BatchAdd.OnlyCancellationUnderstates`: a device the batch wrote is reported as not registered exactly
  when some step of the run cancels its coroutine while it awaits onboarding
  (`BatchAdd.CancelledRowUnderstates` is such a run).
- `RateLimit.WindowBoundIsExact`: lowering a capacity does not take back tokens, so the window bound
  fails exactly when the window opens at the instant of a caller's last refill and the caller still
  holds more than the capacity, a whole token at least (`RateLimit.Overfull`;
  `RateLimit.LoweredCapacityIsNotRetroactive` is such a run).
- `RateLimitPruning.PruningIsInvisibleIff`: forgetting idle buckets cannot be noticed exactly for policies
  whose capacity is below one token or refilled within 300 seconds. The built-in ones are.
- `HandshakeParking.PopReturnsExactly`: `pop` on a full lot first evicts the oldest, which may be the
  very handshake asked for.
- `EntryCredentials.FingerprintNamesOnePair`: a pair has its fingerprint to itself exactly when neither
  half of it holds NUL; `EntryCredentials.OtherSplitClashes` gives every other pair one that shares it.

## Model

| member | source | states |
|---|---|---|
| ConfirmPolicy.UnconfirmedRunsAreDeclared | admz/confirm_policy.py:40-79 | an operation resolves to `none` only for a word the table gives `none`, or one an operator set to `none` |
| ConfirmPolicy.LevelsAreByTheTable | admz/confirm_policy.py:40-79 | the level of a risk word: the override if it is one of the four levels, else the default table's, else `url_only` |
| ConfirmPolicy.UnknownWordIsSoftenedByNothingMild | admz/confirm_policy.py:103-116 | the known words ranking at least as high as an unknown word are exactly the three gated ones |
| ConfirmPolicy.PlanLevel | admz/operations.py:2007-2009 | a plan's level bounds the level of every step and is reached by one (or is `none`) |
| ConfirmPolicy.PlanLevelInWords | admz/operations.py:1992-2004 | a plan is at `url_and_password` if a step is, else at `url_only` if one is, else at `llm_confirm` if one is, else at `none` |
| ConfirmPolicy.PlanLevelIsUnique | admz/operations.py:1992-2004 | that description admits one level |
| ConfirmPolicy.PlanLevelIgnoresOrder | admz/operations.py:1992-2004 | reordering the steps does not change the level |
| ConfirmPolicy.PlanLevelOfConcatenation | admz/operations.py:1992-2004 | the level of two plans in sequence is the stricter of theirs |
| ConfirmPolicy.PlanLevelAndRisk | admz/operations.py:1992-2004 | the loop computes that level, and the risk word of the first step reaching it |
| ConfirmPolicy.GatePlan | admz/operations.py:2035-2085 | a plan runs at once iff its level is `none` or is `llm_confirm` with consent; a URL level is always held |
| ConfirmStore.SessionStore.CreateSession | admz/api/confirm_store.py:286-357 | a fresh pending session with its payload, after a cleanup |
| ConfirmStore.SessionStore.GetSession | admz/api/confirm_store.py:359-402 | an expired pending session is invisible, a resolved one is not |
| ConfirmStore.SessionStore.ResolveSession | admz/api/confirm_store.py:439-454 | only a live pending session is resolved, and the caller is told whether it won |
| ConfirmStore.SessionStore.CompleteSession | admz/api/confirm_store.py:404-454 | the pending-to-completed step |
| ConfirmStore.SessionStore.DenySession | admz/api/confirm_store.py:496-519 | the pending-to-denied step |
| ConfirmStore.SessionStore.StripPayload | admz/api/confirm_store.py:456-494 | only a completed session loses its payload |
| ConfirmStore.SessionStore.CleanUp | admz/api/confirm_store.py:586-627 | unresolved and denied sessions go a minute after their time; completed ones stay and lose old payloads |
| ConfirmStore.SessionStore.GetSessionByPlan | admz/api/confirm_store.py:521-562 | the newest pending session of the plan, or none when that one has expired |
| ConfirmStore.StepEvolves | admz/api/confirm_store.py:404-519 | what one step of anyone can do to any session |
| ConfirmStore.SessionsEvolve | admz/api/confirm_store.py:404-627 | over every run: resolved once and for good, terms fixed, payload kept while pending, completed never deleted |
| ConfirmStore.ResolvedOnce | admz/api/confirm_store.py:404-454 | of all attempts to complete or deny a session at most one wins |
| ConfirmStore.TokenLivesFiveMinutes | admz/api/confirm_store.py:439-454 | after any run, a session is won by a resolution iff its row is there and pending and at most 300 seconds have passed since it was made |
| ConfirmStore.TokenIsSeenFiveMinutes | admz/api/confirm_store.py:359-402 | and it is seen for as long, or once resolved while its row is there |
| ConfirmStore.TwoWaysToResolve | admz/api/confirm_store.py:404-519 | approving or consuming completes a session, denying denies it, by the same rule |
| ConfirmStore.StripTakesExactly | admz/api/confirm_store.py:456-494 | a strip takes the payload of a completed session, nothing else, and says whether it did |
| ConfirmStore.CleanupTakesExactly | admz/api/confirm_store.py:586-627 | a cleanup takes a row iff it is not completed and more than 360 seconds old, and a payload iff completed and older than a day |
| ConfirmStore.LiveSessionStays | admz/api/confirm_store.py:586-627 | an unresolved session is untouched by any run until 360 seconds have passed |
| ConfirmStore.CleanupEndsPayloads | admz/api/confirm_store.py:594-624 | once a cleanup has run, no session completed and older than a day has a payload again, over any run; and it is still there on the same terms |
| ApprovalContext.Context.Run | admz/approval_context.py:83-98 | the set-and-reset variable answers as lexical nesting says, copies to spawned tasks, and is restored whether or not the work raises |
| ApprovalContext.NothingIsApprovedOutside | admz/approval_context.py:115-125 | a question is answered yes only inside a scope of an action it names |
| ApprovalContext.ContextTellsTheInnermostScope | admz/approval_context.py:83-125 | a question is answered by its innermost scope; what follows a scope or a spawned task answers as if it had not been there, and is reached iff nothing before it raised |
| Gate.ExecuteGatedOperation | admz/operations.py:329-420 | runs at once iff the level is `none`; otherwise a pending session at that level, without the values of the secret parameters, and nothing runs |
| Gate.CreateActionSession | admz/operations.py:1838-1852 | an unknown action is refused; a known one is pinned to `url_only` unless the caller lets the operator configure it |
| Gate.ConsumeConfirmation | admz/operations.py:444-537 | which calls run the tail, which are refused and why, and what is left in the table |
| Gate.ConsumptionIsDecidedByTheRow | admz/operations.py:444-491 | each outcome and the table after it, from the row's status, age, level and secret fields at the two moments |
| Gate.ConsumeIsThreeSteps | admz/operations.py:423-537 | one uninterrupted call is the three steps of the interleaved system |
| Gate.SecondConsumerGetsNothing | admz/operations.py:484-491 | of two calls with one token, whatever happens between, at most one runs |
| Approval.CompleteWins | admz/operations.py:484-491 | whoever completes a session found it pending |
| Approval.NextKeepsGood | admz/operations.py:1855-1984 | every step of any task keeps sessions, roles, contexts and records consistent |
| Approval.NextKeepsExclusive | admz/operations.py:444-501 | every step keeps one winner per token |
| Approval.WorkRunsAtMostOnce | admz/operations.py:444-501 | under every interleaving the work behind a token runs at most once, by consumer or approver |
| Approval.NothingRunsWithoutAuthority | admz/operations.py:329-537 | session work runs only completed, never at a URL level past the block, never with secret fields through a consumer, never with one missing through an approver; inline only at `none`, or a plan at `llm_confirm` with consent |
| Approval.AccountWritesTraceToAnApproval | admz/operations.py:1781-1799 | every onboarding pass that changed an account ran inside, or spawned inside, a scope of a covering action whose completed session holds that action |
| Approval.ChangesAreRecorded | admz/onboarding.py:308-346 | a device or its stored account changes only as a recorded onboarding pass |
| Approval.ContextsArePrivate | admz/approval_context.py:43-66 | only its own entering or leaving changes a task's context; a spawned task keeps the one it was born with |
| Approval.LeavingRestoresExactly | admz/operations.py:1909-1915 | leaving a scope restores exactly the context it was entered with, whatever all tasks did meanwhile |
| ApprovalSteps.OperationGateDecides | admz/operations.py:329-420 | an operation runs at once iff its level is `none`; otherwise the session made for it, field by field, and nothing runs |
| ApprovalSteps.ActionGateDecides | admz/operations.py:1838-1852 | a known action gets its session, at `url_only` or the operator's level; an unknown one nothing |
| ApprovalSteps.PlanGateDecides | admz/operations.py:2035-2085 | a plan runs at once, is refused, waits for the live session it has, or gets one at its level |
| ApprovalSteps.ApprovalRunsTheWork | admz/operations.py:1876-1966 | an approved session's work runs iff it can be carried out, and inside a scope iff it is one of the four covering actions |
| ApprovalSteps.OnboardingAsksTheContext | admz/onboarding.py:310-346 | a pass writes accounts iff its task's context is an approval of one of those four |
| ApprovalSteps.ActionsThatExist | admz/operations.py:1720-1742 | the eighteen actions |
| ApprovalSteps.ScopesInFull | admz/approval_context.py:83-98 | what spawning and leaving do to tasks and contexts |
| ApprovalParams.NextKeepsParams | admz/operations.py:352-397 | every step of any task keeps each row, each session a task remembers and each record in line with what its caller asked |
| ApprovalParams.AskedIsTheCall | admz/operations.py:388-400 | what a session is for is the request of the gated call that created it, for good |
| ApprovalParams.SecretsReachTheTableIffUnclassified | admz/operations.py:363-386 | in every reachable state a row holds only its caller's values, all but its secret fields until the payload is cleared; and an uncleared row holds a declared secret iff its caller gave one and the lookup failed |
| ApprovalParams.WhatRunsIsWhatWasAsked | admz/operations.py:1942-1966 | over every run, an operation run through a session is the one asked for with exactly the caller's parameters: the secret ones as typed by the approver, and none through a consumer |
| ApprovalTime.AskedInTimeIsWon | admz/operations.py:484-491 | in every reachable state a task that completes a session it has read wins it iff the row is pending and at most 300 seconds old |
| ApprovalTime.NoTokenIsWonLate | admz/api/confirm_store.py:121-132 | over every run, a task comes to hold a won session only by its own completion within those 300 seconds |
| ApprovalTime.LiveSessionIsRead | admz/operations.py:444-482 | who may read a session: an approver while it is live, a consumer moreover not past the URL block and never with secret fields |
| EntryCredentials.DedupedKeepsEachPairOnce | admz/entry_credentials.py:297-304 | each stored pair once |
| EntryCredentials.StoredRowsInFull | admz/entry_credentials.py:307-317 | the rows as stored: the default user's pair when it has a password, then exactly the complete entries in order |
| EntryCredentials.FingerprintNamesOnePair | admz/entry_credentials.py:320-326 | for every salt, no other pair has a pair's fingerprint iff neither half of it holds NUL |
| EntryCredentials.OtherSplitClashes | admz/entry_credentials.py:320-326 | each pair with NUL in a half shares its fingerprint with the pair split at its other NUL |
| EntryCredentials.SortIsStable | admz/entry_credentials.py:344-350 | the recency order is newest first and keeps the order of equal times |
| EntryCredentials.StableSortIsUnique | admz/entry_credentials.py:344-350 | there is one such order |
| EntryCredentials.EntriesAreTheFirstOfTheStableSort | admz/entry_credentials.py:437-459 | the entries tried are the first three of any stable newest-first order of the deduplicated rows, with or without a history, and none under the prompt-always posture |
| EntryCredentials.AttemptOrderIsBounded | admz/entry_credentials.py:437-496 | at most four attempts, no pair twice, the fleet root first when set, then exactly the bounded entries without it, in their order |
| EntryCredentials.ListCredentials | admz/entry_credentials.py:281-304 | the dedupe loop computes the entry list |
| EntryCredentials.SuccessComesFirst | admz/entry_credentials.py:353-388 | a stored pair that just got in heads the next pass, wherever it was stored, iff no earlier row shares its fingerprint; removed pairs leave no fingerprint |
| EntryCredentials.NoteInFull | admz/entry_credentials.py:353-388 | what is noted of a success, and when nothing is |
| EntryCredentials.DescribeTried | admz/entry_credentials.py:633-642 | one flag a stored row |
| EntryCredentials.TriedFlagsMarkTheEntries | admz/entry_credentials.py:610-642 | the flags mark exactly the pairs tried, each at its first stored row |
| EntryListWrites.WrittenListReadsBack | admz/entry_credentials.py:247-251 | the written list parses to the credentials it was made from |
| EntryListWrites.EntryListStore.StoredList | admz/entry_credentials.py:205-244 | read for a write: refused unless it can be read in full |
| EntryListWrites.EntryListStore.AddEntryCredential | admz/entry_credentials.py:499-550 | the new state and outcome of an add |
| EntryListWrites.EntryListStore.RemoveEntryCredential | admz/entry_credentials.py:553-593 | the new state and outcome of a removal |
| EntryListWrites.AddChangesOnlyTheList | admz/entry_credentials.py:516-550 | a refused add changes nothing; a successful one appends exactly the pair and leaves at most three |
| EntryListWrites.AddIsDecidedBeforehand | admz/entry_credentials.py:499-550 | every outcome of an add by the first thing in its way, from the rows shown and the stored list |
| EntryListWrites.RemovalIsDecidedBeforehand | admz/entry_credentials.py:553-593 | every outcome of a removal, likewise |
| EntryListWrites.ReadingEncrypts | admz/fleet_settings.py:303-330 | a read encrypts what is still in the clear iff it has a key and can write |
| EntryListWrites.OtherWritersInFull | admz/fleet_settings.py:389-441 | what other writers of the three settings leave behind, as anybody reads it |
| EntryListWrites.AddNeverDuplicates | admz/entry_credentials.py:528-550 | the added pair was not among the rows shown, legacy pair included, and becomes the last one; a redundant one was there |
| EntryListWrites.FailedRemovalKeepsEverything | admz/entry_credentials.py:578-590 | a refused or failed removal keeps every credential, the interrupted legacy pair apart |
| EntryListWrites.RemovalTakesOneCredential | admz/entry_credentials.py:578-593 | a successful one takes the legacy pair or exactly one row |
| EntryListWrites.RemovalTakesTheShownRow | admz/entry_credentials.py:553-657 | for a page whose rows and revision were read at different moments: it acts only on the state of the revision and takes the row that has the position there; without a write in between, the shown slot iff the legacy pair is readable now as it was then |
| EntryListWrites.WriteBehindThePageShiftsTheRow | admz/entry_credentials.py:633-656 | a write between the two reads under which another row is removed |
| EntryListWrites.ChangedKeyShiftsTheRow | admz/entry_credentials.py:581-591 | a state and a key change under which the next row is removed |
| EntryListWrites.OneRemovalPerRevision | admz/entry_credentials.py:254-272 | two removals with one revision cannot both succeed, whatever any writer does between |
| EntryListWrites.UnreadableListIsNeverRewritten | admz/entry_credentials.py:225-244 | an unreadable list keeps its text over any run in which no writer sets or deletes the list itself |
| Provisioning.Site.StoreCreds | admz/provisioning.py:99-124 | remove, then add; what is stored when either raises |
| Provisioning.Site.Adopt | admz/provisioning.py:145-200 | the account is created before it is stored, and a refusal stores nothing |
| Provisioning.Site.Rotate | admz/provisioning.py:236-266 | the account is reset to the fleet root password, when there is one; reading it may raise |
| Provisioning.Site.Provision | admz/provisioning.py:321-371 | root, then `admz`; the refusals and what each failure leaves |
| Provisioning.UnattendedIsRefused | admz/provisioning.py:321-333 | unattended, nothing is asked of the device and nothing written |
| Onboarding.TryEach | admz/onboarding.py:507-655 | the candidate loop computes its function |
| Onboarding.OnboardDeviceCredentials | admz/onboarding.py:200-655 | the whole pass computes its function, every raising read of the registry and the settings included |
| Onboarding.PassEffect | admz/onboarding.py:264-655 | by outcome, everything a pass can change: nothing without approval; the registry keeps its account, or holds `admz` with the password the device took, or nothing; a replaced account is reset just when the outcome says so |
| OnboardingDecisions.PassIsDecidedBeforehand | admz/onboarding.py:200-655 | every outcome of every pass from the state and the call alone, each device operation named by its turn |
| OnboardingDecisions.StateIsDecidedBeforehand | admz/onboarding.py:200-655 | and so the device's accounts and the stored one after it |
| OnboardingDecisions.SettingsAreDecidedBeforehand | admz/onboarding.py:552-556 | the settings change only by noting the candidate that got in, when it can be noted |
| OnboardingDecisions.FactoryProvisioningSucceedsIff | admz/provisioning.py:321-372 | exactly when a factory-default device gets both accounts, and that it then has root and `admz` with `admz` stored |
| OnboardingDecisions.FactoryProvisioningStopsHalfwayIff | admz/provisioning.py:352-370 | exactly when it gets root alone, with nothing new stored |
| OnboardingDecisions.AdoptionInPlaceSucceedsIff | admz/onboarding.py:297-395 | exactly when adoption in place makes and stores `admz` |
| Onboarding.OthersAreUntouched | admz/onboarding.py:354-367 | no other user of the device changes but an account whose password was generated; root is created only on a device without accounts |
| Onboarding.RotationIsReportedTruthfully | admz/onboarding.py:348-381 | over a whole pass: a stored account that works keeps its password unless the outcome says it was reset, and only a generated one is; adoption leaves it only when a human supplied it or there is nothing to reset it to |
| Onboarding.AdmzKeepsWorking | admz/onboarding.py:347-381 | for every state and call, a stored `admz` works after the pass iff the pass is not one that clobbers it, a condition on the state and the call alone |
| Onboarding.AdmzWorksAllAlong | admz/provisioning.py:99-200 | over all passes, the stored `admz` works after each iff none of them clobbers it |
| Onboarding.AdmzWorksOverAllPasses | admz/provisioning.py:99-200 | over all passes whose registry can remove, the stored `admz` works |
| Onboarding.OnlyAdmzIsEverStored | admz/onboarding.py:628-640 | over all passes the stored account is the first one, none, or an `admz` generated in one of them |
| Onboarding.ClobberedAdmz | admz/onboarding.py:275-278 | two failing runs, concretely: the check unanswered, and the registry unreadable |
| Onboarding.CandidatesAsk | admz/onboarding.py:523-550 | the loop asks each candidate once, never the refused pair, and stops at the first non-refusal |
| Onboarding.PassAsksSparingly | admz/onboarding.py:264-550 | at most five checks a pass, no refused pair asked again, `entry_exhausted` only if every candidate was refused |
| Onboarding.CredentialThatGotInGoesFirst | admz/onboarding.py:507-556 | when the loop's last check got in with an entry credential, that one heads the entries of the next pass whatever the outcome, iff no earlier row shares its fingerprint |
| Onboarding.RootAlwaysGetsIn | admz/entry_credentials.py:397-434 | with the fleet root password on the device a pass never ends asking for credentials |
| Onboarding.HalfProvisionedIsRetryable | admz/provisioning.py:337-367 | a pass that set root but not `admz` is always retryable |
| BatchAdd.NextKeepsGood | admz/operations.py:1150-1230 | every interleaved step keeps at most four in flight and each device's stage, count and confirmation consistent |
| BatchAdd.EachDeviceIsAddedOnce | admz/operations.py:1185-1200 | each listed device is written at most once, only when confirmed, whatever the interleaving |
| BatchAdd.OnlyConfirmedDevicesAreWritten | admz/operations.py:1179-1200 | the registry grows only by a listed device whose identity has just been confirmed |
| BatchAdd.Collect | admz/operations.py:1282-1323 | rows, added, failed and success from the outcomes |
| BatchAdd.ResultCoversTheBatch | admz/operations.py:1282-1323 | one row a listed id, in order; success iff every one is credentialed |
| BatchAdd.RowSaysWhatHappened | admz/operations.py:1150-1230 | a row has a status iff a step of the run ended that device's coroutine so where it stood; it is credentialed as onboarding left it |
| BatchAdd.SuccessIsCredentialsForAll | admz/operations.py:1282-1323 | a finished batch succeeds iff onboarding got credentials for every listed device |
| BatchAdd.ListsPickTheirRows | admz/operations.py:1292-1303 | the three lists hold exactly the devices written, given an account, and left without credentials, in order |
| BatchAdd.QueuedDeviceStarts | admz/operations.py:1233-1256 | a queued device starts iff fewer than four are in flight |
| BatchAdd.ConfirmedDeviceIsWritten | admz/operations.py:1179-1210 | a confirmed device that is not there is written and goes on to onboarding; any other read writes nothing |
| BatchAdd.RowsTellTheTruth | admz/operations.py:1202-1230 | registered means written and confirmed, credentialed means registered, and success means all were written |
| BatchAdd.OnlyCancellationUnderstates | admz/operations.py:1283-1289 | over every run, a written device is reported as not registered iff a step cancelled its coroutine while it awaited onboarding |
| BatchAdd.CancelledRowUnderstates | admz/operations.py:1283-1289 | the one failing case, concretely |
| BatchAdd.AddDiscoveredDevices | admz/operations.py:1258-1323 | a malformed batch changes nothing; a well-formed one ends as its interleaving says, with its rows, added, accounts and failed, and success iff every listed device is credentialed |
| BatchAdd.DeleteDevices | admz/operations.py:842-889 | what was removed was there and listed; every mention is reported removed or failed, once; success iff all were removed |
| Capabilities.LeaseGrowsToAWeek | admz/device_capabilities.py:177-188 | leases grow with the streak between a day and a week, and reach the week at the fourth failure |
| Capabilities.LeaseInSeconds | admz/device_capabilities.py:177-188 | a day, two, four, then a week for good |
| Capabilities.DeviceCapabilityStore.Record | admz/device_capabilities.py:345-409 | the new row and table |
| Capabilities.DeviceCapabilityStore.Forget | admz/device_capabilities.py:411-422 | exactly the device's rows go, and how many |
| Capabilities.RowsMatchHistory | admz/device_capabilities.py:345-422 | over any records and forgets each row says what was last seen and the length of its trailing run of failures at that firmware |
| Capabilities.RowRemembersTheLastObservation | admz/device_capabilities.py:363-409 | what a row keeps of the last observation, its words cut to two hundred characters |
| Capabilities.TrustedIffEvidenceIsFresh | admz/device_capabilities.py:332-343 | `view` holds a key iff the last evidence is for this firmware and fresh |
| Capabilities.TroubleIsBelievedForADay | admz/device_capabilities.py:154-174 | after any history without a running streak, an observation of no response, a refused login or a server error is believed exactly until a day later |
| Capabilities.StrongestWins | admz/device_capabilities.py:447-455 | the merge keeps the strongest verdict in the words of the first to reach it |
| Capabilities.StrongestIsTheVerdict | admz/device_capabilities.py:133-174 | on a readable device a key is present iff an outcome for it succeeded, else absent iff one is a definite no, else unconfirmed, in the words of the first of that kind |
| Capabilities.ClassIgnoresOrderAndRepetition | admz/device_capabilities.py:447-455 | order and repetition do not change the class |
| Capabilities.UnreadableDeviceTeachesOnlySuccess | admz/device_capabilities.py:150-153 | on an unreadable device a key is recorded iff it succeeded |
| Capabilities.Merge | admz/device_capabilities.py:447-455 | the loop computes the merge |
| Capabilities.Learn | admz/device_capabilities.py:429-469 | one cycle adds exactly one observation per recorded key; a failed write loses its own row only |
| Capabilities.OneCycleLengthensAStreakByOne | admz/device_capabilities.py:363-373 | a cycle lengthens a streak by at most one, and leaves one only if every outcome was unconfirmed |
| FleetSettings.FleetSettingsStore.GetWithMigrationFlag | admz/fleet_settings.py:303-330 | the value read, whether it was migrated, and the table after; a failed migration does not fail the read |
| FleetSettings.FleetSettingsStore.Get | admz/fleet_settings.py:278-301 | the value read and the table after |
| FleetSettings.FleetSettingsStore.Set | admz/fleet_settings.py:389-429 | what is stored, and when it is refused |
| FleetSettings.FleetSettingsStore.Delete | admz/fleet_settings.py:431-441 | the setting goes, and whether it was there |
| FleetSettings.FleetSettingsStore.ListAll | admz/fleet_settings.py:443-471 | every setting decrypted, unreadable secrets empty, nothing migrated |
| FleetSettings.FleetSettingsStore.MigrateEncryptedSettings | admz/fleet_settings.py:332-370 | the table after the sweep and its three counts |
| FleetSettings.SweepIsOneReadEach | admz/fleet_settings.py:356-370 | the sweep does to each declared setting what one read would, and nothing else |
| FleetSettings.UntroubledSweepLeavesNoPlaintext | admz/setting_crypto.py:45-59 | what plaintext a failure-free sweep leaves, exactly |
| FleetSettings.SecondSweepMigratesNothing | admz/fleet_settings.py:344-353 | a second sweep migrates nothing |
| FleetSettings.RunKeepsSecrets | admz/setting_crypto.py:83-112 | over any reads, listings, sweeps and writes to other settings a value is kept, at most encrypted once |
| FleetSettings.RestoringTheKeyRecoversTheValue | admz/setting_crypto.py:92-97 | a token survives any run unaltered, and its key still opens it |
| FleetSettings.MigrationKeepsTheValue | admz/fleet_settings.py:312-330 | migration keeps the text |
| FleetSettings.SetThenGet | admz/fleet_settings.py:389-429 | what was set is read back under the same key, the empty secret apart |
| FleetSettings.DeleteThenGet | admz/fleet_settings.py:431-441 | what was deleted reads as unset until it is set again |
| FleetSettings.CountsAreOfSettings | admz/fleet_settings.py:356-370 | the sweep's counts are of the settings it converts and of those it cannot read |
| FleetSettings.WhatIsEncrypted | admz/setting_crypto.py:42-59 | which settings are kept encrypted, and which texts have the shape of a token |
| SettingsRaces.UndisturbedReadIsOneStep | admz/fleet_settings.py:303-330 | the two statements of a read with nothing in between are the read as one step |
| SettingsRaces.ChangeIsLostIff | admz/fleet_settings.py:312-323 | over every interleaving, a `set` or `delete` stands iff no reader that selected before it writes back after it; otherwise the old text is back |
| SettingsRaces.OldSecretComesBack | admz/fleet_settings.py:372-387 | such a run, after a `set` and after a `delete` |
| SettingsRaces.ReadersAloneKeepTheText | admz/fleet_settings.py:303-330 | any interleaving of readers keeps the text of a setting nobody changes |
| RateLimit.RateLimiter.ConfigureRoute | admz/rate_limit.py:82-91 | the policy and every bucket of the route change, nothing else |
| RateLimit.RateLimiter.CheckRate | admz/rate_limit.py:93-131 | answer and state of one check |
| RateLimit.RateLimiter.PruneIdle | admz/rate_limit.py:123-129 | exactly the idle buckets go |
| RateLimit.PruningIsInvisible | admz/rate_limit.py:118-131 | with and without pruning every run gets the same answers, reconfigurations among refilling policies included |
| RateLimitPruning.PruningIsInvisibleIff | admz/rate_limit.py:118-131 | for any policies, all runs of checks get the same answers with and without pruning iff each capacity is below one token or refilled before a bucket is reaped |
| RateLimitPruning.DifferentBucketsCanBeTold | admz/rate_limit.py:35-50 | two buckets of one policy that differ can be told apart by a caller's own checks |
| RateLimit.WindowGrantsAreBounded | admz/rate_limit.py:43-55 | one caller gets at most capacity plus refill times length in any window of any run, after any earlier configuration, unless its bucket is overfull as the window opens |
| RateLimit.WindowBoundIsExact | admz/rate_limit.py:43-55 | after any run, every window from now on obeys that bound iff the bucket is not overfull now |
| RateLimit.DefaultLimiterIsBounded | admz/rate_limit.py:61-80 | with the built-in policies every caller of every route meets the bound in every window, pruned or not |
| RateLimitDenials.DeniedOnlyWhenFull | admz/rate_limit.py:35-50 | over every run of a fresh limiter a check is denied only if one more would exceed the allowance of a window that ends with it |
| RateLimitDenials.BuiltInWindowsAreBounded | admz/rate_limit.py:61-80 | the built-in bounds in numbers: 10 and one per 6 s, 5 and one per 12 s, 15 and one per 4 s |
| RateLimitDenials.BuiltInDenialsAreDue | admz/rate_limit.py:61-80 | and a check of those routes is denied only where one more would break them |
| RateLimitDenials.UnconfiguredRouteIsNeverLimited | admz/rate_limit.py:101-105 | a route without a policy is never limited |
| RateLimitDenials.PruningTakesExactly | admz/rate_limit.py:118-131 | of more than 256 buckets, exactly those untouched for more than 300 seconds |
| RateLimit.LoweredCapacityIsNotRetroactive | admz/rate_limit.py:82-91 | the one failing case, concretely: a lowered capacity does not take back tokens |
| HandshakeParking.PendingHandshakes.Evict | admz/win_sspi.py:443-453 | the lot after a sweep |
| HandshakeParking.PendingHandshakes.PopHandshake | admz/win_sspi.py:428-433 | what is handed back and what is left |
| HandshakeParking.PendingHandshakes.PutHandshake | admz/win_sspi.py:435-441 | the lot after a put, the replaced handshake closed |
| HandshakeParking.RunConserves | admz/win_sspi.py:428-460 | over every run nothing is lost or duplicated |
| HandshakeParking.EachHandshakeHasOneFate | admz/win_sspi.py:428-460 | a handshake given once is exactly one of parked, closed once, returned once |
| HandshakeParking.RunKeepsOrder | admz/win_sspi.py:443-453 | on a monotonic clock the lot stays within its size and ordered by put time |
| HandshakeParking.EvictionIsOldestFirst | admz/win_sspi.py:443-453 | eviction takes the oldest first, a live one only from a full lot |
| HandshakeParking.PopReturnsExactly | admz/win_sspi.py:428-433 | exactly when `pop` hands which handshake back, for any connection, parked or not |
| HandshakeParking.PutThenPop | admz/win_sspi.py:428-441 | what was just put is what the next pop in time returns, unless the lot has room for one only |
| Recovery.AwaitDeviceRecovery | admz/recovery.py:157-253 | the report is that of the first probe that allows one, for its strongest reason, with what was seen |
| Recovery.ObserveAnswer | admz/recovery.py:164-194 | one answer: what is remembered, and whether it completes a reboot |
| Recovery.ReportIsUnique | admz/recovery.py:157-253 | a trace admits one report |
| Recovery.ReportInFull | admz/recovery.py:157-253 | the number of probes, the verdict and what was seen, from the replies and the clock alone |
| Recovery.RecoveryIsAReboot | admz/recovery.py:176-194 | which ready answer ends the wait: after a down or not-ready reply, on another boot, with a shorter uptime, or one under three minutes |
| Recovery.LimitsInSeconds | admz/recovery.py:60-80 | the defaults and bounds of timeout and interval |
| Recovery.UnrebootedDeviceIsNotRecovered | admz/recovery.py:82-87 | a device that stays up on one boot, or names none, is never reported recovered |
| Recovery.ProbesAreBounded | admz/recovery.py:232-253 | at most timeout over interval, plus one, probes |
| Recovery.ResumedCallSeesTheNewBoot | admz/recovery.py:125-126 | a carried baseline makes the first ready answer on another boot a recovery |
| DnsName.BuildDnsQuery | scripts/discovery_poc.py:25-40 | the packet, or which name or type is refused |
| DnsName.QueryInFull | scripts/discovery_poc.py:25-40 | header, labels, type and class of the packet, byte by byte, and the first label or the type that is refused |
| DnsName.ParseDnsName | scripts/discovery_poc.py:43-74 | the loop terminates on any bytes and computes the recursive reading |
| DnsName.NameEndsInPlace | scripts/discovery_poc.py:57-74 | after a jump the offset is two past the first pointer |
| DnsName.TextReadsByteByByte | scripts/discovery_poc.py:70-72 | a label reads byte by byte, no further than the data, with a replacement for what is not ASCII |
| DnsName.RoundTrip | scripts/discovery_poc.py:25-74 | the encoded name reads back anywhere in a packet |
| DnsName.RoundTripExactly | scripts/discovery_poc.py:25-74 | exactly which names do |
| DnsName.QueryNameReadsBack | scripts/discovery_poc.py:32-40 | the query's name reads back at offset 12, whatever follows |
| DnsName.CompressedNameReadsAsTheWholeName | scripts/discovery_poc.py:57-72 | a name spelled with any chain of pointers reads as its labels as far as twenty pointers lead, and the reader goes on past the name's own bytes |
| DnsMessage.ParseDnsTxt | scripts/discovery_poc.py:77-92 | the loop terminates, computes the properties of the strings, and raises where the data ends too soon |
| DnsMessage.TextsReadBack | scripts/discovery_poc.py:81-91 | the strings of a text record read back in order, empty ones passed over |
| DnsMessage.LastTextWins | scripts/discovery_poc.py:87-92 | each key, in any case, ends with the value of the last string naming it |
| DnsMessage.ParseMdnsResponse | scripts/discovery_poc.py:95-150 | the two loops compute the recursive reading of header, questions and records |
| DnsMessage.AnswerReadsBack | scripts/discovery_poc.py:111-152 | a record of any kind reads back, its data by type, class without its flush bit, and the next starts where its bytes end |
| DnsMessage.DataByType | scripts/discovery_poc.py:125-147 | what the data of each type and length reads as, and where reading it raises |
| DnsMessage.ShortResponseIsReadAsFarAsItGoes | scripts/discovery_poc.py:109-152 | a response with fewer records than promised yields those it has, or raises where the next one is cut |
| DnsMessage.ResponseReadsBack | scripts/discovery_poc.py:95-150 | a whole response, questions and three sections, names compressed in any way, reads back as exactly its records |
| DnsMessage.RecordsAreBounded | scripts/discovery_poc.py:108-111 | never more records than the header promises |
| Redact.MaskIsNotSensitive | admz/redact.py:135-146 | the mask declares nothing |
| Redact.SecretWordsAreSensitive | admz/redact.py:101-145 | a key holding a secret word anywhere, in any case, is sensitive |
| Redact.SensitiveKeysNameSecrets | admz/redact.py:101-146 | a key is sensitive iff in lower case it carries one of seven words, or is a compound of `key`, or has a short spelling standing alone |
| Redact.DiscreteWordsAreSensitive | admz/redact.py:132-146 | the short words count between delimiters |
| Redact.BareKeyIsExempt | admz/redact.py:144-145 | `key` itself is exempt |
| Redact.HiddenMustBeMasked | admz/redact.py:149-189 | a field is hidden iff its name is a secret's, or it is one of four value fields beside one of seven name fields whose text is |
| Redact.ValueBesideASecretNameIsMasked | admz/redact.py:168-189 | a value beside a name carrying a secret word reads as the mask, at any depth within the cap |
| Redact.ValueBesideAnOrdinaryNameIsKept | admz/redact.py:168-189 | and is shown where no name field is a secret's |
| Redact.RedactionShowsExactlyTheRest | admz/redact.py:192-215 | two values agree outside the fields that must be masked iff they redact alike and mask alike |
| Redact.RedactIsIdempotent | admz/redact.py:192-215 | a second redaction changes nothing, at the depth cap included |
| Redact.VisiblePlacesAreKept | admz/redact.py:203-215 | a place that no masked field or cap stands before keeps its keys, length or leaf; tuples become lists |
| Redact.HiddenPlacesReadAsTheMask | admz/redact.py:201-209 | every other place reads as the mask |

## Left out

- DNS sockets, queries on the wire and merging of answers.
- Routes, pages, messages, audit rows, notices, capture forms and the survey queue.
- SQL, schemas, file paths and threads; each store call is one atomic step.
- Cryptography, hashing and random generation, replaced by the assumptions above.
- The device's own firmware beyond "an operation takes effect or fails"; whether add-user overwrites is an input.
- What a credential check learns about reaching a device, and the facts it brings back.
- JSON text: the entry list is modelled as the items its text parses to.
- Character handling beyond ASCII in redaction, stripping and classification, and UTF-8 decoding.
- Rounding: times, tokens and leases are reals or integers.
- Ties and mapping order: dictionaries are maps, so the order of a mapping's keys is not modelled.
- Approval: an onboarding pass is one step of the interleaved system; the approval it asks about belongs to its own task and cannot change meanwhile.
- ApprovalContext.Context.Run: a spawned child runs to its end before its parent goes on; a child that outlives the scope is covered by `Approval.ContextsArePrivate`.
- Approval: parameter values are strings; what the catalog declares secret, and whether looking it up fails, are inputs.
- Approval: the plan engine and the executor are a record that the work ran.
- ConfirmStore.SessionStore.CompleteSession: the read and the conditional update are one step, as the update alone decides who wins.
- Provisioning.Site.Provision: a caller's own root password or user name in place of the fleet's is not modelled; onboarding passes neither.
- Onboarding.HalfProvisionedIsRetryable: assumes, as the design does, that nobody else changes the device between the two passes.
- FleetSettings.FleetSettingsStore.GetWithMigrationFlag: the read and its migrating write are one step there; `SettingsRaces` takes them apart.
- EntryListWrites: a read of the list and its migrating write are one step.
- BatchAdd: what `add_device` refuses beyond a device already registered is an input.
- EntryListWrites: a stored plaintext list that looks like a token is not distinguished from one that does not.
