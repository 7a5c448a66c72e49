# Console V2 control plane: a model and its properties

This project models the transactional core of the Console V2 control plane and
two neighbours, the Agent Card writes and the bilateral handshake, and states
what holds of them over whole runs. Each area has a specification on values (one
function per database transaction, Redis script or critical section), lemmas over
every sequence or interleaving of those steps, and a class whose methods change
rows, sets or counters the way the handlers do and are tied to the specification.

| files | area |
|---|---|
| `AttentionCommands`, `AttentionLifecycle`, `AttentionAnswers`, `AttentionTables` | attention items and the fenced commands that answer them |
| `PublishQuota`, `PublishLedger` | the authoritative publish write and its hourly quotas |
| `RateReservations`, `RateHistory`, `RateScripts`, `ReservationProtocol` | the Redis reservation scripts and the three-phase publish around them |
| `RefreshRotation`, `CredentialFamilies`, `CredentialAnswers`, `CredentialTables` | rotation of refresh credentials |
| `DraftOwnership`, `DraftMerge` | field ownership of onboarding drafts |
| `OnboardingContext`, `OnboardingRuns`, `OnboardingAnswers`, `OnboardingTables` | the step machine, the facts and the compiled context |
| `ConversationPaging` | keyset paging with a response budget |
| `ActivityReplay`, `StreamSlots` | realtime replay and stream slots |
| `ProfileLimiter`, `ProfilePatch` | the profile write limiter and the audited patch |
| `Handshake` | the Python handshake |

Conventions. Times are whole milliseconds (microseconds in `Handshake`). The
database and Redis clocks never run backwards; application clocks are arbitrary
inputs. Tokens and hashes are injective images of what they are computed from.
Signature, text and source-authorization checks enter as boolean inputs. Two
histories that the tables do not have are kept beside them for the run-level
statements, for example every lease ever granted. A lemma that speaks of a run
quantifies over every sequence of requests from an empty or freshly provisioned
state; steps of different clients interleave in that sequence.

Where the code does not do what one would expect of it, the model follows the
code: the retry time of the admit script is too long when reconciled rows are
stamped more than a minute ahead of Redis (exact condition in
`RateReservations.RetryIsExact`); a reconcile after a publish overwrites what
other publishes committed since it read the rows (exact condition in
`ReservationProtocol.ReconcileMirrorsTableIff`, a failing run in
`ReservationProtocol.LateReconcileLosesARow`); a compensating release cannot leave
exactly the inserted items once anyone reconciled after the write
(`ReservationProtocol.ReleaseLeavesExactlyInserted`,
`ReservationProtocol.ReconcileDefeatsRelease`, a failing run in
`ReservationProtocol.ReleaseAfterReconcileLosesItems`); renaming an Agent clears
its English name without an audit entry (exact condition in
`ProfilePatch.PatchKeepsEnglishNameIff`); a replayed command creation answers a
required context revision of 0 (exact condition in
`AttentionLifecycle.CreationAnswersItsRevision`).

## Model

| member | source | states |
|---|---|---|
| `AttentionLifecycle.ItemMatchesItsCommands` | platform/kin-core/api/consolev2/attention_response_handlers.go:136-258 | in every reachable state an item is pending iff exactly one of its response commands is unfinished, acted iff exactly one completed, never more than one of either, and its revision is 1 + commands created + commands finished, so even exactly while pending |
| `AttentionLifecycle.AttentionCommandsAreTerminal` | platform/kin-core/api/consolev2/attention_response_handlers.go:45-168 | in every reachable state a command is tied to an item iff it is a response, and then its payload is terminal and it answers an action the item offers other than `open_source`; the non-terminal completion branch is unreachable |
| `AttentionLifecycle.CompletionSettlesItsItem` | platform/kin-core/api/consolev2/command_handlers.go:582-618 | in every run a completion that finishes such a command finds its item pending and makes it acted on success and open on failure, with the next revision, and touches no other item |
| `AttentionLifecycle.ReplayedCreation` | platform/kin-core/api/consolev2/command_handlers.go:79-143 | a creation repeated with the same key and content, after any further run, answers the command the first one made and changes nothing |
| `AttentionLifecycle.CreationAnswersItsRevision` | platform/kin-core/api/consolev2/command_handlers.go:79-143 | in every reachable state an accepted creation answers the revision stored with its command iff the key was unused or its row was committed after the first look |
| `AttentionLifecycle.ReplayedCreationAnswersZero` | platform/kin-core/api/consolev2/command_handlers.go:91-97 | a creation under revision 7, sent again, answers 0 while 7 is stored |
| `AttentionLifecycle.ReplayedResponse` | platform/kin-core/api/consolev2/attention_response_handlers.go:49-83 | a response repeated after any further run is answered from the stored command and changes nothing |
| `AttentionLifecycle.ReusedKeyIsRefused` | platform/kin-core/api/consolev2/attention_response_handlers.go:49-83 | the same key with a different request is refused and changes nothing |
| `AttentionLifecycle.LeasesAreDisjoint` | platform/kin-core/api/consolev2/command_handlers.go:251-302 | the leases of a command follow one another without overlap, one per claim epoch, each of the fixed length |
| `AttentionLifecycle.FinishesAtMostOnce` | platform/kin-core/api/consolev2/command_handlers.go:582-618 | in every run a command finishes at most once, inside its last lease and with that lease's epoch |
| `AttentionLifecycle.OnlyTheLastLeaseFinishes` | platform/kin-core/api/consolev2/command_handlers.go:582-596 | a completion that changes a command carries the owner, epoch and token of the last lease and comes before that lease ends |
| `AttentionLifecycle.StaleProofIsFenced` | platform/kin-core/api/consolev2/command_handlers.go:582-656 | a proof from an earlier epoch is refused, whether or not the command has finished since |
| `AttentionLifecycle.FinishedIsForever` | platform/kin-core/api/consolev2/command_handlers.go:582-656 | after any further run a finished command has the same status, result, claim and times |
| `AttentionLifecycle.ReclaimInsideLease` | platform/kin-core/api/consolev2/command_handlers.go:280-292 | until the lease ends or the command finishes, a claim by its owner returns the same token, epoch and deadline, any other claim is refused, and none of them writes anything |
| `AttentionLifecycle.RepeatedCompletion` | platform/kin-core/api/consolev2/command_handlers.go:620-656 | for every kind of command, the same proof, outcome and stored result presented again, however much later, returns the stored completion time and changes nothing |
| `AttentionLifecycle.CanonicalIsStable` | platform/kin-core/api/consolev2/command_handlers.go:381-446 | the canonical form of a result is a fixed point that a runtime could itself submit |
| `AttentionLifecycle.CanonicalComparesEntities` | platform/kin-core/api/consolev2/command_handlers.go:402-446 | two results are stored alike iff they name the same entities with the same summary |
| `AttentionLifecycle.RecordFinishItem` | platform/kin-core/api/consolev2/command_handlers.go:595-617 | finishing moves exactly one command from unfinished to finished and leaves the item consistent with its commands |
| `AttentionAnswers.FreeCommandIsGranted` | platform/kin-core/api/consolev2/command_handlers.go:252-302 | in every reachable state a well-formed claim of an own unfinished command that was never claimed, or whose last lease has ended, by a runtime with a live lease on the revision it has applied and that reaches the required one, is granted: epoch one higher than the leases so far, deadline two minutes from now, one more lease, nothing else changed |
| `AttentionAnswers.HeldCommandAnswers` | platform/kin-core/api/consolev2/command_handlers.go:280-292 | while the last lease runs such a claim gets that same lease again if it is its owner's, and is refused otherwise |
| `AttentionAnswers.OtherClaimsAreRefused` | platform/kin-core/api/consolev2/command_handlers.go:252-302 | every other claim writes nothing and is answered with what is missing: form, context, or the command |
| `AttentionAnswers.ResponseAnswers` | platform/kin-core/api/consolev2/attention_response_handlers.go:85-258 | under a new key a response is accepted iff the item is the Agent's, open, at the expected revision and unexpired on both clocks, offers the action, the action is no source link, an added intent finds fewer than ten, a context is active and it and the goal are the ones the item refers to; what is then written, and the error of every refusal |
| `AttentionAnswers.OfferedResponseAnswers` | platform/kin-core/api/consolev2/attention_response_handlers.go:152-165 | the same for the first action of the list under the key, wherever it stands |
| `AttentionAnswers.UnofferedResponseIsRefused` | platform/kin-core/api/consolev2/attention_response_handlers.go:159-161 | a response to an action the item does not offer is a conflict and writes nothing |
| `AttentionAnswers.RepeatedResponseAnswers` | platform/kin-core/api/consolev2/attention_response_handlers.go:49-118 | in every reachable state a response under a used key is refused if it asks for something else, and otherwise answered with the stored command and the item as they are now; it changes nothing |
| `AttentionAnswers.CompletionAnswers` | platform/kin-core/api/consolev2/command_handlers.go:572-656 | in every reachable state a completion of an own command finishes it with what was asked iff it proves the last lease before that ends and the command is unfinished; an equal completion after that is told the stored time, any other is fenced |
| `AttentionAnswers.OtherCompletionsAreRefused` | platform/kin-core/api/consolev2/command_handlers.go:529-575 | malformed completions, unacceptable results and commands of other Agents change no row |
| `AttentionAnswers.CreationAnswers` | platform/kin-core/api/consolev2/command_handlers.go:43-134 | under a new key a creation succeeds iff it is well formed and a context is active, and leaves one queued, unclaimed command for that context |
| `AttentionAnswers.RepeatedCreationAnswers` | platform/kin-core/api/consolev2/command_handlers.go:79-97 | under a used key it succeeds iff it repeats the content of that command |
| `AttentionAnswers.DismissalAnswers` | platform/kin-core/api/consolev2/attention_handlers.go:183-203 | a dismissal succeeds iff the item is own, open and unexpired, and changes only its status |
| `AttentionAnswers.ResponseIsServed` | platform/kin-core/api/consolev2/attention_response_handlers.go:85-258 | from end to end, in every reachable state: the command of an accepted response is granted to a runtime that has applied its revision, and the completion with that proof before the lease ends makes the item acted on success and open on failure |
| `AttentionTables.CommandTables.Respond` | platform/kin-core/api/consolev2/attention_response_handlers.go:85-258 | the response transaction: replay, guards in order, command insert and item update, as one step |
| `AttentionTables.CommandTables.Create` | platform/kin-core/api/consolev2/command_handlers.go:43-134 | the command route: accepts only non-attention command types, with idempotent replay |
| `AttentionTables.CommandTables.Claim` | platform/kin-core/api/consolev2/command_handlers.go:240-302 | the claim transaction with its guards, epoch, token and lease |
| `AttentionTables.CommandTables.Complete` | platform/kin-core/api/consolev2/command_handlers.go:529-656 | the completion transaction: fenced update, item move, replay of an equal completion |
| `AttentionTables.CommandTables.Dismiss` | platform/kin-core/api/consolev2/attention_handlers.go:183-203 | dismissing touches only an open, unexpired item |
| `AttentionTables.CanonicalizeEntities` | platform/kin-core/api/consolev2/command_handlers.go:434-446 | the in-place loop rewrites every entity to its canonical form |
| `AttentionTables.SelectAction` | platform/kin-core/api/consolev2/attention_response_handlers.go:152-162 | the loop finds the first action with the key, or none |
| `PublishQuota.EveryHourWithinQuota` | platform/kin-core/api/consolev2/attention_publish_handlers.go:915-996 | for any sequence of publishes stamped with arbitrary clocks and whatever candidates the reservation phase passed on, every closed hour of creation times holds at most 20 items, 4 participation and 16 focus per agent |
| `PublishQuota.PublishedOnce` | platform/kin-core/api/consolev2/attention_publish_handlers.go:922-931 | after any run each client item of an agent has at most one row |
| `PublishQuota.AcceptedBatchIsKnown` | platform/kin-core/api/consolev2/attention_publish_handlers.go:922-931 | writing an accepted batch again, after any further publishes, inserts no row |
| `PublishQuota.NewItemsAreTheUnknown` | platform/kin-core/api/consolev2/attention_publish_handlers.go:701-717 | the filter keeps exactly the unknown items and fails iff a stored item has other content |
| `PublishQuota.WriteAnswers` | platform/kin-core/api/consolev2/attention_publish_handlers.go:907-1017 | a batch is accepted iff its unknown items were reserved, fit beside the rows of the last hour (20 in all, 4 participation, 16 focus), may use their sources and the key is new; then exactly their rows are appended, stamped now, and the remaining quotas answered are what the table leaves free; every refusal writes nothing and has its own answer |
| `PublishLedger.NewPublishItems` | platform/kin-core/api/consolev2/attention_publish_handlers.go:701-717 | the loop over the stored hashes computes that filter |
| `PublishLedger.ItemDifference` | platform/kin-core/api/consolev2/attention_publish_handlers.go:742-754 | the reserved items that were not inserted, each as often as it was reserved and in reservation order |
| `PublishLedger.ContainsAllItems` | platform/kin-core/api/consolev2/attention_publish_handlers.go:756-767 | true iff every actual item was a candidate |
| `PublishLedger.CountSurface` | platform/kin-core/api/consolev2/attention_publish_handlers.go:731-740 | the loop counts the items of a surface |
| `PublishLedger.Publications.Write` | platform/kin-core/api/consolev2/attention_publish_handlers.go:907-1017 | the authoritative write: lock, filter, candidate check, quota check, sources, insert, receipt |
| `RateReservations.AdmittedAfterRetry` | platform/kin-core/api/consolev2/attention_publish_handlers.go:115-146 | a rejected batch of new members that fits an empty window is admitted after waiting exactly the returned retry time, if nothing else is admitted |
| `RateReservations.RetryIsExact` | platform/kin-core/api/consolev2/attention_publish_handlers.go:115-146 | every earlier attempt is rejected iff a full set that makes the batch wait longest keeps its key alive until then, a condition read off the sets alone |
| `RateReservations.RetryExactWhenOutlived` | platform/kin-core/api/consolev2/attention_publish_handlers.go:115-146 | when every member leaves its window before its key expires, the batch is admitted after `d` milliseconds iff `d` is at least the retry time |
| `RateReservations.AdmitKeepsOutlived` | platform/kin-core/api/consolev2/attention_publish_handlers.go:148-158 | an admission keeps members outlived by their keys, and at most a minute ahead of Redis |
| `RateReservations.ReconcileOutlivedWithinSlack` | platform/kin-core/api/consolev2/attention_publish_handlers.go:174-196 | a reconcile re-establishes that, if no row is stamped more than a minute ahead of Redis |
| `RateReservations.RetryTooLongWhenRowsAreAhead` | platform/kin-core/api/consolev2/attention_publish_handlers.go:174-196 | a concrete reconcile from rows stamped ahead of Redis for which the retry time is too long |
| `RateReservations.RankScoreIsThreshold` | platform/kin-core/api/consolev2/attention_publish_handlers.go:122-137 | more than `rank` members have left the window iff the bound has reached the score at that rank |
| `RateScripts.RateWindow.Admit` | platform/kin-core/api/consolev2/attention_publish_handlers.go:93-163 | the admit script in its loop form yields the sets and the reply of the specification |
| `RateScripts.RateWindow.Release` | platform/kin-core/api/consolev2/attention_publish_handlers.go:165-172 | the release script removes exactly the listed members from all three sets |
| `RateScripts.RateWindow.Reconcile` | platform/kin-core/api/consolev2/attention_publish_handlers.go:174-196 | the reconcile script rebuilds the three sets from rows |
| `RateHistory.AdmittedCountsForOneWindow` | platform/kin-core/api/consolev2/attention_publish_handlers.go:148-158 | a member admitted at `now` counts in the total set and in its surface's set at every later `t` iff `t` is before `now` plus one hour, and never in the other set |
| `RateHistory.EveryHourOfRedisTimeIsLimited` | platform/kin-core/api/consolev2/attention_publish_handlers.go:101-163 | over any run of attempts with fresh members no hour of Redis time admits more than 20 members, 4 participation and 16 focus |
| `RateHistory.AdmittedIffHourHasRoom` | platform/kin-core/api/consolev2/attention_publish_handlers.go:101-163 | after any such run the next attempt is admitted iff it fits beside the admissions of the hour before it |
| `RateHistory.RemainingIsWhatIsFree` | platform/kin-core/api/consolev2/attention_publish_handlers.go:138-163 | the remaining quotas answered, to an admission and to a rejection, are what the sets leave free afterwards |
| `ReservationProtocol.TotalIsTheDisjointUnion` | platform/kin-core/api/consolev2/attention_publish_handlers.go:148-196 | in every interleaving of reservations, writes, releases and reconciles the total set is the disjoint union of the two surface sets, with equal scores |
| `ReservationProtocol.RetryIsExactInRuns` | platform/kin-core/api/consolev2/attention_publish_handlers.go:101-196 | in every interleaving whose reconciles used no row stamped more than a minute ahead of Redis, a rejected new publish is admitted after `d` milliseconds iff `d` is at least the returned retry time |
| `ReservationProtocol.FinishedPublishesLeaveOnlyInserted` | platform/kin-core/api/consolev2/attention_publish_handlers.go:1018-1034 | in every interleaving a finished publish leaves no member under its token except for items it inserted |
| `ReservationProtocol.ReleaseLeavesExactlyInserted` | platform/kin-core/api/consolev2/attention_publish_handlers.go:1018-1034 | in every interleaving the compensating release leaves exactly the inserted items iff their reservations are still alive when it starts |
| `ReservationProtocol.ReconcileDefeatsRelease` | platform/kin-core/api/consolev2/attention_publish_handlers.go:1018-1034 | once anyone reconciled after a publish wrote, and whatever follows, its token has no member left, so its release is exact iff it inserted nothing |
| `ReservationProtocol.ReleaseAfterReconcileLosesItems` | platform/kin-core/api/consolev2/attention_publish_handlers.go:1018-1034 | a concrete run in which an inserted item has no member after the release |
| `ReservationProtocol.UninterruptedPublishIsExact` | platform/kin-core/api/consolev2/attention_publish_handlers.go:864-1034 | a publish nobody interrupts, closed by a release before its keys expire, leaves exactly what it inserted |
| `ReservationProtocol.ReconcileMirrorsTableIff` | platform/kin-core/api/consolev2/attention_publish_handlers.go:1023-1030 | a publish loads the committed rows, others go on, and it reconciles: afterwards the sets mirror the committed rows of the window, scores and surfaces included, iff none of those rows was committed between its load and its reconcile |
| `ReservationProtocol.ReconciledMirrorsLoaded` | platform/kin-core/api/consolev2/attention_publish_handlers.go:1023-1030 | in any case the sets mirror exactly the rows it had loaded |
| `ReservationProtocol.LateReconcileLosesARow` | platform/kin-core/api/consolev2/attention_publish_handlers.go:1023-1030 | a concrete run of two publishes in which both are done and a committed row of the window has no member |
| `CredentialFamilies.EveryFamilyIsOneChain` | platform/kin-core/api/consolev2/auth_handlers.go:739-761 | in every run each family is one chain: counters rise by one, each session points at the next, is derived from the previous token, and shares one absolute expiry that bounds its own |
| `CredentialFamilies.AtMostOneUnrevoked` | platform/kin-core/api/consolev2/auth_handlers.go:744-761 | a family has at most one unrevoked session, and it is the newest |
| `CredentialFamilies.RetriedRotation` | platform/kin-core/api/consolev2/auth_handlers.go:693-722 | retrying a rotation after anything else happened returns the session the first call issued, with its token and expiry and no new row, iff that session is unrevoked and the nonce is good; otherwise it issues nothing |
| `CredentialFamilies.RetryOutcome` | platform/kin-core/api/consolev2/auth_handlers.go:693-727 | the three possible answers for a replaced credential: replay, bad nonce, or reuse detection |
| `CredentialFamilies.ReuseKillsTheFamily` | platform/kin-core/api/consolev2/auth_handlers.go:569-575 | detected reuse, at the challenge or at the refresh, revokes every session of the family |
| `CredentialFamilies.CompromisedFamilyStaysDead` | platform/kin-core/api/consolev2/auth_handlers.go:724-732 | after that no later step makes any session of the family live and none is added |
| `CredentialAnswers.ChallengeThenRefresh` | platform/kin-core/api/consolev2/auth_handlers.go:542-763 | from any reachable state: a live credential is challenged, anything else happens, and the refresh with that nonce, if the credential is still live and the request identifier new, issues the successor iff at most two minutes have passed and the nonce is unused; the successor has the next counter and expires after 15 minutes or at the absolute expiry, whichever is first |
| `CredentialAnswers.ImmediateRotation` | platform/kin-core/api/consolev2/auth_handlers.go:542-763 | with nothing in between the rotation always succeeds |
| `CredentialAnswers.LiveCredentialRefreshes` | platform/kin-core/api/consolev2/auth_handlers.go:662-763 | in every reachable state a refresh of a live credential by its own key issues the successor iff the nonce is good and the request identifier new, and otherwise changes no row |
| `CredentialAnswers.LostReplyIsRecovered` | platform/kin-core/api/consolev2/auth_handlers.go:542-727 | in every run: a refresh issued a session and its reply was lost, anything happens, the replaced credential asks for a challenge for the same request and gets it, anything happens, and the repeated refresh returns the session, token and expiry of the first time iff two minutes have not passed, the nonce is unused and that session is unrevoked |
| `CredentialAnswers.ReplacedIsChallenged` | platform/kin-core/api/consolev2/auth_handlers.go:564-598 | a replaced credential is challenged again for the request that replaced it |
| `CredentialAnswers.OtherRequestIsReuse` | platform/kin-core/api/consolev2/auth_handlers.go:569-575 | a challenge for a replaced credential under any other request revokes exactly the sessions of its family, without moving earlier times |
| `CredentialAnswers.NonceServesOnce` | platform/kin-core/api/consolev2/auth_handlers.go:709-737 | a nonce that issued something, to a rotation or to a retry, issues nothing in any later state |
| `CredentialAnswers.IssuingNeedsAGoodNonce` | platform/kin-core/api/consolev2/auth_handlers.go:709-737 | nothing is issued without an unused, unexpired nonce of the same key and a good proof |
| `CredentialAnswers.LiveCredentialIsChallenged` | platform/kin-core/api/consolev2/auth_handlers.go:542-598 | a live credential gets a nonce for its key that expires two minutes later, and nothing else changes |
| `CredentialAnswers.DeadCredentialIsRefused` | platform/kin-core/api/consolev2/auth_handlers.go:563-587 | unknown, revoked and expired credentials and those of principals that may not act get none |
| `CredentialAnswers.ProvisionAnswers` | platform/kin-core/api/consolev2/auth_handlers.go:329-467 | a provision under a new receipt opens its family, with its first session, iff its grant and nonce are good and the principal is neither revoked nor suspended |
| `CredentialAnswers.RepeatedProvisionAnswers` | platform/kin-core/api/consolev2/auth_handlers.go:329-366 | in every run a provision sent again gets the session of the first time, whatever its grant and nonce are by then, iff that is unrevoked and unexpired and the principal may act; the same key with other content is a conflict |
| `CredentialAnswers.RevocationAnswers` | platform/kin-core/api/consolev2/principal_handlers.go:267-291 | revoking a principal revokes every unrevoked session of its key, keeps earlier revocation times and touches no other session |
| `CredentialTables.Credentials.Refresh` | platform/kin-core/api/consolev2/auth_handlers.go:662-763 | the refresh transaction |
| `CredentialTables.Credentials.Rotate` | platform/kin-core/api/consolev2/auth_handlers.go:733-763 | nonce, insert and replacement, rolled back together when a unique index refuses the row |
| `CredentialTables.Credentials.AnswerReplaced` | platform/kin-core/api/consolev2/auth_handlers.go:693-727 | the branch for a credential that already has a successor |
| `CredentialTables.Credentials.CreateChallenge` | platform/kin-core/api/consolev2/auth_handlers.go:542-598 | the challenge with its reuse detection |
| `CredentialTables.Credentials.Provision` | platform/kin-core/api/consolev2/auth_handlers.go:329-467 | the receipt replay and the session insert of provisioning |
| `CredentialTables.Credentials.RevokePrincipal` | platform/kin-core/api/consolev2/principal_handlers.go:267-291 | revoking a device key revokes its sessions without moving earlier revocation times |
| `DraftOwnership.GetOfSet` | platform/kin-core/api/consolev2/onboarding_provenance.go:148-181 | reading back a written path gives what was written, or nothing after a removal |
| `DraftOwnership.GetOfOtherSet` | platform/kin-core/api/consolev2/onboarding_provenance.go:148-181 | writing one path does not change what any path apart from it reads |
| `DraftOwnership.KnownPathsArePrefixFree` | platform/kin-core/api/consolev2/onboarding_provenance.go:34-53 | the 18 known paths are distinct and none is a prefix of another |
| `DraftOwnership.MergedValue` | platform/kin-core/api/consolev2/onboarding_provenance.go:232-260 | at every known path a merge yields the previous value or absence if the Agent writes a human-confirmed field, and the incoming value otherwise |
| `DraftOwnership.MergeKeepsUnknown` | platform/kin-core/api/consolev2/onboarding_provenance.go:232-260 | a merge leaves alone whatever lies apart from the merged paths |
| `DraftOwnership.OwnershipIsForever` | platform/kin-core/api/consolev2/onboarding_provenance.go:246-334 | once a path is human-confirmed it stays so through any run of merges and confirmations |
| `DraftOwnership.AgentNeverOverwrites` | platform/kin-core/api/consolev2/onboarding_provenance.go:252-260 | no run of Agent merges changes the value or the entry of a confirmed path |
| `DraftOwnership.HumanTakesOwnership` | platform/kin-core/api/consolev2/onboarding_provenance.go:272-334 | a human change, or confirming a step whose field holds a value, makes the human the owner |
| `DraftOwnership.EntriesStayWellFormed` | platform/kin-core/api/consolev2/onboarding_provenance.go:234-239 | every stored entry stays well formed over any run |
| `DraftOwnership.StepsPartitionThePaths` | platform/kin-core/api/consolev2/onboarding_provenance.go:307-317 | every known path belongs to exactly one of the four steps |
| `DraftOwnership.HumanChangeIsTold` | platform/kin-core/api/consolev2/onboarding_provenance.go:232-305 | a human's change of a known field is recorded as confirmed human input, with the first origin the field had |
| `DraftOwnership.AgentChangeIsTold` | platform/kin-core/api/consolev2/onboarding_provenance.go:232-305 | an Agent's change of an unconfirmed field is recorded under the source it claims, or as inferred, with the first origin the field had; a field it empties loses its entry |
| `DraftOwnership.UnchangedFieldKeepsItsEntry` | platform/kin-core/api/consolev2/onboarding_provenance.go:232-305 | a field that is written unchanged keeps its entry, unless the Agent claims a source for it |
| `DraftOwnership.ClaimedSourceIsTold` | platform/kin-core/api/consolev2/onboarding_provenance.go:262-282 | a source the Agent claims for an unconfirmed value it leaves as it is replaces the recorded source, but not the origin |
| `DraftOwnership.FirstDraftIsTold` | platform/kin-core/api/consolev2/onboarding_provenance.go:204-230 | the first draft of an Agent has an entry for exactly the known fields with a value, with the source it claims or as inferred |
| `DraftOwnership.BlockedIsTold` | platform/kin-core/api/consolev2/onboarding_provenance.go:246-260 | a field is reported as blocked iff the Agent supplied it although a human confirmed it, and it keeps its previous value |
| `DraftOwnership.InitialIsTold` | platform/kin-core/api/consolev2/onboarding_provenance.go:204-230 | a draft row without entries is read as its writer's, for exactly the known fields that carry a value |
| `DraftOwnership.StepsConfirmTheirFields` | platform/kin-core/api/consolev2/onboarding_provenance.go:307-334 | each step confirms its own fields: identity card, goal, intents, boundary |
| `DraftMerge.Merge` | platform/kin-core/api/consolev2/onboarding_provenance.go:232-305 | the in-place merge, reading the tree it changes, yields that tree, those entries, and the sorted list of exactly the confirmed paths the Agent supplied |
| `DraftMerge.MergeField` | platform/kin-core/api/consolev2/onboarding_provenance.go:247-302 | one pass of the loop over one field |
| `DraftMerge.FindValue` | platform/kin-core/api/consolev2/onboarding_provenance.go:148-162 | the walk along a path |
| `DraftMerge.DeriveInitial` | platform/kin-core/api/consolev2/onboarding_provenance.go:204-227 | entries for exactly the known fields that carry a value |
| `DraftMerge.ConfirmStep` | platform/kin-core/api/consolev2/onboarding_provenance.go:307-334 | confirmation of a step's fields |
| `DraftMerge.SortPaths` | platform/kin-core/api/consolev2/onboarding_provenance.go:303 | the result is sorted by dotted name and a permutation of the input |
| `OnboardingRuns.ActiveContextIsCurrent` | platform/kin-core/api/consolev2/onboarding_handlers.go:815-881 | after completion, in every reachable state, head, active and onboarding revisions agree and the stored context equals compiling the current facts |
| `OnboardingRuns.CompletedFacts` | platform/kin-core/api/consolev2/onboarding_handlers.go:815-870 | after completion there is exactly one active goal and at most 10 active intents, and the active context lists that goal and exactly those intents by descending priority, then identifier |
| `OnboardingRuns.CompilationDescribes` | platform/kin-core/api/consolev2/onboarding_handlers.go:815-870 | what a compiled context says, stated on the fact tables without the compiler |
| `OnboardingContext.ListingIsOrdered` | platform/kin-core/api/consolev2/onboarding_handlers.go:841-845 | the listing is the active rows, each once, in order |
| `OnboardingRuns.HistoryIsLinear` | platform/kin-core/api/consolev2/control_handlers.go:50-60 | context revisions are only appended, one per successful change, and old ones never change |
| `OnboardingRuns.StepRevisions` | platform/kin-core/api/consolev2/control_handlers.go:37-60 | a successful mutation was made against the active revision and answers the next one |
| `OnboardingRuns.ReplayChangesNothing` | platform/kin-core/api/consolev2/control_handlers.go:218-270 | a draft write, confirmation or mutation that succeeded changes nothing when it arrives again, at any time and whatever happened in between, and gets its first reply |
| `OnboardingRuns.ReusedKeyConflicts` | platform/kin-core/api/consolev2/service.go:209-236 | the key of a successful request, used again for other content after any further run, is a conflict without effect |
| `OnboardingRuns.DraftRevisionsAreDense` | platform/kin-core/api/consolev2/onboarding_handlers.go:301-315 | draft revisions are exactly 1 to the onboarding revision |
| `OnboardingRuns.CompletedStepsAreOrdered` | platform/kin-core/api/consolev2/onboarding_handlers.go:505-651 | a completed run contains first confirmations of steps 2, 3, 4 and 5 in that order |
| `OnboardingRuns.StepRisesByOne` | platform/kin-core/api/consolev2/onboarding_handlers.go:505-514 | the current step never falls and rises by at most one; so does the revision |
| `OnboardingRuns.StepsNeverFall` | platform/kin-core/api/consolev2/onboarding_handlers.go:505-651 | over any run the step never falls and completion is permanent |
| `OnboardingRuns.ClosedAfterCompletion` | platform/kin-core/api/consolev2/onboarding_handlers.go:265-267 | after completion no draft write and no confirmation changes anything |
| `OnboardingRuns.OwnershipSurvivesOnboarding` | platform/kin-core/api/consolev2/onboarding_handlers.go:268-306 | a field the human owns in the newest draft row stays theirs through any further onboarding |
| `OnboardingRuns.OwnedFieldsKeepTheirValue` | platform/kin-core/api/consolev2/onboarding_handlers.go:268-306 | through any Agent draft writes and control-plane changes the newest draft row keeps the value and the entry of a known field the human owns |
| `OnboardingAnswers.DraftWriteAnswers` | platform/kin-core/api/consolev2/onboarding_handlers.go:245-318 | under a new key a draft write is accepted iff it expects the current revision of an onboarding that is not completed; the next draft then holds at every known path the incoming value, or the previous one where a confirmed field stands against the Agent |
| `OnboardingAnswers.DecodedDraft` | platform/kin-core/api/consolev2/onboarding_handlers.go:374-400 | a draft decodes iff every field the facts are written from has a readable type, and then each fact is the value at its own path: the goal, each listed intent field by field, each of the four security settings with absent meaning false |
| `OnboardingAnswers.ConfirmationAnswers` | platform/kin-core/api/consolev2/onboarding_handlers.go:532-651 | under a new key a confirmation is accepted iff the step is unlocked, the email bound and the draft satisfies the step; step 3 then leaves exactly one active goal with the text at `network_goal`, step 4 as active intents exactly the listed ones field by field, step 5 the four settings at their own paths; each fact records the writer of its field, other facts stay, and the step machine moves on |
| `OnboardingAnswers.CompletionActivates` | platform/kin-core/api/consolev2/onboarding_handlers.go:600-651 | the confirmation that completes onboarding activates a context with the security boundary of the confirmed draft, the active goal and exactly the active intents |
| `OnboardingAnswers.ChangeAnswers` | platform/kin-core/api/consolev2/control_handlers.go:67-321 | under a new key a change is applied iff it expects the active revision and its intent is listed, or there is room for another; the next revision is then active and differs from the one before in what was changed, as the request says it, and in nothing else |
| `OnboardingTables.ControlPlane.PutDraft` | platform/kin-core/api/consolev2/onboarding_handlers.go:245-318 | the draft write transaction |
| `OnboardingTables.ControlPlane.ConfirmOnboardingStep` | platform/kin-core/api/consolev2/onboarding_handlers.go:532-651 | the confirmation transaction |
| `OnboardingTables.ControlPlane.ApplyConfirmedStep` | platform/kin-core/api/consolev2/onboarding_handlers.go:775-813 | the fact writes of steps 3, 4 and 5 |
| `OnboardingTables.ControlPlane.CompileAndActivate` | platform/kin-core/api/consolev2/onboarding_handlers.go:815-881 | the next revision compiled from the current facts and made active |
| `OnboardingTables.ControlPlane.ContextMutation` | platform/kin-core/api/consolev2/control_handlers.go:218-270 | replay, head check, fact writes, compilation and receipt in one transaction |
| `OnboardingTables.ControlPlane.WriteFacts` | platform/kin-core/api/consolev2/control_handlers.go:67-321 | the goal, intent and boundary mutations with their errors |
| `ConversationPaging.TopKOfUnion` | platform/kin-core/api/consolev2/communication_handlers.go:322-348 | the newest k rows of two bounded branches are the newest k rows of their union |
| `ConversationPaging.PageOfVisible` | platform/kin-core/api/consolev2/communication_handlers.go:322-439 | a page is the newest visible rows in order, is empty only if nothing is visible, and has more iff rows remain; it fails only when its first row alone does not fit |
| `ConversationPaging.PageIsLongest` | platform/kin-core/api/consolev2/communication_handlers.go:399-439 | a page is as long as its limit and the budget allow: every longer prefix within the limit breaks the budget |
| `ConversationPaging.VisibleRow` | platform/kin-core/api/consolev2/communication_handlers.go:322-348 | what is visible, by the columns of the row: a participant's, active, behind the cursor, and passing the filter |
| `ConversationPaging.PagesListEverythingOnce` | platform/kin-core/api/consolev2/communication_handlers.go:289-439 | following the cursors lists every visible conversation exactly once in descending order, whatever limits are asked for and however many rows the budget drops |
| `ConversationPaging.OrderedListsAll` | platform/kin-core/api/consolev2/communication_handlers.go:322-348 | the order contains every row once, newest first |
| `ConversationPaging.ListConversations` | platform/kin-core/api/consolev2/communication_handlers.go:349-439 | the handler's limit, cursor and trimming loop |
| `ActivityReplay.ReplayIsExact` | platform/kin-core/api/consolev2/activity_handlers.go:184-325 | over any series of streams, truncations, losses and reconnects, interleaved with appends, the events received followed by those behind the last identifier are the retained events behind the starting cursor, in order, each once |
| `ActivityReplay.PositiveStartIsFixed` | platform/kin-core/api/consolev2/activity_handlers.go:184-229 | a client that started from a positive cursor never gets another start |
| `ActivityReplay.NothingIsLostInFlight` | platform/kin-core/api/consolev2/activity_handlers.go:251-322 | in every reachable state with an open connection, what was received, what is in flight and what is behind the server's cursor are together everything behind the start, in order, each once |
| `ActivityReplay.IdleMeansCaughtUp` | platform/kin-core/api/consolev2/activity_handlers.go:260-293 | when a page write leaves the server idle nothing is left behind its cursor, so what was received and what is in flight is everything |
| `ActivityReplay.ResetSkipsNothing` | platform/kin-core/api/consolev2/activity_handlers.go:226-229 | moving a stale cursor up to the oldest retained event skips no retained event |
| `ActivityReplay.ListedPage` | platform/kin-core/api/consolev2/activity_handlers.go:136-182 | a listed page continues exactly where it ends, and without more nothing is left |
| `ActivityReplay.StreamBegins` | platform/kin-core/api/consolev2/activity_handlers.go:184-229 | a client without a cursor starts a hundred events behind the head, any other at its last identifier, and a cursor older than everything retained is moved to just before the oldest event with a notice |
| `ActivityReplay.PageIsWritten` | platform/kin-core/api/consolev2/activity_handlers.go:260-275 | a page is the first hundred events behind the cursor, or all of them; the fifth full page is followed by the check of the head, a short one by idling |
| `ActivityReplay.HeadIsChecked` | platform/kin-core/api/consolev2/activity_handlers.go:276-293 | after the fifth full page the stream closes with a notice iff the head is ahead of the cursor |
| `ActivityReplay.ActivityStream.WritePage` | platform/kin-core/api/consolev2/activity_handlers.go:260-275 | the loop that writes one page and advances the cursor |
| `ActivityReplay.ActivityStream.CheckLatest` | platform/kin-core/api/consolev2/activity_handlers.go:276-292 | the truncation notice after the last full page |
| `StreamSlots.ProcessTotalIsTheSum` | platform/kin-core/api/consolev2/service.go:106-122 | in every interleaving the process total is the sum of the per-kind totals plus the streams between two locks, and never exceeds 1000 |
| `StreamSlots.AgentLimitHolds` | platform/kin-core/api/consolev2/activity_handlers.go:205-213 | an agent's counter is its number of open streams of that kind, at most 3 |
| `StreamSlots.ReleaseAlwaysDecrements` | platform/kin-core/api/consolev2/service.go:116-122 | the positive-total guard is never the reason a decrement is skipped |
| `StreamSlots.AllFinishedFreesEverything` | platform/kin-core/api/consolev2/activity_handlers.go:238-250 | once all streams have finished every counter is zero |
| `StreamSlots.CheckAnswers` | platform/kin-core/api/consolev2/control_realtime.go:192-197 | in every interleaving a stream under check is admitted iff its Agent has fewer than three open streams of the kind and fewer than a thousand streams hold a slot; a refused one takes none |
| `StreamSlots.Slots.TryAcquireProcessStream` | platform/kin-core/api/consolev2/service.go:106-114 | takes a slot iff the total is below 1000 |
| `StreamSlots.Slots.ReleaseProcessStream` | platform/kin-core/api/consolev2/service.go:116-122 | gives the slot of a retired stream back |
| `StreamSlots.Slots.CheckLimits` | platform/kin-core/api/consolev2/control_realtime.go:192-197 | the agent limit, then the process limit |
| `StreamSlots.Slots.CountStream` | platform/kin-core/api/consolev2/control_realtime.go:198-200 | counts the admitted stream and unlocks |
| `StreamSlots.Slots.UncountStream` | platform/kin-core/api/consolev2/control_realtime.go:209-220 | uncounts an ended stream, dropping an empty entry |
| `ProfileLimiter.LimiterRefinesHistory` | platform/kin-core/api/agentcard/handlers.go:76-98 | the pruned sets decide at any time exactly as a limiter that remembers every admission |
| `ProfileLimiter.EveryWindowIsBounded` | platform/kin-core/api/agentcard/handlers.go:76-98 | any minute has at most 10 and any day at most 20 admitted writes |
| `ProfileLimiter.AttemptAnswers` | platform/kin-core/api/agentcard/handlers.go:76-98 | in every run an attempt is admitted iff fewer than 10 admissions lie in its last minute and fewer than 20 in its last day |
| `ProfileLimiter.MembersNeverCollide` | platform/kin-core/api/agentcard/handlers.go:90-97 | members of all admissions ever are distinct, even after the sequence key expired |
| `ProfileLimiter.SetsAreRecentHistory` | platform/kin-core/api/agentcard/handlers.go:84-97 | both sets list exactly the admissions of their window, so an admission is in both or in neither |
| `ProfileLimiter.ProfileWriteCounter.Check` | platform/kin-core/api/agentcard/handlers.go:76-98 | the script: prune, count, decide, record |
| `ProfilePatch.AuditRoundTrip` | platform/kin-core/api/agentcard/handlers.go:843-952 | over any run redoing the audit events over the initial facts gives the current facts, undoing them in reverse restores the initial ones, and every event records only real changes under consecutive versions |
| `ProfilePatch.NoOpChangesNothing` | platform/kin-core/api/agentcard/handlers.go:864-908 | a patch is applied without a new version and event iff all its values are already current |
| `ProfilePatch.PatchWrites` | platform/kin-core/api/agentcard/handlers.go:864-925 | after an applied patch every updated field has its new value and every other field its old one |
| `ProfilePatch.PatchAnswers` | platform/kin-core/api/agentcard/handlers.go:843-925 | a patch is applied iff it is well formed and expects the current version; the version rises by one iff some value is new, and the answer names exactly those fields |
| `ProfilePatch.SameVersionWritesOnce` | platform/kin-core/api/agentcard/handlers.go:857-861 | of two patches with the same expected version at most one makes changes |
| `ProfilePatch.PatchKeepsEnglishNameIff` | platform/kin-core/api/agentcard/handlers.go:871-880 | one patch keeps the English name iff there is none, or the request is invalid, has another version or carries no other name |
| `ProfilePatch.EnglishNameSurvivesIff` | platform/kin-core/api/agentcard/handlers.go:871-880 | over any run the English name is what it was iff it was empty or no request renamed the Agent when its turn came |
| `ProfilePatch.EnglishNameSurvivesIffLogged` | platform/kin-core/api/agentcard/handlers.go:871-880 | equivalently, iff it was empty or no audit event changed the name |
| `ProfilePatch.EnglishNameIsLost` | platform/kin-core/api/agentcard/handlers.go:871-880 | a concrete rename after which undoing the audit log does not restore the English name |
| `ProfilePatch.ProfileRows.PutProfileFields` | platform/kin-core/api/agentcard/handlers.go:843-952 | the patch transaction |
| `ProfilePatch.ProfileRows.FilterNoOps` | platform/kin-core/api/agentcard/handlers.go:864-896 | the loop that keeps the real changes and the values they replace |
| `Handshake.StoredGesturesAreClose` | apps/api/app/services.py:303-315 | two stored gestures are at most three seconds apart, so the distance check at the end never fails |
| `Handshake.ConnectedIffWasReady` | apps/api/app/services.py:242-315 | in any order and with any repeats the handshake is connected iff at some point both had confirmed and both had a gesture that stood; then there is exactly one relationship, otherwise none |
| `Handshake.ConnectedIffRequestsMadeReady` | apps/api/app/services.py:221-315 | the same with the history computed from the requests alone: the handshake is connected iff at some point the requests let in (a participant's, under the first nonce, confirmations under unused keys) made both ready |
| `Handshake.ConnectionIsStamped` | apps/api/app/services.py:242-275 | the request that connects stamps the completion with its own time |
| `Handshake.ConnectionIsFinal` | apps/api/app/services.py:242-275 | once connected nothing changes the status, the completion time or the relationship |
| `Handshake.RepeatedConfirmation` | apps/api/app/services.py:278-300 | an accepted confirmation sent again at any later time is a duplicate without effect |
| `Handshake.ConfirmationReplies` | apps/api/app/services.py:278-300 | a confirmation is done iff its key is new, its nonce fits and its user takes part; any other changes nothing |
| `Handshake.FirstConfirmationStands` | apps/api/app/services.py:278-300 | a user's first accepted confirmation stamps it with its own time, which nothing changes again |
| `Handshake.StoredAfter` | apps/api/app/services.py:303-315 | only the user's own gesture and a far gesture of the other change what is stored |
| `Handshake.HandshakeService.EnsureHandshake` | apps/api/app/services.py:221-234 | starts a handshake or checks its nonce |
| `Handshake.HandshakeService.FinalizeHandshake` | apps/api/app/services.py:242-275 | creates the one relationship when everything is there |
| `Handshake.HandshakeService.ConfirmHandshake` | apps/api/app/services.py:278-300 | the confirmation, with its rollback on refusal |
| `Handshake.HandshakeService.RecordGesture` | apps/api/app/services.py:303-315 | the gesture, clearing one that is too far away |

## Left out

- Transactions are atomic steps: row locks, lock timeouts and statement-level interleavings inside one transaction are not modelled.
- HTTP, JSON text, cookies, SSE framing and the transports of Redis and PostgreSQL: only the steps they trigger are kept.
- `CredentialFamilies.CompromisedFamilyStaysDead`: the revocation in `createRefreshChallenge` (platform/kin-core/api/consolev2/auth_handlers.go:569-573) is a single statement of its own, taken to see every row of the family. Under READ COMMITTED a successor that a concurrent refresh has inserted and not yet committed escapes that statement and stays live, so this interleaving lies outside the theorem; refreshes among themselves wait for the locks on the session and principal rows.
- Cryptography (signatures, HMACs, random tokens) and one-time passwords: injective values or boolean inputs.
- Retention jobs and expiry sweeps: receipts, sessions, items and command rows are never purged in the model.
- Text limits, source authorization and identity-card validation: boolean inputs of the requests.
- `AttentionCommands`: the payload of a command is its protocol version and its terminal flag; display texts, snapshots, wake-up outbox rows and delivery times are not kept.
- `PublishQuota`: enrichment columns of the inserted rows and the preflight checks that only answer the client earlier.
- `ReservationProtocol`: which of the possible Redis steps a publish takes next is left open; a reservation whose reply was lost is a publish that never closes, its members stay until the window or a reconcile removes them; a reconcile whose reply was lost is one by somebody else followed by the release. Releasing nothing only drops keys that have expired.
- `RateReservations`: members with equal scores leave the window together, so the order Redis gives ties is not modelled.
- `DraftMerge.DraftTree.SetValue`: the tree is one value that is replaced along the written path; subtrees the Go maps share between the previous and the merged draft are not modelled, and no later write reaches into them.
- `DraftOwnership`: the legacy string form of provenance entries and the normalisation of a draft, whose result is an input.
- `OnboardingContext`: step 2 writes the Agent Card facts, which only enters as a version check; the `paused` intent status, which no modelled handler writes; field names that differ only in case.
- `ConversationPaging`: the table is fixed while pages are followed, the two participants of a conversation differ, keys are positive, and what a row looks like in the response is the budget function's business.
- `ActivityReplay`: the log only grows while a client follows it; events purged during a replay are not modelled.
- `StreamSlots`: wake-up subscriptions, heartbeats, lifetimes and the control stream's set of sent commands.
- `ProfileLimiter`: the single-window limiter of reads, whose script is the same with one set.
- `ProfilePatch`: legacy writers of the profile and the onboarding write of step 2, which changes facts without an audit event; the bio history and notifications.
- `Handshake`: one match at a time; the job row and the texts of the relationship.
- AGTI quiz, install attribution, telemetry, email, registration limits, feed matching and Today assembly: easy members beside the rest.
- Firmware, relays, browser extension, web animation, TiDB tools and profile scoring.
