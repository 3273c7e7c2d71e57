# Monacado: verified model of its governed core

Monacado publishes products as canonical, hashed capsules to a Registrar and admits sellers under review. This project
models the parts of it whose promises range over every input or every run, and proves them.

- **Canonical text, hashes and leak guards** (`Text`, `JsonValue`, `JsonText`, `JsonSpelling`, `CanonicalJson`,
  `LeakGuards`, `ForbiddenFields`, `GuardWalks`, `PublishedHash`). Values are JavaScript values, strings are UTF-16 code
  units, objects list their keys the way JavaScript does. A parser for the grammar of RFC 8259 is written independently of
  the printer.
- **The publication outbox** (`OutboxProtocol`, `OutboxRuns`, `OutboxAttempts`, `OutboxDecisions`, `OutboxRetry`,
  `OutboxSending`, `OutboxVerdicts`, `OutboxReceipts`, `OutboxSends`, `PublicationStore`, `PublicationRun`,
  `ReceiptDesk`). `OutboxProtocol` has one step for each guarded database write, so any interleaving of callers acting on stale reads is a run; the
  modules named `Outbox` after it are about runs. `PublicationStore` is the services themselves as methods on the stored
  rows; each method's new state is the protocol step it stands for. `PublicationRun` is one publication run, and one
  receipt call, with other callers' writes falling between any two of its own. `ReceiptDesk` is any number of receipt
  calls, each acting on what it read at different times.
- **Entitlement governance** (`EntitlementGovernance`): the append-only act log, the rows authorization reads, and the law
  both obey.
- **Projection direction and retention** (`ProjectionFlow`, `SourceRetention`, `Gates`).
- **Participant admission** (`ParticipantAdmission`, `ParticipantServices`): onboarding, review, restriction, suspension,
  reinstatement and closure over one shared status.
- **The worker command** (`WorkerCommand`): one procedure, every collaborator free to fail.
- **Encoders and operator confirmations** (`Crockford`, `References`, `OpaqueBody`, `OperatorArguments`,
  `OperatorCommands`, `OperatorFields`, `OperatorPhrases`).

Run `dafny verify dfyconfig.toml` to check everything.

## Where the code and its documentation differ

The model follows the code. Each point below is a lemma or a contract.

- `canonical-json.ts` says keys come out in code-unit order; array-index keys come out first, in numeric order
  (`CodeUnitOrderExactly`, `TenAfterNine`). The text is still deterministic.
- The bare `markPublicationOutboxRetryable` lets a claim be given up while its attempt can still be answered; the protocol
  survives it exactly when no attempt is outstanding, and otherwise an accepted publication can be un-accepted after its body is
  gone (`RetryUnsettlesExactly`, `VisiblyQuietExactly`). The composed run never does this (`PublicationRun.Release`).
- Preparing an attempt checks its claim and inserts later, so two attempts can be open at once (`TwoOpen`). Open attempts
  stop being the latest claim's alone exactly when an insert lands after its claim was superseded or given up
  (`OneOpenExactly`); the late attempt is never sent or answered (`LateForever`).
- A mismatched receipt leaves its item where it was. With the decision still owed, the item can be claimed again exactly
  when it is not COMPLETED, DEAD_LETTER or CANCELLED (`UndecidedExactly`, `OwedEitherWay`).
- `assertRemediationConsistency` fails on a retried item as soon as it is claimed again or cancelled (`ConsistencyExactly`,
  `ConsistencyLost`).
- `publication-run-service.ts` leaves a sent attempt open on a terminal failure so that a late receipt may still answer it. The
  item is then DEAD_LETTER, and a receipt call yet to come takes a matching receipt only while the item is PROCESSING
  (`LateReceiptExactly`), so it never can. A call that had checked before the item was parked still commits (`LateCommit`),
  because the receipt service checks before its transaction and updates the item there unguarded.
- The receipt service refuses an acceptance over a recorded mismatch, but on verdicts read before its transaction. A decision
  owed is discharged without one exactly when a matching acceptance commits over the mismatch, which takes a call that read the
  publication before the mismatch was recorded and before the attempt it answers was sent (`DischargeExactly`,
  `EarlyDischarge`); calls that read later never do it (`OwedUntilDecided`).
- A run checks its claim and then sends, so its request can go out after a later claim's (`LateSend`, `SendOrderExactly`); each
  claim is still sent for at most once (`SendsOnce`).
- `activation-review.ts` says a rejected participant may legitimately resubmit; no sequence of service calls ever lets one
  (`StrandedForever`).
- `canTransitionToPurged` accepts a denial with an empty reason list (`PurgeNeedsAllow`); the decision type rules that out only
  when it is parsed, and the function does not parse it.
- The flow rule calls the pipeline the only permitted flow, yet off-pipeline kinds give ways back to earlier stages of the same
  side (`ReachesExactly`).
- Two operator acts can share a phrase, when fields contain spaces (`SpacesConfuse`) and even when one act's do not
  (`ForConfuses`). A phrase confirms one act exactly when its words allow only one placing of the separator words
  (`SoleExactly`); account and participant ids are validated later, by the services.

## Assumptions

- SHA-256 is a function parameter; a collision-free pair is assumed only by `SharedHashExactly`. A claim's token hash is
  taken to be collision-free, lock tokens to be fresh.
- Lower-casing of keys and their classification are parameters where the code calls `toLowerCase`.
- Which terms are in force enters restriction and suspension acts as a fact.
- Worker reporter methods do not throw. Restriction and suspension retries after a database write conflict behave as one call.

## Model

| member | source | states |
|---|---|---|
| `CanonicalJson.Canonicalize` | src/contracts/integrity/canonical-json.ts:31-64 | the recursive walk with its two loops (collecting defined keys in code-unit order, assigning them onto an object) returns exactly the canonical tree, or fails |
| `CanonicalJson.AcceptedExactly` | src/contracts/integrity/canonical-json.ts:31-64 | canonicalization succeeds exactly when every leaf it keeps is null, a boolean, a string or a finite number |
| `CanonicalJson.CanonicalStable` | src/contracts/integrity/canonical-json.ts:31-64 | the canonical tree is plain JSON and is its own canonical tree |
| `CanonicalJson.SameIffCanonical` | src/contracts/integrity/canonical-json.ts:31-64 | two values have the same canonical tree exactly when they are equal up to key order and undefined members at every depth; equality is defined without the canonicalizer |
| `JsonText.ParsePrinted` | src/contracts/integrity/canonical-json.ts:67-69 | the printed text of any JSON value, followed by anything a value may be followed by, parses back to that value and consumes nothing more |
| `JsonText.ParseEscaped` | src/contracts/integrity/canonical-json.ts:67-69 | string escaping is undone by the parser for every sequence of UTF-16 code units, lone surrogates included |
| `CanonicalJson.RoundTrip` | src/contracts/integrity/canonical-json.ts:31-69 | parsing the canonical text gives the canonical tree with nothing left over, and canonicalizing that gives the same text |
| `CanonicalJson.TextDecides` | src/contracts/integrity/canonical-json.ts:67-69 | two accepted values print the same text if and only if they are equal up to key order and undefined members |
| `JsonText.PrintInjective` | src/contracts/integrity/canonical-json.ts:67-69 | different JSON values print differently |
| `JsonSpelling.PrintSpelling` | src/contracts/integrity/canonical-json.ts:67-69 | among all texts that read as a value, with surrogates in pairs and escapes in lower case, the printed one is the only shortest |
| `JsonSpelling.CanonicalSpelling` | src/contracts/integrity/canonical-json.ts:67-69 | the canonical text is the only shortest such spelling of the canonical tree |
| `JsonSpelling.ShortestWhenPaired` | src/contracts/integrity/canonical-json.ts:67-69 | a string without lone surrogates is quoted no longer than in any text whatever that reads as it |
| `JsonSpelling.UnitForms` | src/contracts/integrity/canonical-json.ts:67-69 | a lone surrogate, and a control unit without a short form, is written as four lower-case hexadecimal digits; units that need no escape stand for themselves |
| `CanonicalJson.CodeUnitOrderExactly` | src/contracts/integrity/canonical-json.ts:5-8 | members come out in plain code-unit order exactly when no array-index key precedes or follows another key against that order |
| `Text.LessExactly` | src/contracts/integrity/canonical-json.ts:55 | keys are compared by their first differing code unit, a proper prefix first |
| `JsonValue.IndexKeyExactly` | src/contracts/integrity/canonical-json.ts:5-8 | the keys listed first are exactly the decimal spellings of 0 to 2^32 - 2 |
| `CanonicalJson.TenAfterNine` | src/contracts/integrity/canonical-json.ts:5-8 | counterexample to the header: "9" and "10" come out in numeric, not code-unit, order |
| `CanonicalJson.ProtoVanishes` | src/contracts/integrity/canonical-json.ts:55-60 | a member named `__proto__` is checked like any other and then vanishes from the text |
| `LeakGuards.FindInternalIdentifiers` | src/contracts/capsule/internal-identifiers.ts:63-91 | the walk that appends hits to a shared array reports exactly the specified findings in walk order |
| `GuardWalks.IdFindingsExactly` | src/contracts/capsule/internal-identifiers.ts:63-91 | a finding is reported exactly when some way down leads to a string containing a forbidden prefix, with that prefix and that way as path, `(root)` when the path is empty |
| `GuardWalks.IdWalk` | src/contracts/capsule/internal-identifiers.ts:63-91 | every place and prefix is reported exactly once, in the order the tree is walked and the prefixes are listed |
| `GuardWalks.PathExample` | src/contracts/capsule/internal-identifiers.ts:81-87 | how paths read: `a[1].b` |
| `LeakGuards.SilentExactly` | src/contracts/capsule/internal-identifiers.ts:63-91 | no finding exactly when no string value anywhere contains a forbidden prefix |
| `LeakGuards.QuotedKeepsOccurrences` | src/contracts/capsule/internal-identifiers.ts:38-55 | escaping and quoting neither creates nor hides an occurrence of any prefix-shaped pattern |
| `LeakGuards.TextShowsExactly` | src/contracts/capsule/internal-identifiers.ts:38-55 | the canonical text contains a forbidden prefix exactly when some key or string value that reaches it does; structural characters never form one |
| `LeakGuards.GuardVerdictCarries` | src/contracts/capsule/internal-identifiers.ts:38-91 | with clean keys, a silent walk means no forbidden prefix in the published text, and (absent `__proto__` members) conversely |
| `ForbiddenFields.FindForbiddenFields` | src/contracts/integrity/forbidden-fields.ts:96-119 | the key walk reports exactly the specified findings, in order |
| `ForbiddenFields.FindingsExactly` | src/contracts/integrity/forbidden-fields.ts:88-119 | a finding is reported exactly when it is a forbidden key at a real path, at any depth, below `@` keys too |
| `GuardWalks.FieldWalk` | src/contracts/integrity/forbidden-fields.ts:96-119 | every forbidden key is reported exactly once, in walk order, a key before anything below it |
| `ForbiddenFields.CanonicalFields` | src/contracts/integrity/forbidden-fields.ts:96-119 | canonicalizing removes exactly the findings at or below dropped members (undefined ones and any `__proto__`) and permutes the rest |
| `ForbiddenFields.FindForbiddenKeys` | src/contracts/integrity/forbidden-fields.ts:88-119 | the walk with the code's own key classifier |
| `ForbiddenFields.ForbiddenKeysExactly` | src/contracts/integrity/forbidden-fields.ts:23-119 | reported are exactly the keys whose lower-cased form is listed or contains a listed token, at any depth, with the reason that applies first; never a key starting with `@` |
| `ForbiddenFields.CanonicalIds` | src/contracts/capsule/internal-identifiers.ts:63-91 | canonicalizing removes exactly the internal-identifier findings below dropped members and permutes the rest |
| `ForbiddenFields.NoIdsDropped` | src/contracts/capsule/internal-identifiers.ts:63-91 | without a `__proto__` member none is removed: the findings are only permuted |
| `PublishedHash.StampingIsFixpoint` | src/contracts/integrity/hash.ts:29-56 | stamping leaves the hash input unchanged, stamping twice is stamping once, and the stamp is the hash of the stamped capsule |
| `PublishedHash.SharedInputExactly` | src/contracts/integrity/hash.ts:29-42 | two capsules share a hash input exactly when they agree on every key but `metadata`, and there on every key but `contentHash`, up to key order and undefined members |
| `PublishedHash.AgreeExactly` | src/contracts/integrity/hash.ts:29-42 | that agreement, defined on the two capsules themselves, is sameness of what stripping leaves |
| `PublishedHash.SharedHashExactly` | src/contracts/integrity/hash.ts:44-46 | the same for the hashes, when the digest does not collide on the two inputs |
| `OutboxRuns.StepExactly` | src/server/product/publication-outbox-repository.ts:94-331 | under any interleaving of callers with stale reads, every guarded write keeps the invariant, the bare retry exactly when no attempt could still be answered: token exactly while PROCESSING, attempts bound one-to-one to claims, at most one attempt that can be answered, verdicts coherent with payload and item, receipts bound to answered attempts |
| `OutboxRuns.SoundExactly` | src/server/product/publication-outbox-repository.ts:94-331 | over every run, bare retries included: every state is sound if and only if every bare retry happened with nothing left to answer |
| `OutboxProtocol.RecoverKeeps` | src/server/product/publication-outbox-repository.ts:241-331 | recovering an expired claim together with abandoning its attempts keeps the invariant |
| `OutboxProtocol.AnswerKeeps` | src/server/product/registrar-receipt-service.ts:231-300 | recording a receipt, its verdicts, the item move and the answered attempt together keeps the invariant |
| `OutboxProtocol.RemediateKeeps` | src/server/product/publication-remediation-service.ts:297-371 | committing a governed decision keeps the invariant |
| `OutboxProtocol.DispatchKeeps` | src/server/product/submission-attempt-service.ts:166-210 | recording a send checked earlier keeps the invariant even if the claim has since been lost |
| `OutboxRuns.ReachableStates` | scripts/db-check.ts:734-811 | in every reachable state: lock token exactly while PROCESSING; attempt numbers distinct and at most attemptCount; a sent attempt is the latest claim's; payload absent exactly when ACCEPTED and MATCHED; at most one matching acceptance; payload hash unchanged |
| `OutboxRuns.ContractsHold` | src/server/product/publication-remediation-service.ts:133-160 | the row contracts, the one-acceptance slot and the one-receipt-per-attempt index are never what refuses a write in a reachable state |
| `OutboxDecisions.ConsistencyExactly` | src/contracts/product/product-publication-remediation.ts:191-231 | the remediation consistency check holds in a sound state exactly when a retry-authorized item is still RETRYABLE |
| `OutboxDecisions.ConsistencyLost` | src/contracts/product/product-publication-remediation.ts:191-231 | an exhibited run from a fresh publication: an authorized retry passes the check, and claiming or cancelling the item makes it fail |
| `OutboxRuns.StaleClaimIsPowerless` | src/server/product/publication-outbox-repository.ts:361-383 | the token of an earlier claim authorizes no write, and no send or receipt is recorded for that claim's attempt |
| `OutboxAttempts.OpenStepExactly` | src/server/product/submission-attempt-service.ts:123-159 | a write keeps "every open attempt is the latest claim's, of an item no one can claim" if and only if it is not an insert that comes after its claim was superseded or given up |
| `OutboxAttempts.OneOpenExactly` | src/server/product/submission-attempt-service.ts:77-160 | over every safe run that property holds throughout if and only if no insert came too late |
| `OutboxAttempts.OneOpenAttempt` | src/server/product/submission-attempt-service.ts:77-160 | without late inserts at most one attempt is open, the latest claim's |
| `OutboxAttempts.TwoOpen` | src/server/product/submission-attempt-service.ts:77-160 | an exhibited run with a late insert: two attempts are open at once |
| `OutboxAttempts.InsertLateExactly` | src/server/product/submission-attempt-service.ts:123-159 | an insert can never be sent exactly when its claim is not the one holding the item at that moment |
| `OutboxAttempts.LateForever` | src/server/product/submission-attempt-service.ts:166-210 | over every later run a late attempt is never sent and never answered, at most abandoned |
| `OutboxRuns.SettledForever` | scripts/db-check.ts:1624-1747 | ACCEPTED/MATCHED and CLOSED are absorbing over every run: item, verdicts, receipts and decisions never move again |
| `OutboxDecisions.RefusalWaits` | src/server/product/registrar-receipt-service.ts:104-116 | after a matched rejection nothing but a governed decision moves the item or the verdicts |
| `OutboxVerdicts.VerdictsTell` | src/server/product/registrar-receipt-service.ts:94-127 | over every safe run the verdicts are exactly what its receipts and decisions make them: rejected iff a refusal naming the publication came and no retry since; mismatch iff a receipt not naming it came and neither a retry nor one naming it since; accepted, resolved, closed, owed and retry-authorized likewise |
| `OutboxVerdicts.VerdictStep` | src/server/product/registrar-receipt-service.ts:94-127 | which write enters and which leaves each verdict |
| `OutboxVerdicts.RefusalRecorded` | src/server/product/registrar-receipt-service.ts:104-116 | a refusal naming the publication: REJECTED, MATCHED, decision owed, item DEAD_LETTER, body kept |
| `OutboxVerdicts.MismatchRecorded` | src/server/product/registrar-receipt-service.ts:117-127 | a receipt naming something else: PENDING, MISMATCH, decision owed, the item untouched |
| `OutboxVerdicts.ClosedKeepsVerdict` | src/server/product/publication-remediation-service.ts:261-293 | over every safe run a closed publication has, forever, the registration and reconciliation its closing decision was taken against |
| `OutboxVerdicts.RejectedReached` | src/server/product/registrar-receipt-service.ts:104-116 | an exhibited run from a fresh publication to a rejection |
| `OutboxDecisions.UndecidedExactly` | src/server/product/registrar-receipt-service.ts:94-127 | with a decision owed, some run claims the item before anyone decides if and only if the item is not COMPLETED, DEAD_LETTER or CANCELLED |
| `OutboxDecisions.ClaimsUndecided` | src/server/product/registrar-receipt-service.ts:94-127 | from anywhere else it is claimed with its verdicts, and the decision owed, unchanged |
| `OutboxDecisions.OwedEitherWay` | src/server/product/registrar-receipt-service.ts:94-127 | both cases are reached from a fresh publication: a mismatch on an item still claimed and on one already parked |
| `OutboxReceipts.LateReceiptExactly` | src/server/product/registrar-receipt-service.ts:144-229 | over every run: a call yet to come can take a matching refusal for a sent attempt exactly when the item is PROCESSING now, a matching acceptance exactly when moreover no mismatch stands |
| `ReceiptDesk.DischargeExactly` | src/server/product/registrar-receipt-service.ts:206-300 | receipt calls read publication, item and attempt at different times and commit later: a decision owed goes without a decision exactly when a matching acceptance is committed over a standing mismatch, and that call read the publication before the mismatch and before its attempt was sent |
| `ReceiptDesk.OwedUntilDecided` | src/server/product/registrar-receipt-service.ts:104-116 | over every run whose calls read the publication after their attempt was sent, only a decision discharges the decision owed |
| `ReceiptDesk.LateCommit` | src/server/product/publication-run-service.ts:253-272 | an exhibited run: item DEAD_LETTER, attempt sent, no call yet to come can take a matching receipt, and a call that had checked before commits one to ACCEPTED and COMPLETED |
| `ReceiptDesk.EarlyDischarge` | src/server/product/registrar-receipt-service.ts:137-300 | an exhibited run in which a call that read early accepts over a mismatch recorded since, with no decision |
| `OutboxRuns.RunKeepsHistory` | scripts/db-check.ts:893-1084 | over every run: payload hash, expectations, receipts, decisions and attempt bindings never change, attempts only move forward |
| `OutboxAttempts.NoResendWhileLeased` | src/server/product/publication-run-service.ts:201-225 | once sent under a claim, nothing is claimed or sent again until the owner gives the claim up, a receipt naming this publication or a decision comes, or the lease is over, whoever else abandons, misreports or interferes |
| `OutboxRetry.RawRetryExactly` | src/server/product/publication-outbox-repository.ts:157-171 | the bare retry keeps the invariant if and only if no attempt could still be answered |
| `OutboxRetry.VisiblyQuietExactly` | src/server/product/publication-outbox-repository.ts:157-171 | in terms of stored rows: the bare retry is safe whatever calls are under way if and only if the claim given up has no open attempt |
| `OutboxRetry.RetryUnsettlesExactly` | src/server/product/publication-outbox-repository.ts:157-171 | in terms of outcomes: after a bare retry some run accepts the publication and then takes the acceptance back, its body gone, if and only if an attempt could still be answered |
| `OutboxRetry.RawRetryUnsettles` | src/server/product/publication-outbox-repository.ts:157-171 | such a retry is reached from a fresh publication |
| `PublicationStore.Store.constructor` | prisma/schema.prisma:748-789 | a fresh publication starts in the protocol's initial state |
| `PublicationStore.Store.ClaimNext` | src/server/product/publication-outbox-repository.ts:94-154 | claims exactly when the protocol guard holds; which refusal otherwise; new state is the claim step |
| `PublicationStore.Store.MarkRetryable` | src/server/product/publication-outbox-repository.ts:157-171 | gives the claim up exactly for its owner; leaves a proper state exactly when no attempt could still be answered |
| `PublicationStore.Store.MarkCompleted` | src/server/product/publication-outbox-repository.ts:174-186 | completes exactly for the claim's owner |
| `PublicationStore.Store.MarkDeadLetter` | src/server/product/publication-outbox-repository.ts:189-202 | dead-letters exactly for the claim's owner |
| `PublicationStore.Store.CheckClaim` | src/server/product/publication-outbox-repository.ts:361-383 | which of the three refusals a caller that does not own the claim gets |
| `PublicationStore.Store.Withdraw` | src/server/product/publication-outbox-repository.ts:208-222 | cancels exactly unclaimed items |
| `PublicationStore.Store.RecoverExpired` | src/server/product/publication-outbox-repository.ts:241-331 | recovers exactly an expired claim and leaves no open attempt behind |
| `PublicationStore.Store.PrepareAttempt` | src/server/product/submission-attempt-service.ts:77-160 | creates the attempt exactly when unsettled, the claim live and its number free; identical repeat is a no-op exactly when every identity field agrees |
| `PublicationStore.Store.CheckPreparation` | src/server/product/submission-attempt-service.ts:83-150 | the guards in the service's order: what each refusal means, and that no other can occur |
| `PublicationStore.Store.CheckLiveClaim` | src/server/product/submission-attempt-service.ts:274-285 | owned, processing and not at or past its expiry; which refusal otherwise |
| `PublicationStore.Store.MarkDispatched` | src/server/product/submission-attempt-service.ts:166-210 | records the send exactly when bound, prepared, not before preparation and the claim live; repeat at the same time is a no-op |
| `PublicationStore.Store.CheckDispatch` | src/server/product/submission-attempt-service.ts:173-202 | the guards in the service's order: what each refusal means, and that no other can occur |
| `PublicationStore.Store.MarkAbandoned` | src/server/product/submission-attempt-service.ts:221-241 | abandons exactly open attempts; repeat is a no-op |
| `PublicationStore.Store.RecordReceipt` | src/server/product/registrar-receipt-service.ts:137-300 | as one uninterrupted call: takes a receipt exactly when the attempt was sent and unanswered, the registration id is new, a matching one finds the item PROCESSING and a matching acceptance finds no standing mismatch; writes all four rows or none |
| `PublicationStore.Store.WriteReceipt` | src/server/product/registrar-receipt-service.ts:231-300 | the transaction: verdicts, item, attempt and receipt row for each of the three outcomes, and nothing else |
| `PublicationStore.Store.CheckReceipt` | src/server/product/registrar-receipt-service.ts:144-229 | the guards in the service's order; what each refusal means; a matching receipt is refused for its item only when that is already COMPLETED or DEAD_LETTER |
| `PublicationStore.Store.RemediatePublication` | src/server/product/publication-remediation-service.ts:75-120 | decides exactly when a decision is owed and the work is not finished; records the states decided against; identical repeat is a no-op |
| `PublicationStore.Store.CheckDecision` | src/server/product/publication-remediation-service.ts:178-293 | why a decision is refused; the payload-unavailable refusal cannot occur |
| `PublicationStore.SameReportExactly` | src/server/product/registrar-receipt-service.ts:160-176 | a stored receipt answers a repeat exactly when every reported field is the same |
| `PublicationRun.RecordReceiptAmid` | src/server/product/registrar-receipt-service.ts:137-300 | the same with other callers' writes between the checks and the transaction: commits exactly when the checks passed and the transaction finds the attempt still sent and the receipt and registration ids still new, whatever became of the item and the verdicts that were checked; the store stays sound |
| `PublicationRun.Others` | src/server/product/publication-run-service.ts:276-294 | whatever other callers commit meanwhile, the store stays sound and this attempt only moves forward |
| `PublicationRun.SendPrepared` | src/server/registrar/registrar-dispatch-service.ts:93-214 | sends exactly once or refuses before sending; a reported send was recorded as DISPATCHED for this claim |
| `PublicationRun.Release` | src/server/product/publication-run-service.ts:233-243 | with its attempt retired, a claim is handed back and the store stays sound |
| `PublicationRun.Record` | src/server/product/publication-run-service.ts:171-275 | the consequence follows the transport's report; possibly delivered sends write nothing, undelivered ones retire the attempt first |
| `PublicationRun.RunOne` | src/server/product/publication-run-service.ts:86-295 | for every transport report and every interference: at most one send, only under this run's own attempt, retry scheduled only for a request that provably never left and whose attempt is ABANDONED, store sound throughout |
| `OutboxSends.SendsOnce` | src/server/registrar/registrar-dispatch-service.ts:93-214 | over every interleaving of runs: each claim is sent for at most once, only after its own check, and the checks follow claim order |
| `OutboxSends.SendOrderExactly` | src/server/registrar/registrar-dispatch-service.ts:93-214 | a send keeps the sends in claim order exactly when no later claim's has gone out |
| `OutboxSends.PresentClaimKeepsOrder` | src/server/registrar/registrar-dispatch-service.ts:93-214 | a run whose claim is still the latest never breaks the order |
| `OutboxSends.LateSend` | src/server/registrar/registrar-dispatch-service.ts:93-214 | an exhibited run: a run that stalls after its check sends after the next claim's run has |
| `EntitlementGovernance.Alternates` | src/contracts/account/entitlement-governance.ts:11-33 | acts for each account and capability alternate GRANT and REVOKE starting with GRANT, and the current row is active exactly after an odd number of acts |
| `EntitlementGovernance.RowTimes` | src/server/account/entitlement-governance-service.ts:159-202 | a row carries the time of its last grant and, exactly once revoked, that of its last revocation |
| `EntitlementGovernance.EveryActAuthorized` | src/contracts/account/entitlement-governance.ts:46-56 | every governed act's actor was an ACTIVE account holding `entitlement:govern` at that point of the log, and its target ACTIVE |
| `EntitlementGovernance.OneGovernor` | src/contracts/account/entitlement-governance.ts:58-102 | the active holders of `entitlement:govern` are exactly the account of the first grant |
| `EntitlementGovernance.GovernorForever` | src/contracts/account/entitlement-governance.ts:19-33 | after the first grant no lawful continuation contains another, and none gives or takes `entitlement:govern` |
| `EntitlementGovernance.ClosedSurface` | src/contracts/account/entitlement-governance.ts:64-102 | no capability off the governed list and `entitlement:govern` ever has a row for anyone |
| `EntitlementGovernance.HoldersExactly` | src/server/account/entitlement-governance-service.ts:154-156 | the holder count the last-governor rule reads is never above one |
| `EntitlementGovernance.AllowedExactly` | src/contracts/account/internal-authorization.ts:155-171 | authority resolved from stored rows is an ACTIVE account with an active row, nothing else |
| `EntitlementGovernance.DisabledGovernorFreezes` | src/server/account/entitlement-governance-service.ts:309-327 | with the governor's account disabled no act at all is possible |
| `EntitlementGovernance.Registry.WriteChange` | src/server/account/entitlement-governance-service.ts:159-202 | act and row are written together, and rows stay the fold of the log |
| `EntitlementGovernance.Registry.BootstrapFirst` | src/server/account/entitlement-governance-service.ts:221-297 | succeeds exactly when the first grant is lawful; idempotent for its account; the already-held refusal never occurs |
| `EntitlementGovernance.Registry.CheckGoverned` | src/server/account/entitlement-governance-service.ts:309-327 | passes exactly for an ACTIVE governor and an ACTIVE target; which refusal otherwise |
| `EntitlementGovernance.Registry.Grant` | src/server/account/entitlement-governance-service.ts:341-376 | appends exactly when the act is lawful after the log so far |
| `EntitlementGovernance.Registry.Revoke` | src/server/account/entitlement-governance-service.ts:389-431 | appends exactly when lawful; `entitlement:govern` is never revoked, and only its sole holder is answered as the last governor |
| `EntitlementGovernance.Reproduce` | src/server/account/entitlement-governance-service.ts:221-431 | completeness: every lawful log is produced by the services, so the law is exactly what they do |
| `ProjectionFlow.AuthorityNeverDerived` | src/contracts/architecture/transactional-truth.ts:266-287 | a chain of permitted flows of any length ending in an authoritative source passes only through authoritative sources |
| `ProjectionFlow.PipelineAdvances` | src/contracts/architecture/transactional-truth.ts:241-287 | a chain inside the pipeline strictly advances |
| `ProjectionFlow.OnlyFullChain` | src/contracts/architecture/transactional-truth.ts:241-287 | the only chain through all five stages is model, version, mapping, shape, projection in that order |
| `ProjectionFlow.DirectionExactly` | src/contracts/architecture/transactional-truth.ts:266-287 | which flows are refused, and whether as evidence, as a projection or as a step back along the pipeline |
| `ProjectionFlow.WriteOriginExactly` | src/contracts/architecture/transactional-truth.ts:309-325 | which kinds an authoritative write may rest on, and which reason each other kind is refused for |
| `ProjectionFlow.ReachesExactly` | src/contracts/architecture/transactional-truth.ts:91-103 | which kinds chains connect, exactly: all, except into an authoritative source from anything else |
| `ProjectionFlow.WriteAgreesWithFlow` | src/contracts/architecture/transactional-truth.ts:309-325 | an authoritative write may rest on a kind exactly when permitted flows can carry that kind into a source of record |
| `SourceRetention.EvaluatePurge` | src/contracts/architecture/transactional-truth.ts:585-612 | lists exactly the failing gates, each once; allows exactly when none fails |
| `SourceRetention.EvaluateArchive` | src/contracts/architecture/transactional-truth.ts:515-531 | lists exactly the failing gates, each once; allows exactly when none fails |
| `SourceRetention.CanTransitionToPurged` | src/contracts/architecture/transactional-truth.ts:622-643 | merges the decision's reasons without repeats; allows exactly from ARCHIVED with an ALLOW or a denial that names no reason |
| `SourceRetention.PurgeNeedsAllow` | src/contracts/architecture/transactional-truth.ts:622-643 | for well-formed decisions only an ALLOW from ARCHIVED passes; a reasonless denial passes too |
| `SourceRetention.PurgedForever` | src/contracts/architecture/transactional-truth.ts:352-376 | PURGED is absorbing over every run |
| `SourceRetention.StepStorage` | src/contracts/architecture/transactional-truth.ts:428-441 | holds and changed facts never move storage, every move is in the table, a held payload does not leave hot storage |
| `SourceRetention.DestroyedProperly` | src/contracts/architecture/transactional-truth.ts:557-643 | in every run purging on decisions computed in the state, a destroyed payload was destroyed once, from ARCHIVED, not held, with a verified source snapshot and every gate open |
| `SourceRetention.HotReachable` | src/contracts/architecture/transactional-truth.ts:352-376 | HOT is reachable from a state if and only if it is not PURGED |
| `SourceRetention.KeptExactly` | src/contracts/architecture/transactional-truth.ts:574-584 | for every run between keeping an ALLOW and acting on it: the destruction is proper if and only if the last hold set in between, if any, was a release and the last facts reported, if any, clear every gate |
| `SourceRetention.KeptUndisturbed` | src/contracts/architecture/transactional-truth.ts:574-584 | a kept ALLOW stays good while no hold is set and no facts change, wherever the payload moves |
| `SourceRetention.ClearsExactly` | src/contracts/architecture/transactional-truth.ts:585-612 | destruction is eligible exactly from ARCHIVED, not held, with every fact in order |
| `SourceRetention.ArchivesExactly` | src/contracts/architecture/transactional-truth.ts:515-531 | archival is eligible exactly from HOT, not held, no longer current, with every fact in order |
| `SourceRetention.StaleAllowDestroys` | src/contracts/architecture/transactional-truth.ts:335-343 | an exhibited run: a stale ALLOW destroys a held payload with a dispute window open |
| `Gates.FailingExactly` | src/contracts/marketplace/activation-review.ts:316-353 | pushing each failing gate in turn lists exactly the failing gates, each once |
| `ParticipantAdmission.EvaluateApproval` | src/contracts/marketplace/activation-review.ts:316-353 | the refusal list is exactly the failing prerequisites, each once |
| `ParticipantAdmission.ApprovableExactly` | src/contracts/marketplace/activation-review.ts:316-353 | an approval passes exactly for a participant under review with a complete profile, an activatable role not revoked, enabled payment, every policy accepted and a support contact |
| `ParticipantAdmission.RunKeeps` | src/contracts/marketplace/lifecycle.ts:48-71 | over every run of onboarding, review, restriction, suspension and closure acts: admission implies an approval, and the status agrees with the restriction and suspension rows |
| `ParticipantAdmission.AdmittedWereApproved` | src/contracts/marketplace/participant-mitigation.ts:223-239 | no run of mitigation acts admits anyone: whoever is ACTIVE, RESTRICTED or SUSPENDED was approved by a review in that run |
| `ParticipantAdmission.AdmissionBegins` | src/server/marketplace/activation-service.ts:371-413 | admission is entered only by an APPROVED decision with an empty refusal list, from review, not suspended |
| `ParticipantAdmission.ReviewElectsNothingAdverse` | src/contracts/marketplace/activation-review.ts:443-454 | no decision yields RESTRICTED or SUSPENDED; an approved participant rests at RESTRICTED exactly for restriction rows already there |
| `ParticipantAdmission.MitigationUndone` | src/contracts/marketplace/participant-mitigation.ts:245-266 | suspending then reinstating, and restricting then lifting, restore the whole state, in every reachable state |
| `ParticipantAdmission.DraftRolesActivated` | src/contracts/marketplace/activation-review.ts:363-373 | every Seller or Promoter role held when a review was submitted is ACTIVE after any later approval, whatever came between; a role assigned after stays DRAFT |
| `ParticipantAdmission.RoleMovesAllowed` | src/contracts/marketplace/lifecycle.ts:81-97 | the role steps never leave the role transition table |
| `ParticipantAdmission.StrandedForever` | src/contracts/marketplace/activation-review.ts:432-454 | after every REJECTED decision no run submits, decides or advances again: under review until closed |
| `ParticipantAdmission.RejectionReached` | src/contracts/marketplace/activation-review.ts:432-454 | such a decision is reached from a new participant |
| `ParticipantServices.ReasonsSeparateVerdicts` | src/contracts/marketplace/activation-review.ts:412-430 | every decision has a reason code and no reason code fits two decisions |
| `ParticipantServices.Participant.AdvanceStatus` | src/server/marketplace/participant-service.ts:501-540 | moves exactly between drafting statuses, never out of review |
| `ParticipantServices.Participant.AssignRole` | src/server/marketplace/participant-service.ts:245-292 | adds a missing role at its initial status in any participant status |
| `ParticipantServices.Participant.SubmitForActivation` | src/server/marketplace/activation-service.ts:199-261 | submits exactly from PROFILE_COMPLETE with an activatable role; the duplicate-submission index is never what refuses |
| `ParticipantServices.Participant.DecideActivation` | src/server/marketplace/activation-service.ts:323-455 | decides exactly when entitled, independent, coherent, pending and, for an approval, not suspended with no refusal; otherwise writes nothing |
| `ParticipantServices.Participant.CheckDecision` | src/server/marketplace/activation-service.ts:337-383 | what each refusal means and that no other can occur; a refused approval names exactly the failing prerequisites |
| `ParticipantServices.Participant.Reconcile` | src/server/marketplace/participant-restriction-service.ts:463-523 | the two guarded updates make the status agree with the rows |
| `ParticipantServices.Participant.ImposeRestriction` | src/server/marketplace/participant-restriction-service.ts:197-306 | imposes exactly an enforceable scope, by an entitled stranger, under terms where the ground is risk-derived, on a live participant not yet restricted in it |
| `ParticipantServices.Participant.LiftRestriction` | src/server/marketplace/participant-restriction-service.ts:320-383 | lifts exactly an active restriction and reconciles |
| `ParticipantServices.Participant.SuspendParticipant` | src/server/marketplace/participant-suspension-service.ts:159-262 | under authorising terms, records the suspension for anyone not suspended or closed, moves only the admitted |
| `ParticipantServices.Participant.ReinstateParticipant` | src/server/marketplace/participant-suspension-service.ts:277-349 | under authorising terms, lifts the suspension and returns the status the rows warrant |
| `ParticipantServices.Participant.CloseParticipant` | src/server/marketplace/participant-closure-service.ts:129-223 | closes exactly on the owner's word; anyone else is told not found |
| `WorkerCommand.Command` | scripts/run-publication-worker.ts:308-599 | for every combination of collaborator failures: the cycle runs at most once and only straight after a successful STARTED write; nothing but cleanup follows a terminal write; a row stays STARTED only with a non-zero exit; exit 0 exactly when disabled or run and recorded; client and handlers released exactly once if created |
| `WorkerCommand.Attempt` | scripts/run-publication-worker.ts:391-561 | which exit code each failure gives, exactly, and the terminal row agrees with it |
| `WorkerCommand.Then` | scripts/run-publication-worker.ts:457-548 | how one more effect changes the run row and the ordering facts |
| `Crockford.AlphabetAt` | src/contracts/capsule/identity.ts:330-334 | the alphabet is exactly the character class of opaque bodies, each character once |
| `References.ApplicationRef` | src/server/application-reference.ts:37-44 | every output has the reference shape and its bytes are among its preimages |
| `References.PreimagesExactly` | src/server/application-reference.ts:37-44 | the counted set is exactly the byte strings that render as the given string |
| `References.Uniform` | src/server/application-reference.ts:37-44 | every reference-shaped string comes from exactly 8^32 byte strings of length 32 |
| `OpaqueBody.FromHex` | src/contracts/capsule/identity.ts:341-353 | refuses exactly non-hexadecimal text; otherwise 26 alphabet characters whose base-32 value is the digest modulo 32^26 |
| `OpaqueBody.SharedExactly` | src/contracts/capsule/identity.ts:336-353 | two digests share a body if and only if they are congruent modulo 2^130 |
| `OpaqueBody.CaseAndZeros` | src/contracts/capsule/identity.ts:341-345 | letter case and leading zeros do not change the digest's value |
| `OpaqueBody.HexReads` | src/contracts/capsule/identity.ts:341-346 | reading a digest's hexadecimal text gives the big-endian value of its bytes |
| `OperatorArguments.ParseArgs` | scripts/operator-target.ts:95-116 | the loop accepts and returns a function of which arguments there are, never of their order |
| `OperatorArguments.TypedReads` | scripts/operator-target.ts:101-108 | a typed key and value read back, the value split at the first equals sign only |
| `OperatorArguments.ReadMore` | scripts/operator-target.ts:101-114 | one more fitting argument adds exactly what it says |
| `OperatorFields.RecognisedExactly` | scripts/operator-target.ts:101-114 | recognised is exactly a listed key with any value or a listed flag |
| `OperatorFields.FitsExactly` | scripts/operator-target.ts:100-115 | arguments are taken exactly when each is recognised and no key is given twice |
| `OperatorCommands.ParseOptions` | scripts/operator-entitlement.ts:67-98 | the options are a function of the arguments after the command word regardless of order |
| `OperatorFields.ActAsked` | scripts/operator-entitlement.ts:67-98 | for all seven commands: an act's own command line, in any order, asks for exactly that act |
| `OperatorFields.AskedSays` | scripts/operator-commerce.ts:79-106 | conversely every field of an act asked for is the trimmed value typed under that field's own key, or the stated default |
| `OperatorFields.AskedExactly` | scripts/risk-policy-bootstrap.ts:50-66 | a command line is accepted exactly when its arguments are, a target is named, the required fields are not blank and an amount is one |
| `OperatorFields.AmountSpelling` | scripts/risk-policy-bootstrap.ts:58-61 | an amount is exactly the decimal spelling of a number from 1 to 999,999,999,999,999 |
| `OperatorFields.KeysExactly` | scripts/operator-entitlement.ts:72-77 | a command takes exactly the keys of its acts' fields, the target and the confirmation |
| `OperatorFields.TrimExactly` | scripts/operator-entitlement.ts:79-86 | trimming cuts spaces off both ends and leaves none there |
| `OperatorFields.EntitlementText` | scripts/operator-entitlement.ts:101-110 | the entitlement phrases word for word |
| `OperatorFields.CommerceText` | scripts/operator-commerce.ts:109-113 | the commerce phrases word for word |
| `OperatorFields.PolicyText` | scripts/risk-policy-bootstrap.ts:78-80 | the policy phrases word for word |
| `OperatorCommands.PhraseDecides` | scripts/operator-entitlement.ts:101-110 | for space-free fields the phrases of all command families are jointly injective: equal exactly when the acts are equal, a policy id typed NEW reading as none |
| `OperatorCommands.WordsDecide` | scripts/operator-commerce.ts:109-113 | the words of a phrase determine the act |
| `OperatorCommands.AmountPrintsBack` | scripts/risk-policy-bootstrap.ts:58-80 | the amount prints back the digits typed |
| `OperatorCommands.RiskPhraseShowsDigits` | scripts/risk-policy-bootstrap.ts:78-80 | the risk phrase carries the amount exactly as typed |
| `OperatorFields.SpacesConfuse` | scripts/operator-entitlement.ts:105-106 | counterexample: with spaces in a field two command lines ask for two different grants and one confirmation executes either |
| `OperatorPhrases.PhraseIsFrame` | scripts/operator-entitlement.ts:101-110 | for all fields, spaces or not, two acts have one phrase exactly when their command word, target and words in between are the same |
| `OperatorPhrases.OwnReads` | scripts/operator-entitlement.ts:101-110 | every act is one reading of its own phrase: the separator words where it put them |
| `OperatorPhrases.MeantReads` | scripts/operator-commerce.ts:109-113 | every reading of a phrase's words is the phrase of an act, the one that reading means |
| `OperatorPhrases.SoleExactly` | scripts/operator-target.ts:122-134 | for every act, spaces or not: its phrase confirms no other act exactly when its words admit no second placing of the separator words of its family |
| `OperatorPhrases.ForConfuses` | scripts/risk-policy-bootstrap.ts:78-80 | counterexample among space-free acts: a policy id FOR reads as a first grant of a capability `risk-policy` |
| `OperatorCommands.OneActPerConfirmation` | scripts/operator-target.ts:122-134 | one confirmation never executes two different acts |
| `OperatorFields.ExecutesExactly` | scripts/operator-target.ts:118-134 | a command line executes exactly when it carries `--execute` and the phrase of what it asks for, and is a dry run exactly without the flag |
| `OperatorCommands.ConfirmedExecutes` | scripts/operator-target.ts:118-134 | a dry run's arguments with `--execute` and the printed phrase added anywhere execute the same act |

## Left out

- Database mechanics, SQL, environment reading, signals, console output: a transaction is one atomic step, a failed call a
  parameter. The outbox queue's choice among several items, and other publications' rows, are not modelled.
- `prisma` column detail that nothing here reads: error codes and summaries, completion and abandonment stamps, actor notes,
  notices, marketplace policy versions.
- Identifier syntax checked by schemas (opaque ids, dates) and the schemas' other field rules; instants are integers.
- A run's configuration and transport construction come before its claim and are not modelled; nor are the
  `buildRegisterRequest` field checks and the HTTP transport: a send is one reported outcome.
- Receipt ingestion from a Registrar response (`receipt-ingestion-service.ts`): a thin mapping onto the receipt service.
- Non-integer numbers, integers beyond the safe range and negative zero in canonical JSON; class instances and cyclic objects.
- PublishedHash.Stripped: the code deletes the field on a fresh deep clone; here it is a value, so the clone's update in place
  is not captured.
- Profile completeness, policy acceptance, payment readiness and support contacts enter the approval as facts; how each is
  derived is not modelled.
- Entitlement governance serializes each act by account locks and a unique marker; the losing side of two concurrent bootstraps
  writes nothing and is not a separate step.
- Publication replay source, reconstruction assessment and provenance origins: single-branch decisions.
- Issue-code filtering, field-name extraction and direct-execution detection in the worker command: one-line string helpers.
- Database URL resolution, output formatting and the choice of command word in the operator scripts.
- React pages, routes, forms, copy tables, tax, fee, refund, dispute and risk-review scripts, basket delivery.
