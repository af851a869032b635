# LamTo: evidence, spending and the machines around them

LamTo is a building-management backend whose promise is that published spending
evidence is never edited in place, never lost or duplicated, and that any change
to it is reported. This project models the parts of the backend that keep the
promise and proves what they keep, over every input and every run.

A database transaction is one atomic step that either commits or is refused and
leaves the old state, except where no lock keeps others out and it matters: a push round counts the day's
deliveries and its devices when it begins and commits later, a registration looks for accounts before it inserts
its request, outbox workers interleave between their claims, registry calls and marks, and photo deletions may
end between the blob and the row. Time is an integer. NFC, SHA-256 and the classification of
digits are function parameters with stated laws. SHA-256 is not assumed to be
injective, since 64 hexadecimal digits cannot be: where a statement depends on it,
the statement names the pair of values whose collision would be the only way out.

## Structure

- `canonical_values`, `canonical_json`, `utf8`, `decimal`: canonical JSON, its reader and its hash; `canonical_text`: why no other
  text and no other bytes would do.
- `content_maps`, `evidence_payloads`, `payload_schema`, `integrity`, `integrity_verdict`: the anchored payloads of
  versions and Settlements, the schemas they must keep to, the local check, and how documents, re-hashes and
  chain answers combine.
- `spending_state` (transactions), `spending_database` (the same services as statements over mutable
  tables with rollback), `spending_invariants`, `spending_safety`, `spending_evidence`,
  `spending_runs` (every step keeps the invariant), `spending_acceptance` (which publications and settlements go
  through, exactly), `spending_progress` (who can still be paid, what the nightly job closes), `spending_theorems` (the promises over whole
  runs), `spending_opacity` (no free text is anchored), `spending_observation` (the verification of a ledger
  entry, of a reachable state and of any database written over afterwards), `spending_timeline` (dates), `spending_squatting` (a run that shows
  why the money theorem needs its condition).
- `outbox` (one row, one batch), `outbox_runs` (any number of workers against the registry),
  `outbox_leases` (what holds when workers respect their leases, and what exactly breaks when they do not),
  `evidence_system` (the record, its outbox and the registry as one system, and what its verification then says).
- `throttle`, `fund_series`, `fund_calendar` with `calendar`, `gate` and `gate_service`, `push` and
  `push_cap` (the daily cap while rounds overlap), `locations`, `phones`, `registration` and `registration_rules`, `amount_in_words`.
- `wrappers`, `texts`, `powers`: small helpers.

Services that update rows are classes; each method is proved to leave exactly the state a pure
transaction function gives, and the run theorems are about those functions.

## Where the code and its descriptions differ

- `fund_series` says that its last balance equals the fund balance
  (`src/lamto/finance/selectors.py:183-187`). It does exactly when the entries dated past the window
  cancel out (`FundSeries.LastBalanceIsTotal`), so it does for entries dated no later than today
  (`FundSeries.LastBalanceOfPast`); the services date every entry by the clock
  (`src/lamto/finance/fund.py:152`, `:246`).
- Settling is meant to take every payment out of the fund. `record_fund_source` accepts any source key
  from its caller, so an earlier source under `OUTFLOW:proposal:<id>` suppresses the outflow;
  `SpendingTheorems.Conservation` states exactly when the balance is right, and
  `SpendingSquatting.SquattedKeyHidesPayment` reaches a state where it is not. Only Python code that passes
  `source_key` explicitly can do this: the fund page, the one caller in the application, leaves it to its
  default (`src/lamto/web/views/fund.py:128`), and with default keys the balance is always right
  (`SpendingTheorems.DeployedFundIsExact`).
- A decision to proceed promises work and payment, but it can come when neither is possible any more: no guard stops it after the
  case was completed or closed (`src/lamto/finance/proposals.py:262-270`), and only work completed afterwards makes a proposal
  payable. And the nightly job closes a standalone proposal fourteen days after its completion whether it was paid or not
  (`src/lamto/maintenance/cases.py:164-179`), after which no payment is accepted (`src/lamto/finance/settlements.py:41`).
  `SpendingProgress.PayableExactly` says from which states a proposal can still be paid in some run.
- One mismatching document does not always give MISMATCH (`IntegrityVerdict.DocumentMismatchExactly`).
- Terminal outbox states are final while workers keep to their leases (`OutboxLeases.TerminalSticks`). A
  terminal row is taken back exactly when a worker whose attempt failed writes it, its verdict changes exactly
  when, besides, a claimed row is settled locally or a LOCAL one concluded, and any column changes exactly when,
  besides, a confirmed row is confirmed again (`OutboxLeases.LeavesTerminalExactly`, `VerdictChangesExactly`,
  `RowChangesExactly`). The first worker to do so has outlived its lease (`OutboxLeases.OverwriterIsLate`);
  a later one need not have (`OutboxLeases.LatenessElsewhereSuffices`).
- `MAX_PUSH_ATTEMPTS` bounds the counted rounds of a delivery while rounds act on fresh claims
  (`Push.AtMostFiveRounds`). The round itself does not check it: the limit is passed exactly when a counted round
  acts on a row that has used up its rounds and is not due (`Push.LimitPassedExactly`), as in `Push.SixthRound`.
- Five attempts lock a registration bucket for fifteen minutes, but nine can be admitted in fifteen minutes. The call that
  creates a bucket reads the clock for the window's start before it reads it again for its own attempt
  (`src/lamto/accounts/security.py:95-99`), so the first window ends before fifteen minutes from the first attempt are over.
  Nine get through exactly when that window counted four attempts, the fifth opened another, and the ninth came within
  fifteen minutes of the first (`Throttle.NineExactly`, reached in `Throttle.NineIsReached`); never more, never later in a
  bucket's life (`Throttle.LaterNinesSpan`), and with equal readings at most eight (`Throttle.AtMostEightPerWindow`).
- The daily push cap of ten counts the day's deliveries under the lock of one row only
  (`src/lamto/notifications/services.py:385-402`). Nine plus the greatest number of a recipient's rounds under
  way at once bound the deliveries of a day (`PushCap.DailyCapOverlapping`), and for every such number the bound is
  reached (`PushCap.CapPassed`).
- A registration's look for existing accounts and its insertion are apart, and the unique columns that guard the insertion
  are those of pending requests. Approving a request in time conflicts exactly when an account that its submission missed has
  taken its contact (`Registration.ApprovalConflictsExactly`), as in `Registration.RacedSubmissionConflicts`.
- A failed photo submission removes its blob only if that deletion succeeds (`Gate.OrphansExactly`). A row outlives its
  blob exactly when a deletion ended in between, or when the deletion of a replaced photo raised after the commit and the
  submission's clean-up removed the new blob although its row stands (`Gate.MissingExactly`).
- A purge leaves no overdue photo exactly when no deletion raises before its last (`Gate.PurgeLeavesNoneOverdue`).

## Model

| member | source | states |
|---|---|---|
| CanonicalValues.NormalizeValue | src/lamto/evidence/canonical.py:6-23 | the recursive normaliser with its dict-filling loop computes the normalisation function, error for error (non-string key, key collision after NFC, unsupported type) |
| CanonicalValues.NormalizeAccepts | src/lamto/evidence/canonical.py:6-23 | it rejects exactly the inputs that are not canonicalizable, a condition written without running it |
| CanonicalValues.NormalizeYieldsNormal | src/lamto/evidence/canonical.py:6-23 | whatever comes out is JSON-representable and in normalisation form C throughout |
| CanonicalValues.NormalizeFixesNormal | src/lamto/evidence/canonical.py:6-23 | normal values are fixed points, so normalising twice changes nothing |
| CanonicalValues.NormalizesInPlace | src/lamto/evidence/canonical.py:6-23 | every string and key is put into form C where it stands, the order of dicts is kept and nothing else changes |
| CanonicalValues.ErrorsAreEarned | src/lamto/evidence/canonical.py:6-23 | a TypeError has a value or key of a foreign type to blame, a ValueError two keys of one dict that are the same in form C |
| CanonicalJson.SortSorted | src/lamto/evidence/canonical.py:26-31 | key sorting yields strictly increasing keys in code-point order |
| CanonicalJson.SortKeysDecidesContent | src/lamto/evidence/canonical.py:26-31 | two values sort to the same value exactly when they have the same content, dict order aside |
| CanonicalJson.SortKeysIdempotent | src/lamto/evidence/canonical.py:26-31 | sorting keys twice is sorting them once |
| CanonicalJson.ReadsPrinted | src/lamto/evidence/canonical.py:26-31 | reading printed compact JSON (string escapes of section 7 of RFC 8259) gives the value back and leaves the following text, for every nesting |
| CanonicalJson.CanonicalBytesAccepts | src/lamto/evidence/canonical.py:26-31 | canonical bytes exist exactly for canonicalizable payloads |
| CanonicalJson.CanonicalRoundTrip | src/lamto/evidence/services.py:131-132 | loading canonical bytes gives the normalised, key-sorted payload, and canonicalising that gives the same bytes |
| CanonicalJson.BytesDecideContent | src/lamto/evidence/canonical.py:26-31 | two payloads have equal bytes exactly when they are equal up to NFC and key order |
| CanonicalJson.HashDecidesContent | src/lamto/evidence/canonical.py:34-35 | short of an explicit SHA-256 collision, equal payload hashes mean equal content, and conversely |
| CanonicalText.OnlyText | src/lamto/evidence/canonical.py:26-31 | the printed text is the one JSON text without an optional escape, a space between tokens or a sign on zero that reads as the value |
| CanonicalText.OnlyBytes | src/lamto/evidence/canonical.py:26-31 | the canonical bytes are the one UTF-8 text of that kind that reads as a value with sorted keys at every depth and the content of the normalised payload |
| Utf8.DecodeEncode | src/lamto/evidence/canonical.py:26-31 | UTF-8 decoding undoes encoding for every string of scalar values |
| Utf8.EncodeDecode | src/lamto/evidence/canonical.py:26-31 | encoding undoes strict decoding: no other bytes decode to the text |
| Decimal.NatValueOfText | src/lamto/evidence/canonical.py:26-31 | the decimal numeral of a number has that number as its value |
| Decimal.IntTextInjective | src/lamto/evidence/canonical.py:26-31 | distinct integers print differently |
| Calendar.JanuaryStart | src/lamto/finance/selectors.py:140-151 | chaining month lengths from year 1 agrees with the closed Gregorian leap-year formula |
| Calendar.OrdinalRoundTrip | src/lamto/finance/proposals.py:40-63 | a valid date survives conversion to its day number and back |
| Calendar.IsoDateInjective | src/lamto/finance/proposals.py:107-123 | distinct dates up to year 9999 have distinct ISO texts |
| Calendar.Rfc3339Injective | src/lamto/evidence/services.py:47-50 | distinct microseconds up to year 9999 have distinct UTC timestamps |
| Calendar.ThirtyTwoDaysLater | src/lamto/finance/selectors.py:206-207 | 32 days after the first of any month is a day of the next month |
| EvidencePayloads.VersionPayloadFields | src/lamto/finance/proposals.py:125-148 | the anchored version payload holds each value under its own field name, the two case fields when there is a case, and no case field at all when there is none |
| EvidencePayloads.SnapshotFields | src/lamto/finance/proposals.py:107-124 | the snapshot behind its hash holds each of its twelve columns under its own field name |
| EvidencePayloads.SettlementPayloadFields | src/lamto/finance/settlements.py:27-29 | the Settlement payload holds each value under its own field name |
| PayloadSchema.ConformingIsKept | src/lamto/evidence/services.py:70-132 | storing a payload its schema accepts keeps exactly its fields, so what is stored and hashed keeps to the schema too |
| PayloadSchema.VersionConforms | src/lamto/evidence/services.py:26-34 | a version's payload is refused for its shape only if one of its ids is not positive or its amount negative: hashes are always well formed and no field is ever unknown or missing |
| PayloadSchema.SettlementConforms | src/lamto/evidence/services.py:35-39 | a Settlement's payload is accepted exactly when ids are positive, the amount not negative, the transfer hash and the timestamp well formed |
| Calendar.DatableIsStamp | src/lamto/evidence/services.py:114-119 | every moment up to the end of year 9999 is written as a timestamp the schema accepts |
| Integrity.AnchoredHashReadsBack | src/lamto/finance/integrity.py:85-105 | an anchored hexadecimal hash is compared exactly as it was written, whatever prefix handling does |
| Integrity.SnapshotDecides | src/lamto/finance/proposals.py:93-123 | two snapshots have the same canonical content exactly when every published column agrees after NFC and the quotation hashes agree in order |
| Integrity.CaseSnapshotDecides | src/lamto/finance/proposals.py:136-147 | two case snapshots have the same content exactly when id, category, queue and location agree after NFC |
| Integrity.RebuiltComparesSpend | src/lamto/finance/integrity.py:39-64 | with the stored payload intact, rebuilding compares the spend fields and nothing else: re-triage of the case cannot change the outcome |
| Integrity.VersionTamperEvidence | src/lamto/finance/integrity.py:39-105 | whatever happened to stored payload, published rows and case, the check says VERIFIED exactly when the payload is intact and every published column is what was anchored, unless one of three named pairs collides under SHA-256 |
| Integrity.UneditedVersionVerifies | src/lamto/finance/integrity.py:39-105 | unedited rows always verify, with no assumption on SHA-256, whatever the case says by now |
| Integrity.SettlementTamperEvidence | src/lamto/finance/integrity.py:67-105 | the same both ways for a Settlement: amount, version number, transfer hash and the moment itself to the microsecond (years up to 9999), short of a collision of one of two pairs |
| Integrity.UneditedSettlementVerifies | src/lamto/finance/integrity.py:67-105 | an unedited Settlement verifies, with no assumption on SHA-256 |
| IntegrityVerdict.CheckDocuments | src/lamto/finance/integrity.py:240-265 | the document loop leaves the verdict of the last document that is not clean, and lists the hashes of all readable ones in order |
| IntegrityVerdict.DocumentsByColumns | src/lamto/finance/integrity.py:240-265 | the documents are VERIFIED exactly when the bytes of each hash to its stored hash and to the listed one where there is one, and UNAVAILABLE exactly when some document cannot be read and all later ones are clean |
| IntegrityVerdict.CheckChainRecords | src/lamto/finance/integrity.py:123-207 | the two chain loops skip LOCAL events, then report disagreement before silence before agreement |
| IntegrityVerdict.CheckAnswers | src/lamto/finance/integrity.py:166-207 | the loop over on-chain events finds a disagreement or a silence wherever it stands |
| IntegrityVerdict.ChainSpecMeaning | src/lamto/finance/integrity.py:123-207 | the chain outcome is False exactly when some answered record disagrees, and unavailable exactly when none disagrees and some event has no answer |
| IntegrityVerdict.ConsultedMeaning | src/lamto/finance/integrity.py:288-299 | every listed check is an answer exactly when there are events, anchoring is on and the chain answered for all of them |
| IntegrityVerdict.Observe | src/lamto/finance/integrity.py:240-299 | VERIFIED exactly when the bytes of all documents hash to their stored and their listed hashes, all local re-hashes verify, no record of an event that is not LOCAL has another hash, and either the chain was available or every event is LOCAL or CONFIRMED; MISMATCH and the consulted flag characterised the same way |
| SpendingObservation.UntouchedEntryObserved | src/lamto/finance/integrity.py:210-299 | for every ledger entry of every reachable state all local checks pass, so the verdict is VERIFIED exactly when every document its snapshot lists and the transfer proof are intact, no record disagrees and the chain answered or everything is settled; with intact documents it is MISMATCH exactly when the chain disagrees |
| SpendingObservation.ConsultedVerdict | src/lamto/finance/integrity.py:210-299 | whatever is written over rows, cases, payloads, hashes, statuses and documents: once the chain was consulted and holds of the events what was anchored, the verdict is VERIFIED exactly when the documents are clean, every row carries the anchored hash and shows what was published under its event, short of a named collision |
| EvidenceSystem.RecordRuns | src/lamto/evidence/services.py:124-170 | with outbox and registry beside it the record still goes through one of its own runs, so all that holds of those holds here |
| EvidenceSystem.NeverMismatch | src/lamto/finance/integrity.py:123-299 | as long as only the outbox writes to the registry, and whatever its workers do, an untouched entry with intact documents is never reported as MISMATCH |
| EvidenceSystem.VerdictsAreOfTheRecord | src/lamto/evidence/worker.py:67-80 | in every run of record, outbox and registry, CONFIRMED means that the registry holds exactly the queued payload hash, the hash it links to, the number of its type and the platform's signer; MISMATCH that it holds something else |
| EvidenceSystem.ConfirmedEntryVerifies | src/lamto/finance/integrity.py:123-299 | once every event of an untouched entry is confirmed, whoever recorded it, verification with intact documents and a registry that answers says VERIFIED and is independent |
| EvidenceSystem.WrittenOverAfterConfirmation | src/lamto/finance/integrity.py:39-299 | record, workers, registry and others run as they may, then the database is written over at will: if the events shown had been confirmed and the chain was consulted, VERIFIED means exactly that documents are clean and every row carries the anchored hash and shows what was published, short of a named collision |
| SpendingObservation.EditIsReported | src/lamto/finance/integrity.py:85-299 | whatever is written over rows, cases, stored payloads, statuses and documents of an entry, as long as its events keep their hashes: with clean documents the verdict is MISMATCH exactly when some row does not show what was published under its event or the chain disagrees, short of a named collision |
| IntegrityVerdict.DocumentMismatchExactly | src/lamto/finance/integrity.py:242-265 | the documents give MISMATCH exactly when the bytes of some document hash to something else than its stored or its listed hash and every later document can be read |
| IntegrityVerdict.LaterUnreadableHidesMismatch | src/lamto/finance/integrity.py:250-265 | a concrete list where a later unreadable document hides a mismatch |
| SpendingDatabase.Database.QueuePlatformEvent | src/lamto/evidence/services.py:70-170 | validation against the schema and get-or-insert of an outbox event on mutable tables commit exactly the modelled transaction: same id and identity is a no-op, another identity a conflict |
| SpendingDatabase.Database.PublishProposalVersion | src/lamto/finance/proposals.py:299-426 | the publication statements, with rollback of the queued event when its row cannot be inserted, commit exactly the modelled transaction or nothing |
| SpendingDatabase.Database.Decide | src/lamto/finance/proposals.py:262-295 | a Proceed decision is taken on published proposals only and moves them to exactly one of two states |
| SpendingDatabase.Database.FindInProgress | src/lamto/maintenance/cases.py:126-130 | the lookup finds the case's in-progress proposal whenever there is one |
| SpendingDatabase.Database.CompleteCase | src/lamto/maintenance/cases.py:119-147 | completing a case completes the one proposal decided to proceed with, and no other |
| SpendingDatabase.Database.CompleteProposal | src/lamto/maintenance/cases.py:104-116 | standalone proposals are completed from in-progress only |
| SpendingDatabase.Database.CloseExpiredCases | src/lamto/maintenance/cases.py:153-162 | the loop closes exactly the cases past the rating window and counts them |
| SpendingDatabase.Database.CloseExpiredProposals | src/lamto/maintenance/cases.py:163-179 | the loop closes exactly the standalone proposals past the window and past their settlement, and counts those it closed |
| SpendingDatabase.Database.CloseExpiredCompleted | src/lamto/maintenance/cases.py:151-180 | the nightly job is both closings together and returns how many rows it closed |
| SpendingDatabase.Database.CreateSettlementOutflow | src/lamto/finance/fund.py:238-249 | get-or-create by source key: an existing key of any kind suppresses the outflow |
| SpendingDatabase.Database.SettleProposal | src/lamto/finance/settlements.py:33-65 | settlement, event, outflow and ledger entry are committed together or not at all |
| SpendingDatabase.Database.RecordSource | src/lamto/finance/fund.py:117-167 | a fund source is recorded under a key nobody used before |
| SpendingDatabase.Database.VerifySource | src/lamto/finance/fund.py:171-200 | only an unverified source entry can be verified, once |
| SpendingState.FindSettlement | src/lamto/finance/settlements.py:42-43 | the lookup finds a proposal's settlement exactly when there is one |
| SpendingEvidence.Queued | src/lamto/evidence/services.py:123-170 | a queued payload is stored normalised under its own hash and linked to the previous hash it was given |
| SpendingEvidence.QueuedAgain | src/lamto/evidence/services.py:124-170 | queueing the same event again changes nothing, and its id with another identity is refused |
| SpendingOpacity.AnchoredPayloadsAreOpaque | src/lamto/evidence/services.py:20-111 | in every reachable state every stored payload has the fields of its schema and no others, each a number, hash, timestamp or the fixed tag: no free text is ever anchored |
| SpendingEvidence.PreviousIsLink | src/lamto/finance/proposals.py:346-365 | with versions numbered 1..n, the next event links to the hash of the nth, or to the zero hash |
| SpendingEvidence.PublishedRow | src/lamto/finance/proposals.py:346-410 | a successful publication appends version n+1, anchored, linked and sharing its event with no other version |
| SpendingEvidence.PublishedAsEntered | src/lamto/finance/proposals.py:321-391 | a published version says what was entered: amount, dates and quotations as they are, its snapshot lists these with their hashes, its schedule shows both dates or the text entered, texts up to surrounding white space, none of them blank, and no date range runs backwards |
| SpendingEvidence.SettledRow | src/lamto/finance/settlements.py:39-61 | a successful settlement pays the current version's amount and links to its hash |
| SpendingAcceptance.EveryEventIsOwned | src/lamto/evidence/services.py:124-170 | in every reachable state each outbox event is that of a version or of a settlement |
| SpendingAcceptance.PublishesExactly | src/lamto/finance/proposals.py:299-426 | in every reachable state a version is published exactly if the proposal is a draft, published or in progress, the amount positive, no text blank, the dates in order, the quotations the building's own, clean and distinct, the ids positive and the event id free |
| SpendingAcceptance.SettlesExactly | src/lamto/finance/settlements.py:32-65 | in every reachable state a settlement is recorded exactly if the proposal is completed and not settled, the transfer proof is the building's own, clean and hashed, and the event id free |
| SpendingAcceptance.StepsExactly | src/lamto/maintenance/cases.py:60-150 | the other transactions on documents, cases, proposals and fund sources go through exactly under conditions on their rows, and enter what they were given |
| SpendingProgress.RevisedWhileInProgress | src/lamto/finance/proposals.py:299-426 | a run from the empty database that publishes, decides to proceed and publishes again: two versions, the second linked to the hash of the first, a new decision pending |
| SpendingProgress.PayableExactly | src/lamto/finance/settlements.py:32-65 | from any reachable state an unsettled proposal can be paid in some later run exactly if it is completed and not closed, or neither stopped nor completed and its case, if it has one, is open and not completed |
| SpendingProgress.ClosesExactly | src/lamto/maintenance/cases.py:151-180 | in every reachable state the nightly job closes exactly the open cases and the standalone proposals completed fourteen days ago or longer, paid or not, and changes nothing else |
| SpendingSafety.UnsettledUnlessCompleted | src/lamto/finance/settlements.py:40-43 | only a completed or closed proposal can have a settlement |
| SpendingSafety.OutflowKeyInjective | src/lamto/finance/fund.py:239-240 | two proposals never share an outflow key |
| SpendingRuns.StepKeeps | src/lamto/finance/proposals.py:262-426 | every transaction of the lifecycle, refused or not, keeps the invariant (numbering, anchoring, links, one-to-one rows, audit order, money) |
| SpendingRuns.StepExtends | src/lamto/finance/settlements.py:33-65 | every transaction only extends what is there: documents, events, versions, settlements, ledger and audit are never edited or lost |
| SpendingRuns.RunKeeps | src/lamto/finance/proposals.py:200-426 | the invariant holds in every state any run reaches from the empty database |
| SpendingRuns.RunExtends | src/lamto/finance/proposals.py:200-426 | along any run nothing published is edited, reordered or lost |
| SpendingTheorems.EveryVersionVerifies | src/lamto/finance/integrity.py:85-105 | in every reachable state every published version's local check says VERIFIED, re-triaged case or not |
| SpendingTheorems.EverySettlementVerifies | src/lamto/finance/integrity.py:67-105 | in every reachable state every settlement's local check says VERIFIED |
| SpendingTheorems.EditedVersionIsDetected | src/lamto/finance/integrity.py:39-105 | from any reachable state, whatever is written over a version's columns, case and stored payload, the check verifies exactly when nothing published changed after NFC, short of a named collision |
| SpendingTheorems.EditedSettlementIsDetected | src/lamto/finance/integrity.py:67-105 | from any reachable state, whatever is written over a Settlement and its stored payload, the check verifies exactly when nothing of it changed, short of a named collision |
| SpendingTheorems.HashChain | src/lamto/finance/proposals.py:346-385 | in every reachable state versions are numbered 1..n, the current one is the nth, event k links to the hash of version k-1 (zero hash first) and no event is shared |
| SpendingTheorems.ChainIsFrozen | src/lamto/evidence/services.py:138-170 | no later step alters an earlier version or its event |
| SpendingTheorems.TrailEnds | src/lamto/finance/proposals.py:262-295 | any audit trail the lifecycle allows ends the way its phase says: paid means published, then decided to proceed, then settled |
| SpendingTheorems.PaidAsDecided | src/lamto/finance/settlements.py:39-61 | from the moment a settlement exists and forever after, it paid the current version's amount, that version was the last one published, a Proceed decision followed it, and the settlement links to its hash |
| SpendingTheorems.NotProceedingIsFinal | src/lamto/maintenance/cases.py:103-135 | a proposal decided as not proceeding keeps every column, gets no further audit row, no settlement and no outflow, in every later state |
| SpendingTheorems.BalanceSplits | src/lamto/finance/fund.py:203-235 | with all outflows posted the balance is verified sources plus outflows |
| SpendingTheorems.SquattedSumPositive | src/lamto/finance/fund.py:238-249 | the payments missing from the balance sum to zero exactly when no settled proposal's outflow key is held by a source |
| SpendingTheorems.Conservation | src/lamto/finance/fund.py:203-249 | in every reachable state a building's balance is its verified sources minus the settlements whose outflow was posted, and minus all its settlements exactly when no fund source was recorded under the outflow key of one of its settled proposals |
| SpendingTheorems.HasOneOutflow | src/lamto/finance/fund.py:238-249 | a settlement whose key was free has exactly one outflow, of its own amount, from its own building's fund |
| SpendingTheorems.OneToOne | src/lamto/finance/publication.py:51-75 | settlements, ledger entries and outflows correspond one to one, at most one of each per proposal (short of held keys) |
| SpendingTheorems.DeployedFundIsExact | src/lamto/web/views/fund.py:128 | in every run that records sources under their default keys, every building's balance is its verified sources minus all its settlements, and settlements, ledger entries and outflows correspond one to one without exception |
| SpendingTheorems.LedgerShowsEvidence | src/lamto/finance/publication.py:51-74 | in every reachable state a ledger entry shows the contractor of the version paid and the hashes of exactly its quotations and its transfer proof |
| SpendingTimeline.StartNeedsDecision | src/lamto/maintenance/cases.py:58-75 | every start date in a reachable state was set by a start of work, at that very moment, on an active case with no start date and no proposal awaiting a decision |
| SpendingTimeline.CaseDatesStand | src/lamto/maintenance/cases.py:58-162 | along every run no date of a case, once set, changes: not the first start, not the completion, not the closing |
| SpendingTimeline.DatesInOrder | src/lamto/maintenance/cases.py:58-180 | in every reachable state dates are in order: started, completed, closed for cases; decided, completed, settled, closed for proposals, a whole rating window between completion and closing of a standalone proposal, and a case's proposal completed with its case |
| SpendingSquatting.SquattedKeyHidesPayment | src/lamto/finance/fund.py:140-142 | a reachable state in which a caller-chosen source key keeps a payment of 7 out of the balance |
| Outbox.OwnRecordMatches | src/lamto/evidence/worker.py:72-80 | the record a transaction of the outbox writes always matches its event, however hashes and prefixes are spelled |
| Outbox.MatchesByColumns | src/lamto/evidence/worker.py:67-80 | a record matches an event exactly when payload hashes agree up to case and prefix, previous hashes up to case, and types and signers are the same |
| Outbox.RetryDelayBounds | src/lamto/evidence/worker.py:57-60 | delays lie in 30..3600, never shrink, double below the cap and are capped from the eighth attempt on |
| Outbox.OutboxEvent.TryClaim | src/lamto/evidence/worker.py:83-117 | a claim succeeds exactly on due rows and sets the 180 second lease |
| Outbox.OutboxEvent.MarkConfirmed | src/lamto/evidence/worker.py:120-158 | the whole new row: confirmed, lease cleared |
| Outbox.OutboxEvent.MarkMismatch | src/lamto/evidence/worker.py:161-172 | the whole new row: mismatch, lease cleared |
| Outbox.OutboxEvent.MarkRetry | src/lamto/evidence/worker.py:175-194 | the whole new row: one more attempt, pending, due after the retry delay |
| Outbox.OutboxEvent.MarkLocal | src/lamto/evidence/worker.py:197-220 | the whole new row: local, with no trace of a submission |
| Outbox.OutboxEvent.ProcessClaimed | src/lamto/evidence/worker.py:320-360 | one undisturbed attempt, branch by branch of what the client answers |
| Outbox.ProcessedNotDue | src/lamto/evidence/worker.py:175-194 | after one attempt a row is terminal or not due again at that moment |
| Outbox.OutboxTable.ClaimNextDue | src/lamto/evidence/worker.py:269-303 | the oldest due row is claimed, or none when nothing is due |
| Outbox.OutboxTable.ProcessDue | src/lamto/evidence/worker.py:306-317 | a batch handles the first rows due, each once, in creation order, and touches no other row |
| OutboxRuns.StepKeeps | src/lamto/evidence/worker.py:223-360 | every interleaved step of any number of workers, the chain and the clock keeps the outbox invariant |
| OutboxRuns.VerdictsAgreeWithChain | src/lamto/evidence/worker.py:320-360 | in every run CONFIRMED means that the registry holds a record with the event's payload hash and previous hash, however spelled, its type and its signer, and MISMATCH that it holds one in which one of the four differs |
| OutboxRuns.NeverBothVerdicts | src/lamto/evidence/worker.py:320-360 | no event gets both verdicts in one run, in either order, through crashes, timeouts, late mining and expired leases |
| OutboxRuns.RecordedOnce | chain/src/EvidenceRegistry.sol:44-63 | of all transactions ever sent for an event at most one takes effect |
| OutboxRuns.AttemptsAreFailures | src/lamto/evidence/worker.py:175-195 | in every run the attempts of a row are the failures workers have written down for it |
| OutboxRuns.DueExactly | src/lamto/evidence/worker.py:83-118 | a claim succeeds exactly at once on a row without failures, half a minute after the last attempt on one with a failure, doubled for each further one up to an hour, and three minutes after an attempt that was cut short |
| OutboxRuns.LeaseIsHeld | src/lamto/evidence/worker.py:83-118 | in every run a lease is held exactly while the row is submitted, and ends three minutes after its last attempt |
| OutboxRuns.SubmittedAtFirstClaim | src/lamto/evidence/worker.py:83-118 | a row is marked submitted at its first claim, and that time stands until the row is settled locally |
| OutboxRuns.VerdictReached | src/lamto/evidence/worker.py:320-350 | runs in which a worker finds a record: the event is confirmed or marked a mismatch by the four columns |
| OutboxRuns.UnheardSubmissionIsFound | src/lamto/evidence/worker.py:320-360 | a run in which a submission's answer is lost: the next attempt finds its record, nothing is sent twice |
| OutboxRuns.DisabledStaysOffChain | src/lamto/evidence/worker.py:320-327 | while anchoring has never been on no worker looks up, sends or concludes anything, and rows wait or end up LOCAL |
| OutboxRuns.ClaimableAfterAnHour | src/lamto/evidence/worker.py:83-117 | after any run and one quiet hour, an idle worker's claim of such a row succeeds |
| OutboxLeases.OneHolder | src/lamto/evidence/worker.py:83-117 | when workers write within their lease, at most one worker holds an event at a time |
| OutboxLeases.TerminalSticks | src/lamto/evidence/worker.py:320-360 | in such runs a CONFIRMED, MISMATCH or LOCAL row never changes again |
| OutboxLeases.TerminalRowStep | src/lamto/evidence/worker.py:320-360 | in every state that keeps the outbox invariant, hence every reachable one, timely or not: a step takes a terminal row back, changes its verdict, or changes any column of it exactly under the stated condition on the worker that writes |
| OutboxLeases.LeavesTerminalExactly | src/lamto/evidence/worker.py:334-356 | a terminal row is not terminal at some moment of a run exactly when a failed attempt on it is marked in that run |
| OutboxLeases.VerdictChangesExactly | src/lamto/evidence/worker.py:320-360 | its status changes at some moment exactly when, besides, a holder settles it locally with anchoring off or a LOCAL row is concluded |
| OutboxLeases.RowChangesExactly | src/lamto/evidence/worker.py:320-360 | any column changes at some moment exactly when, besides, a confirmed row is confirmed again at another time |
| OutboxLeases.OverwriterIsLate | src/lamto/evidence/worker.py:83-117 | after a run in which all writes were in time, whoever is about to change a terminal row has outlived its lease |
| OutboxLeases.LatenessElsewhereSuffices | src/lamto/evidence/worker.py:353-356 | once another worker was late, a write within its own lease can undo a confirmation: a run that does |
| OutboxLeases.StaleWorkerUndoesConfirmed | src/lamto/evidence/worker.py:353-356 | a run in which a worker that outlived its lease takes a confirmed row back to pending |
| Throttle.AuthThrottleBucket.RecordAuthFailure | src/lamto/accounts/security.py:57-87 | the whole new bucket after a failure |
| Throttle.AuthThrottleBucket.RecordRegistrationAttempt | src/lamto/accounts/security.py:90-119 | an attempt is admitted exactly when no lock is running, and only then changes the bucket |
| Throttle.AuthThrottleBucket.AssertNotThrottled | src/lamto/accounts/security.py:38-53 | the login guard allows exactly what the registration attempt would admit, and changes nothing |
| Throttle.RefusedExactly | src/lamto/accounts/security.py:90-119 | over every sequence of attempts, the next is refused exactly when the open counting window has five or more and the last admitted one is less than fifteen minutes old; the login guard says the same |
| Throttle.BucketIsLastWindow | src/lamto/accounts/security.py:90-119 | the bucket holds when the last counting window opened and how many attempts it counts, windows being defined by the admitted times alone |
| Throttle.LockEnds | src/lamto/accounts/security.py:90-119 | fifteen minutes after the last admitted attempt the next is admitted, whatever came before |
| Throttle.AtMostFiveCounted | src/lamto/accounts/security.py:90-119 | a counting window admits at most five attempts, or six when five fall on its first instant and the sixth exactly on its last |
| Throttle.AtMostNinePerWindow | src/lamto/accounts/security.py:90-119 | over every non-decreasing sequence of attempt times and every earlier creation, any half-open interval of 900 seconds holds at most nine admitted attempts |
| Throttle.NineExactly | src/lamto/accounts/security.py:90-119 | some such interval holds nine exactly when the first window, which starts at the creation, counted four, the fifth attempt came after it, and the ninth within 900 seconds of the first |
| Throttle.LaterNinesSpan | src/lamto/accounts/security.py:90-119 | nine consecutive admitted attempts after the first span 900 seconds or more |
| Throttle.NineIsReached | src/lamto/accounts/security.py:90-119 | a creation and a sequence of attempts that reach nine |
| Throttle.AtMostEightPerWindow | src/lamto/accounts/security.py:90-119 | when the creating call reads the same time twice, any half-open interval of 900 seconds holds at most eight |
| Throttle.EightIsReached | src/lamto/accounts/security.py:90-119 | and eight are reached |
| FundSeries.BucketStarts | src/lamto/finance/selectors.py:137-151 | the loop walking back through days or months produces the window's starts |
| FundSeries.BucketsEndNow | src/lamto/finance/selectors.py:138-157 | starts are exactly 30 consecutive days or 6 / 12 consecutive calendar months, year rollover included, the last one containing today |
| FundSeries.FiledByInterval | src/lamto/finance/selectors.py:141-158 | the key an entry is filed under is bucket i's start exactly when its day lies in bucket i's interval |
| FundSeries.BucketExists | src/lamto/finance/selectors.py:159-167 | every day of the window lies in one bucket, and in one only |
| FundSeries.FileEntries | src/lamto/finance/selectors.py:156-167 | the filing loop leaves in each slot the inflow and outflow of its interval, and in the balance everything before the window |
| FundSeries.FundSeriesFromEntries | src/lamto/finance/selectors.py:127-180 | both loops together: each point holds its interval's flows and the sum of everything dated before its end |
| FundSeries.ChartByInstants | src/lamto/finance/selectors.py:127-180 | each of the 30, 6 or 12 points shows the sums recorded between its first midnight in Ho Chi Minh City and the next one's, seven hours before UTC's, and the balance of all that was recorded before that |
| FundSeries.BalancesChain | src/lamto/finance/selectors.py:168-180 | each balance is the previous one plus the bucket's own flows |
| FundSeries.LastBalanceIsTotal | src/lamto/finance/selectors.py:183-195 | the last balance is the total of all entries exactly when those dated past the window cancel out |
| FundSeries.LastBalanceOfPast | src/lamto/finance/fund.py:146-153 | with entries dated no later than today, as the services date them, it is the total |
| FundSeries.FutureEntryIsMissing | src/lamto/finance/selectors.py:156-180 | for every range and day a single entry on the first day past the window makes it differ |
| FundSeries.SeriesPermutes | src/lamto/finance/selectors.py:127-180 | the order of the entries does not matter |
| FundSeries.YearEndsWithHalfYear | src/lamto/finance/selectors.py:143-157 | the twelve-month series ends with exactly the six-month series |
| FundCalendar.LevelRanks | src/lamto/finance/selectors.py:226 | levels lie in 0..4, rise with spending, are 0 exactly when nothing was spent and 4 on the peak day, and count started quarters of the peak |
| FundCalendar.CollectFlows | src/lamto/finance/selectors.py:208-213 | the loop leaves every day's flows in its slot and the month's flows in the slot totals |
| FundCalendar.FindPeak | src/lamto/finance/selectors.py:214 | the maximum over the slots is the month's largest daily spend |
| FundCalendar.BuildCells | src/lamto/finance/selectors.py:215-232 | blanks, one cell a day, blanks: the loops build the grid |
| FundCalendar.CellShows | src/lamto/finance/selectors.py:214-232 | the cell of a day shows its day of the month, what was recorded between its midnight and the next, the quarter of the largest daily spend it reaches into, and whether it is today or to come |
| FundCalendar.DaysInTheirColumns | src/lamto/finance/selectors.py:215-240 | for every Gregorian month the rows are whole weeks and each day stands once in the grid, in its weekday's column |
| FundCalendar.TopDaysAreLargest | src/lamto/finance/selectors.py:233-239 | at most three cells, ordered, each a cell with spending and none repeated; fewer than three are all there are, and no cell left out comes before one shown |
| FundCalendar.TopDaysOfMonth | src/lamto/finance/selectors.py:233-239 | in any month's calendar the top days are different days of spending, and a day of spending is left out only when there are three that spent more, or as much and earlier |
| FundCalendar.FundMonthCalendarFromEntries | src/lamto/finance/selectors.py:198-243 | the whole calendar: month, grid, top days and month totals |
| FundCalendar.TotalsAgree | src/lamto/finance/selectors.py:237-243 | the month totals equal the sum of the day cells and the flows of the monthly chart's last point |
| Gate.PhotoIffPending | src/lamto/gate/enrollment.py:38-62 | in every run an enrolment has a review photo exactly while it is pending |
| Gate.BlobsReferencedOnce | src/lamto/gate/photos.py:61-85 | in every run no blob is referenced twice, and it is stored exactly if a pending photo or a queued deletion refers to it and it did not go before its row; orphans alone are stored without a reference |
| Gate.OrphansExactly | src/lamto/gate/enrollment.py:37-62 | there is an orphan exactly when some submission's transaction and its clean-up both failed |
| Gate.MissingExactly | src/lamto/gate/photos.py:61-85 | a blob went while its row stood exactly when some deletion the work reached ended after the blob, or a replaced photo's deletion raised after the commit and the clean-up took the new blob |
| Gate.MatchableWasReviewed | src/lamto/gate/review.py:29-45 | a face that can match was approved at a moment when its review photo existed |
| Gate.ApprovesExactly | src/lamto/gate/review.py:29-45 | in every run a face can be approved exactly while its review photo is there; it is then approved with its vector, and the photo goes |
| Gate.RejectsExactly | src/lamto/gate/review.py:48-66 | a face can be rejected exactly if it is pending or approved and the note says something; vector and photo go |
| Gate.SubmitsAndRevokes | src/lamto/gate/enrollment.py:37-73 | a committed submission leaves one pending enrolment and one photo with its deadline, one that fails leaves both as they were, and a revocation removes both |
| Gate.PurgeLeavesNoneOverdue | src/lamto/gate/retention.py:19-34 | after a purge no photo is past its time exactly when no deletion raised before the last; the enrolments it hit have expired without a vector, and photos in time stay |
| GateService.GateDatabase.QueuePhotoDeletion | src/lamto/gate/photos.py:61-69 | the photo's row goes and its key is queued |
| GateService.GateDatabase.ProcessPhotoDeletion | src/lamto/gate/photos.py:72-81 | blob, then row; a row that is gone counts as done, a storage error leaves all, an exception leaves the row with or without its blob |
| GateService.GateDatabase.DropPhoto | src/lamto/gate/photos.py:61-69 | queueing, and the attempt after the commit: the whole new state, and when it raises |
| GateService.GateDatabase.SubmitFaceEnrollment | src/lamto/gate/enrollment.py:37-62 | store, swap, delete the replaced photo after the commit, or clean up after any exception: the whole new state, and when it raises |
| GateService.GateDatabase.ApproveFace | src/lamto/gate/review.py:29-45 | approval needs a pending enrolment, a vector and a photo, and drops the photo |
| GateService.GateDatabase.CloseFace | src/lamto/gate/review.py:48-57 | closing erases the vector and drops the photo |
| GateService.GateDatabase.RejectFace | src/lamto/gate/review.py:60-66 | a rejection needs a note that is not blank and a pending or approved enrolment; it erases the vector and drops the photo, and is refused without effect otherwise |
| GateService.GateDatabase.RevokeFaceEnrollment | src/lamto/gate/enrollment.py:65-73 | a resident's revocation removes the enrolment and queues its photo |
| GateService.GateDatabase.ProcessPhotoDeletions | src/lamto/gate/photos.py:72-85 | the loop removes blob and row together, keeps rows whose deletion failed and counts the others, and ends at the first exception |
| GateService.GateDatabase.PurgeExpiredEnrollmentPhotos | src/lamto/gate/retention.py:19-34 | the purge loop over expired photos followed by the whole queue, ending at the first exception |
| Push.Mailbox.ProcessPushDelivery | src/lamto/notifications/services.py:405-487 | the device loop and the row update: the whole new state |
| Push.FanOutReaches | src/lamto/notifications/services.py:435-455 | after the loop every listed device has the delivery, is deactivated, or a passing failure was seen |
| Push.RoundByColumns | src/lamto/notifications/services.py:405-487 | what a round leaves, by the provider's answers alone: who has the delivery, which devices are dead, and FAILED with its waiting time exactly when a device that had not got it failed for a passing reason |
| Push.WaitsExactly | src/lamto/notifications/services.py:205-223 | a row can be claimed again exactly from the end of its waiting time on, and never once it is sent or has failed five times |
| Push.NoDeviceTwice | src/lamto/notifications/services.py:431-458 | over all rounds of all workers no device gets one delivery twice, and what was sent stays sent |
| Push.SentMeansDelivered | src/lamto/notifications/services.py:457-476 | an unsuppressed SENT means some device received it and every device listed when the round began has it or was deactivated, whatever other rounds did meanwhile |
| Push.BackoffBounds | src/lamto/notifications/services.py:464-467 | retry delays never shrink and stay within 30 and 1920 seconds |
| Push.AttemptsAreRounds | src/lamto/notifications/services.py:457-476 | in every run, however stale the claims, a delivery's attempts are the number of its counted rounds: those on an unsent row with an eligible recipient, a device and no cap reached |
| Push.LimitPassedExactly | src/lamto/notifications/services.py:405-487 | in every run attempts exceed five exactly when some counted round acts on a row that has five attempts and is not due |
| Push.AtMostFiveRounds | src/lamto/notifications/services.py:205-223 | rounds on fresh claims: at most five are counted, and attempts never exceed five |
| Push.SixthRound | src/lamto/notifications/services.py:205-241 | a run from the empty mailbox in which two workers that claimed the row together make a fifth and a sixth counted round |
| PushCap.MailRuns | src/lamto/notifications/services.py:405-487 | rounds that count and list devices when they begin and commit when they end, overlapping in any way, are runs of rounds, so all that holds of those holds of them |
| PushCap.BeginsExactly | src/lamto/notifications/services.py:385-427 | a round begins on an unsent delivery nobody else holds, with exactly the devices active then, and is held back by the cap exactly when ten deliveries of its category got through on its day before it began |
| PushCap.DailyCapOverlapping | src/lamto/notifications/services.py:385-402 | on no day do more deliveries of the capped category get through than nine and the greatest number of rounds of the recipient under way at once |
| PushCap.CapPassed | src/lamto/notifications/services.py:385-402 | for every such number, moves that reach the bound: eleven with two rounds at once |
| PushCap.DailyCapHolds | src/lamto/notifications/services.py:385-402 | with rounds one at a time, at most ten |
| Locations.ChainDistinct | src/lamto/maintenance/models.py:57-76 | a chain of parents that reaches a root never meets a row twice |
| Locations.DeadEnd | src/lamto/maintenance/triage.py:24-37 | meeting a row again, or a missing parent, proves that no chain to a root exists |
| Locations.AcceptedChain | src/lamto/maintenance/triage.py:24-37 | acceptance is about the one chain there is |
| Locations.ActiveLocation | src/lamto/maintenance/triage.py:24-37 | on every table, cycles and dangling parents included, the walk terminates and accepts exactly the locations whose ancestors reach a root, all active and in the building |
| Locations.SnapshotPath | src/lamto/maintenance/reporting.py:36-55 | the report's walk accepts exactly the same locations and spells the names from the root down |
| Locations.PathLabel | src/lamto/maintenance/models.py:82-94 | the label exists exactly for chains of at most 99 rows and then equals that same text |
| Phones.InternationalRoundTrip | src/lamto/accounts/backends.py:12-23 | normalising the stored international form, with or without its plus, gives the canonical number back |
| Phones.NormalizeTwice | src/lamto/accounts/backends.py:12-23 | normalising is idempotent on everything it accepts |
| Phones.NormalizesExactly | src/lamto/accounts/backends.py:12-23 | without separators a number is accepted exactly in its three spellings, and as that number |
| Phones.SeparatorsIgnored | src/lamto/accounts/backends.py:12-23 | a separator anywhere makes no difference |
| Registration.RegistrationDesk.ExpireRequests | src/lamto/accounts/registration.py:40-48 | the loop closes exactly the chosen overdue requests and erases their hashes |
| Registration.RegistrationDesk.SubmitRegistration | src/lamto/accounts/registration.py:67-122 | expire, check and insert, or roll everything back |
| Registration.RegistrationDesk.ApproveRegistration | src/lamto/accounts/registration.py:139-194 | approval creates the account and closes the request, or expires an overdue one |
| Registration.RegistrationDesk.RejectRegistration | src/lamto/accounts/registration.py:197-232 | a blank reason is an error, a pending request in time is closed with its stripped reason, an overdue one expires and is reported as a conflict |
| RegistrationRules.SubmitsExactly | src/lamto/accounts/registration.py:67-122 | a submission goes through exactly if the number is one, the unit exists, no account seen has phone or address in any case, and no request for them is pending and in time; it inserts a request for thirty days and expires what stood in its way |
| RegistrationRules.ApprovesExactly | src/lamto/accounts/registration.py:139-194 | in every run approving a pending request in time creates the account with its number in local form, its address and its password unless the contact is taken, and an overdue one expires |
| RegistrationRules.RejectsExactly | src/lamto/accounts/registration.py:197-232 | a rejection needs a reason and a pending request in time and keeps the trimmed reason; an overdue request expires; nothing else changes anything |
| RegistrationRules.DecidedInTime | src/lamto/accounts/registration.py:40-232 | in every run requests are approved or rejected before their expiry and expire only from then on, and are undecided exactly while pending |
| Registration.PendingContactsAreFree | src/lamto/accounts/registration.py:67-232 | in every run: closed requests hold no password hash, exactly the rejected ones have a reason, pending requests have distinct phones and addresses, and none of these belongs to an account, unless the account was created between the submission's look and its insertion |
| Registration.ApprovalConflictsExactly | src/lamto/accounts/registration.py:67-194 | in every run, approving a pending request in time conflicts exactly when an account created between its submission's look and its insertion has taken its phone or address |
| Registration.RacedSubmissionConflicts | src/lamto/accounts/registration.py:67-194 | a run of two submissions of one phone in which it does |
| Registration.ApprovalNeverConflicts | src/lamto/accounts/registration.py:139-194 | with no account created between looks and insertions, approving a pending request in time always succeeds |
| AmountInWords.BuildThreeDigits | ops/demo-kit/generator/generate.py:131-144 | the growing word list is the spoken form of the three digits |
| AmountInWords.ReadsOneGroup | ops/demo-kit/generator/generate.py:131-144 | one spoken group and its scale word are read back as their weighted value |
| AmountInWords.ValueOfGroups | ops/demo-kit/generator/generate.py:152-155 | splitting by thousands loses nothing, and at most four groups arise exactly below 10^12 |
| AmountInWords.SpeakGroups | ops/demo-kit/generator/generate.py:156-163 | the loop speaks the groups from the top, silent zero groups included, and fails exactly when there are more than four |
| AmountInWords.VndInWords | ops/demo-kit/generator/generate.py:147-165 | every amount below 10^12 has a text and no other has |
| AmountInWords.ReadsText | ops/demo-kit/generator/generate.py:147-165 | a reader of the printed text gets the amount back, for every amount the printer accepts |
| AmountInWords.OnlyWords | ops/demo-kit/generator/generate.py:122-165 | an amount has one reading: no other words read as it, whatever variants of units, linh and hundreds there are, and amounts of 10^12 and more have none |
| AmountInWords.StartsWithCapital | ops/demo-kit/generator/generate.py:147-165 | the text is those words in small letters but for a capital at its start |
| AmountInWords.TextsDiffer | ops/demo-kit/generator/generate.py:147-165 | no two amounts read alike |

## Left out

- Payload schemas: timestamps with digits outside ASCII, which the source's `\d` admits and no service writes.
- EIP-712 signing, signer authorisation and the write-authorisation token: a transaction's rejection for any such reason is one nondeterministic outcome of mining.
- Transaction hashes, receipts, block numbers and error texts of outbox rows: display columns no branch of the worker reads.
- Nonce allocation under the advisory lock and fee selection (`src/lamto/evidence/chain.py:197-239`).
- Management permission, privacy and report-status guards: permissions are not modelled, and whether the linked reports allow a proposal is a parameter of its creation.
- Reports themselves, triage decisions, progress updates, ratings and notifications of the spending services.
- Price predictions, public tokens, decision notes and audit rows other than publication, decision and settlement.
- REVERSAL and REPLACEMENT fund entries, which no service creates.
- 64-bit column limits on amounts, and Python's limit on integer digits.
- JSON floats, surrogate pairs written as escapes and insignificant whitespace in the reader: canonical output contains none of them.
- Outbox.OutboxTable.ProcessDue: one worker at one instant; interleaving and passing time are in `OutboxRuns`.
- FundSeries.FundSeriesFromEntries: the range key is one of its three values, so the `ValueError` for others is not modelled; the window must lie in years the calendar has.
- FundSeries.LocalDay: a fixed offset of seven hours, as Asia/Ho_Chi_Minh has had since 1975.
- `fund_period_flows`, exports, bills, announcements and face matching.
- Registration.CleanEmail: case folding covers ASCII letters only, and the database's case-insensitive comparison is modelled the same way.
- `get_registration_status`: it adds only one more place where an overdue request expires, which the expiry step covers.
- Resetting a throttle bucket after a successful login.
- SpendingState.ResolveSchedule: the schedule label pads years before 1000 to four digits; whether `%Y` does depends on the platform and the Python version.
- Verification of an entry: rows added to or removed from a proposal, and rows linked to events the platform never queued; the theorems are about the rows found, each linked to some published event.
- Gate: photo validation, scanning and embedding happen before anything is stored and have no effect on the state; plates are not modelled.
- Push.Mailbox.ProcessPushDelivery: in-app and e-mail deliveries, the texts sent, and a worker that dies between a provider's acceptance and its commit, whose sends are then unknown to the row.
- AmountInWords.VndInWords: negative amounts, on which the source does not terminate.
- Calendar: years after 9999 are outside the theorems on date and time texts.
