# LuxLedger grant engine: a Dafny model

This project models the credit-grant and hold engine that LuxLedger keeps in its PostgreSQL
migrations (`drizzle/*.sql`), and proves what its triggers guarantee together. No trigger states these
laws alone: they follow from several triggers by sums, pigeonhole arguments and cross-multiplication.
Five smaller pieces of the repository with their own laws are modelled beside it.

Check everything with `dafny verify dfyconfig.toml`.

## The grant engine

A *grant* is a lot of credit on a grant-enabled account. Every event on it appends a *version* with
seven counters (granted, reversed, consumed, compensated, expired, remaining, reserved). *Lineage*
rows attribute ledger postings to grants under six kinds. A *hold* sets capacity aside through
*allocations*, and captures consume it, in parts or in full, or voiding releases it. Some rules are
checked row by row, and some only at COMMIT by deferred triggers, which look at the final state but
only for the rows the transaction touched.

| file | content |
|---|---|
| `Sums.dfy` | one finite-sum operator and its laws: grouping by key, pigeonhole, re-indexing |
| `Tables.dfy` | the rows, the joins, and the aggregate queries; the declarative reading of a grant |
| `Engine.dfy` | each statement and each deferred check as a function; database transactions and runs |
| `GrantLedger.dfy` | the same statements as methods of a class whose fields are the tables |
| `Invariant.dfy`, `Preservation.dfy` | what every statement keeps; the guards suffice |
| `Commits.dfy` | what commits add, and which callers keep attribution complete |
| `Attribution.dfy`, `HoldLaws.dfy`, `Conservation.dfy`, `Expiry.dfy` | the laws of committed states |
| `Closing.dfy`, `Versions.dfy` | a reversed grant is closed for good; one version per event |
| `Decisions.dfy` | which rows get in, both ways, from sums of earlier rows and comparisons of times |
| `Deferred.dfy` | which commits succeed, both ways, from the rows the transaction touched |
| `Flows.dfy`, `Captures.dfy`, `Histories.dfy` | captures and voids that always get through, and hold histories that are all reached |
| `Edits.dfy`, `EditChecks.dfy` | UPDATE and DELETE of postings, held entries and transactions: what is refused, and what the rest breaks |
| `Witnesses.dfy`, `ReversalWitnesses.dfy` | complete runs that show why laws carry a condition |
| `Migration.dfy` | the rewrite from directions to signed amounts preserves meaning |
| `GrantLog.dfy` | the rows written under one grant's lock, and the triggers read over them alone |
| `RowLock.dfy` | interleaved sessions under the grant row lock |
| `SerialLog.dfy` | the engine's runs as such logs, and as interleavings that commit the same transactions |
| `Csv.dfy`, `Money.dfy`, `Shell.dfy` | the statement lexer, decimal amounts, the copied cURL command |
| `Limiter.dfy`, `Pages.dfy` | the request limiter over runs, keyset pages under inserts |

A run is any sequence of statements, commits and rollbacks from the empty tables, with any clock
values. `Exec` is one step, `Run` the whole run, and a `Session` holds the last committed tables
(`base`), the working tables (`cur`), the time the transaction began and the trigger firings that
wait for the commit. Theorems about `Run(...).cur` hold at every point inside a transaction, and those
about `Run(...).base` in every committed state. A method of `Ledger` does in the order of the trigger
procedure what the function says, so the theorems speak about the class.

Committed-state laws are about serial executions: one database transaction after another. Deferred
checks of concurrent transactions run on different snapshots and may miss each other's rows; only what
the grant row lock protects is modelled under interleaving, in `RowLock.dfy`.

Safety alone would also hold of an engine that refuses everything, so the other half is proved as well.
`Decisions.dfy` tells for each statement, from sums over earlier rows and integer comparisons, exactly
when it is accepted: `ExpiryTurns` puts the two sides of the moment of expiry next to each other.
`Deferred.dfy` does the same for COMMIT. From any committed state any part of a live hold that is
posted in proportion can be attributed and commits (`AlwaysCapturable`), and what is left can be voided
(`VoidCommits`); `HistoryReached` drives a hold through any falling sequence of remainders.

Some laws depend on what callers do. All three conditions are proved exact:

* Lineage in time (`AttributesInTime`): a row is written in the database transaction that posts its
  entry. Attribution is rechecked only when an entry is inserted, so the triggers do not enforce it.
  `AttributionKept` proves that complete attribution survives a commit if and only if this was
  respected. Account conservation needs less: `ConservedOverRuns` gives the whole difference in every
  run, and it is zero if and only if late rows on debits and on credits balance.
  `LateLineageBreaksConservation` is a run where they do not.
* Nothing more in a reversed transaction: an entry may be added to a committed transaction, and no
  trigger looks again at the reversal of it. `CompletionKept`, `MirroringKept` and `RestorationStays`
  give the exact condition at each commit, `ExactOverRuns` and `ReversalsOverRuns` over runs, and
  `LateEntryBreaksReversal` is a run where an exact reversal stops being exact. Callers that insert
  entries with their ledger transaction (`AtomicOp`) always meet it.
* No UPDATE or DELETE that no trigger guards: of a posting without lineage, a held entry without
  allocations, a transaction without lineage. `Op` has no such statement, so theorems about `Run` are
  about callers that issue none; `Edits.dfy` adds them. `EditKeepsInv` says exactly which are refused.
  The invariant and the coverage of held entries survive every accepted one (`PlayKeepsInv`,
  `PlayBacked`), and the rows of grant-enabled accounts stay frozen (`CoveredFrozen`,
  `AttributedFrozen`). Whether a hold still agrees with its postings after a commit is decided by its
  totals and by the proportion in which each account's side moved (`HoldKeptAtCommit`, and over runs
  `AgreesOverRuns`), and complete attribution breaks exactly when a posting is moved onto a
  grant-enabled account (`EditKeepsAttribution`). `CounterEntryUpdateUnchecked` is a run that commits a
  hold whose sides differ.

Where the code permits more than its comments suggest, the model follows the code:

* A hold may be captured by EXPIRATION or REVERSAL lineage. The comment at
  `drizzle/0004_grant_hold_allocations.sql:366-367` says that APPLIED has no remainder.
  `CaptureDrains` proves this holds exactly when every capture is attributed by CONSUMPTION, and
  `DivertedCaptureStrandsReserve` is a run that ends APPLIED with 20 still reserved.
* The REVERSAL test compares nullable columns under NOT, so a transaction without a relation passes
  it. `ReversalLink` gives the exact condition for the link, `UnlinkedReversalAccepted` the rows that
  pass without it, `UnlinkedReversalCommits` a run that commits one, and `ValidateKind` evaluates the
  test in three-valued logic.
* A reversing transaction may also be the source of a new grant. `ReversalRestores` proves that a
  committed reversal restores each lot if and only if it issues nothing on that account, and
  `IssuingReversalRestoresNothing` is a run where it issues.

## Model

| member | source | states |
|---|---|---|
| Preservation.RunKeepsInv | drizzle/0004_grant_hold_allocations.sql:306-406 | In every reachable state, inside or between transactions: newest versions equal the sums of their lineage and outstanding reservations, versions are contiguous and pass every CHECK, no hold consumes more of a lot than was allocated to it, no reversal compensates more than was consumed |
| Preservation.LatestIsTotals | drizzle/0007_2026-10-17-partial-credit-grant-refund-functions.sql:1-55 | Reservation refinement: the incrementally appended counters equal the per-kind sums of the lineage table, and reserved equals the sum over non-VOIDED holds of allocated less consumed |
| Preservation.GuardsNeverFire | drizzle/0004_grant_hold_allocations.sql:319-329 | For every row the validators accept, all capacity CHECKs and version keys pass and the defensive raises of the reserve and void steps are unreachable |
| Preservation.StatementKeepsInv | drizzle/0004_grant_hold_allocations.sql:304-408 | One accepted or refused statement of any kind keeps the whole invariant |
| Preservation.LineageMovesTotals | drizzle/0007_2026-10-17-partial-credit-grant-refund-functions.sql:26-43 | Adding one lineage row moves the declarative sums of every grant exactly as the appender moves its counters, reserve included |
| Preservation.LineageFits | drizzle/0007_2026-10-17-partial-credit-grant-refund-functions.sql:120-201 | The six kinds' tests imply that the appended version is well formed and its event new |
| Preservation.AllocationFits | drizzle/0004_grant_hold_allocations.sql:74-85 | An accepted allocation finds an issued grant and appends a valid version |
| Preservation.AllocationMovesTotals | drizzle/0004_grant_hold_allocations.sql:355-363 | An allocation raises its grant's outstanding reservations by its amount and touches no other sum |
| Preservation.UpdateFits | drizzle/0004_grant_hold_allocations.sql:397-403 | Voiding finds every backed lot releasable: no negative release, no repeated one |
| Preservation.UpdateMovesTotals | drizzle/0004_grant_hold_allocations.sql:378-404 | A capture update changes no sum, and a void lowers each lot's reservation sum by what the hold had left of it |
| GrantLedger.Ledger.constructor | drizzle/0000_initial-schema.sql:86-132 | The tables start empty, with a transaction begun |
| GrantLedger.Ledger.InsertAccount | drizzle/0001_grant_account_capability.sql:1-12 | Whole new state of the insert; a grant-enabled account must be a credit account that may not be overdrawn, and the capability is set once, here |
| GrantLedger.Ledger.InsertTransaction | drizzle/0000_initial-schema.sql:365 | Whole new state; refused when the relation pair is broken or the related transaction already has that relation |
| GrantLedger.Ledger.InsertEntry | drizzle/0000_initial-schema.sql:686-688 | Whole new state; the attribution check waits for the commit |
| GrantLedger.Ledger.InsertGrant | drizzle/0000_initial-schema.sql:763-788 | Whole new state; capability, distinct accounts, one grant per source, and the expiring-funding guard |
| GrantLedger.Ledger.InsertHold | drizzle/0004_grant_hold_allocations.sql:418-425 | Whole new state; a hold starts HELD with its full amount |
| GrantLedger.Ledger.InsertHoldEntry | drizzle/0004_grant_hold_allocations.sql:112-114 | Whole new state; the allocation and consistency checks wait for the commit |
| GrantLedger.Ledger.ValidateKind | drizzle/0007_2026-10-17-partial-credit-grant-refund-functions.sql:120-201 | The trigger's IF chain in SQL's three-valued logic raises exactly when the row breaks the rule of its kind |
| GrantLedger.Ledger.NextCapacity | drizzle/0007_2026-10-17-partial-credit-grant-refund-functions.sql:10-43 | The counters assigned step by step are the event's effect on the newest version, and the reserve step reports when a capture exceeds the reserve |
| GrantLedger.Ledger.ValidateAllocation | drizzle/0004_grant_hold_allocations.sql:51-87 | The selects and tests of the allocation trigger, in order, raise exactly when the row is invalid |
| GrantLedger.Ledger.InsertLineage | drizzle/0007_2026-10-17-partial-credit-grant-refund-functions.sql:57-203 | Validate, insert, append: the whole new state, or no change and the reason |
| GrantLedger.Ledger.InsertAllocation | drizzle/0004_grant_hold_allocations.sql:51-87 | Validate, insert, reserve: the whole new state, or no change and the reason |
| GrantLedger.Ledger.ReleaseGrant | drizzle/0004_grant_hold_allocations.sql:389-403 | One turn of the loop releases the unconsumed allocation of one grant, or raises |
| GrantLedger.Ledger.ReleaseReservations | drizzle/0004_grant_hold_allocations.sql:368-406 | The loop appends one release version to each backed grant with something left, and to no other |
| GrantLedger.Ledger.UpdateHold | drizzle/0004_grant_hold_allocations.sql:426-443 | Exactly one forward transition, with its releases; anything else changes nothing |
| GrantLedger.Ledger.Commit | drizzle/0004_grant_hold_allocations.sql:490-506 | Runs every waiting check on the final state: all pass and the state is committed, or the snapshot is restored |
| Commits.RunCommits | drizzle/0004_grant_hold_allocations.sql:93-132 | In every committed state of a run without edits, each held entry of a grant-enabled account is a debit that allocations cover exactly, and each grant hold agrees with its postings in amount and proportion, although the deferred checks look only at touched rows |
| Commits.CommitBacks | drizzle/0004_grant_hold_allocations.sql:115-132 | A commit keeps every held entry fully allocated, those it did not touch included |
| Commits.CommitAgrees | drizzle/0004_grant_hold_allocations.sql:490-506 | A commit keeps every grant hold consistent, those it did not touch included |
| Commits.AttributionKept | drizzle/0002_2026-10-06-signed-entry-amounts.sql:148-157 | A commit keeps every entry of every grant-enabled account fully attributed if and only if it wrote no lineage for entries committed earlier |
| Commits.AttributedRunCommits | drizzle/0000_initial-schema.sql:686-688 | Over every run that writes lineage in time, every committed state is fully attributed |
| Commits.CompletionKept | drizzle/0000_initial-schema.sql:725-757 | Exact compensation survives a commit if and only if, for every committed compensation, its reversal compensated the grant again or the reversed transaction did not consume more of it |
| Commits.MirroringKept | drizzle/0002_2026-10-06-signed-entry-amounts.sql:158-176 | Attribution and mirroring survive a commit if and only if no lineage was late and, for every committed reversing entry, its side was posted again or the reversed transaction posted nothing more on the side it mirrors |
| Commits.ExactOverRuns | drizzle/0000_initial-schema.sql:725-757 | Over every run, compensation is exact in every committed state if and only if every commit met the condition, and the same of mirroring |
| Commits.AtomicRunCommits | drizzle/0000_initial-schema.sql:686-688 | Callers that insert entries with their ledger transaction and lineage with its entry meet both conditions at every commit |
| Attribution.PostedByGrant | drizzle/0002_2026-10-06-signed-entry-amounts.sql:152-157 | For any set of an account's entries, the posted total is the sum over its grants of their lineage on those entries |
| Attribution.HeldByGrant | drizzle/0004_grant_hold_allocations.sql:103-108 | What a hold holds of an account is the sum over its grants of what each allocated to the hold |
| HoldLaws.CaptureDrains | drizzle/0004_grant_hold_allocations.sql:466-488 | In a committed state an APPLIED grant hold has allocated equal to consumed for each grant separately, if and only if its captures were attributed by CONSUMPTION only |
| HoldLaws.AccountDrained | drizzle/0004_grant_hold_allocations.sql:476-488 | The same account by account: by proportion and pigeonhole every lot of the account is drained exactly when nothing on it was diverted |
| HoldLaws.DrainedOverRuns | drizzle/0007_2026-10-17-partial-credit-grant-refund-functions.sql:142-159 | CaptureDrains in every committed state of every run that writes lineage in time |
| HoldLaws.OutstandingProportional | drizzle/0004_grant_hold_allocations.sql:449-489 | For a HELD hold and a grant-enabled account, outstanding lot reservations times original equals held debit times remaining, if and only if no capture there was diverted |
| HoldLaws.VoidReleases | drizzle/0004_grant_hold_allocations.sql:368-406 | Voiding lowers each lot's reserve by exactly what the hold had left of it, changes no other counter, leaves the hold nothing, and cannot be repeated |
| HoldLaws.VoidReleasesProportion | drizzle/0004_grant_hold_allocations.sql:400-403 | Voiding hands an account's lots back held times remaining over original, cross-multiplied |
| HoldLaws.HistoryBounded | drizzle/0004_grant_hold_allocations.sql:432-442 | A history of accepted updates has at most as many as its drop in remaining amount, so at most the original amount, keeps the original, and is HELD before its last row |
| HoldLaws.UpdatesBounded | drizzle/0004_grant_hold_allocations.sql:435-442 | Over every run with its commits and rollbacks, the accepted updates in force on a hold are at most the drop in its remaining amount, in the working and in the committed tables |
| HoldLaws.FinalAbsorbs | drizzle/0004_grant_hold_allocations.sql:432-434 | A hold committed as APPLIED or VOIDED never changes again, and every update of it is refused |
| HoldLaws.CommittedHoldFrozen | drizzle/0004_grant_hold_allocations.sql:115-132 | No later commit adds a held entry to a committed grant hold or an allocation to a committed held entry |
| HoldLaws.CommittedAmounts | drizzle/0004_grant_hold_allocations.sql:459-475 | In every committed state of every run without edits, postings equal original less remaining while HELD, original when APPLIED, and less than original when VOIDED, on both sides |
| Conservation.CompensatedAtMostConsumed | drizzle/0007_2026-10-17-partial-credit-grant-refund-functions.sql:160-176 | Compensations inject into distinct reversed transactions, so their sum never exceeds consumption and remaining never exceeds granted |
| Conservation.CapacityWithinIssuance | drizzle/0000_initial-schema.sql:365 | The same of the newest version in every reachable state of every run |
| Conservation.AccountConserved | drizzle/0002_2026-10-06-signed-entry-amounts.sql:147-157 | The remaining capacity of an account's grants is minus its signed balance, and so covers every reservation, if and only if lineage exceeds the postings by as much on the debit side as on the credit side |
| Conservation.CommitDrifts | drizzle/0000_initial-schema.sql:686-688 | A commit moves the difference between lots and balance by exactly its late lineage on credits less its late lineage on debits, so a balanced account stays balanced if and only if the two are equal |
| Conservation.ConservedOverRuns | drizzle/0002_2026-10-06-signed-entry-amounts.sql:147-157 | In every committed state of every run, lots and balance differ by the total of these, so they agree if and only if it is zero |
| Conservation.InTimeConserves | drizzle/0002_2026-10-06-signed-entry-amounts.sql:147-157 | When lineage is written in time the account balances its lots in every committed state, is never overdrawn, and covers all reservations |
| Conservation.RemainingIsNet | drizzle/0007_2026-10-17-partial-credit-grant-refund-functions.sql:26-43 | A grant's remaining capacity is its attributed credits less its attributed debits, over all six kinds |
| Conservation.ReversalRestores | drizzle/0002_2026-10-06-signed-entry-amounts.sql:141-179 | A mirrored reversal gives each lot back exactly what the original took and the original's debits were all consumptions, if and only if the reversal issues nothing on that account |
| Conservation.ReversalAtCommit | drizzle/0000_initial-schema.sql:725-757 | That equivalence at the commit which posts the reversing credit, in every run that writes lineage in time |
| Conservation.RestorationStays | drizzle/0000_initial-schema.sql:739-752 | A commit leaves a restored reversal restored if and only if each lot was compensated again or not consumed further in the original, and the original's debits gained only consumptions |
| Conservation.ReversalsOverRuns | drizzle/0000_initial-schema.sql:725-757 | Over every run with lineage in time, a reversal that issues nothing restores each lot when it commits, and is exact in every later committed state if and only if every later commit left it so |
| Conservation.AtomicReversals | drizzle/0007_2026-10-17-partial-credit-grant-refund-functions.sql:160-176 | For callers that post atomically a reversal that is no grant's source is exact for good, so expirations and refunds are never reversed |
| Conservation.ReversalLink | drizzle/0007_2026-10-17-partial-credit-grant-refund-functions.sql:126-133 | An accepted REVERSAL row names the grant's source transaction if and only if its transaction has a relation |
| Conservation.UnlinkedReversalAccepted | drizzle/0007_2026-10-17-partial-credit-grant-refund-functions.sql:126-133 | The rows that pass the NULL test: any full-amount debit on an untouched grant whose transaction has no relation |
| Expiry.ExpiryMonotone | drizzle/0004_grant_hold_allocations.sql:279-301 | For a transaction begun at or after a grant's expiry, its commit never raises remaining or reserved, even when a reversal compensates into the lot, and then leaves remaining equal to reserved |
| Expiry.RunWanes | drizzle/0004_grant_hold_allocations.sql:74-77 | Inside such a transaction reserved never rises, and remaining only by compensation |
| Expiry.LapsedLineageEmpties | drizzle/0004_grant_hold_allocations.sql:284-299 | A commit that compensates into or expires a lapsed grant leaves it nothing unreserved |
| Closing.ReversedForGood | drizzle/0007_2026-10-17-partial-credit-grant-refund-functions.sql:126-133 | Over every run, once a grant has a REVERSAL row all it granted is reversed, every other counter is 0, and each further lineage row and allocation on it is refused |
| GrantLedger.Ledger.ProtectPosting | drizzle/0000_initial-schema.sql:701-705 | Raises if and only if lineage names the posting |
| GrantLedger.Ledger.ProtectTransaction | drizzle/0000_initial-schema.sql:706-712 | Raises if and only if lineage names a posting of the transaction |
| GrantLedger.Ledger.ProtectHeldEntry | drizzle/0004_grant_hold_allocations.sql:133-139 | Raises if and only if an allocation names the held entry |
| GrantLedger.Ledger.UpdateEntry | drizzle/0000_initial-schema.sql:720-721 | Whole new state of the update of a posting, and no firing: the attribution check is for inserts |
| GrantLedger.Ledger.DeleteEntry | drizzle/0000_initial-schema.sql:720-721 | Whole new state of the delete |
| GrantLedger.Ledger.UpdateHoldEntry | drizzle/0004_grant_hold_allocations.sql:112-114 | Whole new state, and the one firing, of the completeness check with the new row |
| GrantLedger.Ledger.DeleteHoldEntry | drizzle/0004_grant_hold_allocations.sql:141-143 | Whole new state of the delete |
| GrantLedger.Ledger.UpdateTransaction | drizzle/0000_initial-schema.sql:722-723 | Whole new state; guarded, and subject to the pair CHECK, the foreign keys and the unique relation |
| Edits.PlainIsEngine | drizzle/0004_grant_hold_allocations.sql:490-506 | Without edits these runs are the engine's, statement by statement and commit by commit, so what follows extends its theorems |
| Edits.EditKeepsInv | drizzle/0004_grant_hold_allocations.sql:133-143 | An edit of an existing row is refused if and only if lineage or an allocation names the row or the new row is malformed, and whatever it does the whole invariant of the lots is kept |
| Edits.PlayKeepsInv | drizzle/0000_initial-schema.sql:701-723 | So the invariant of `RunKeepsInv` holds in every reachable state of runs with edits |
| Edits.PlayBacked | drizzle/0004_grant_hold_allocations.sql:93-132 | In every committed state of runs with edits allocations cover each held entry of a grant-enabled account exactly |
| Edits.CoveredFrozen | drizzle/0004_grant_hold_allocations.sql:115-143 | A committed held entry of a grant hold on a grant-enabled account never changes again in any run, every edit of it is refused, and no commit adds an allocation to it |
| Edits.AttributedFrozen | drizzle/0000_initial-schema.sql:701-723 | The same of a committed posting that lineage names, and of its transaction |
| Edits.HoldKeptAtCommit | drizzle/0004_grant_hold_allocations.sql:449-506 | A committed grant hold that agreed still agrees after a commit with edits if and only if the commit re-examined it, or both held and both captured totals stand and each account's side moved in the hold's own proportion |
| Edits.HeldEditsAtCommit | drizzle/0004_grant_hold_allocations.sql:457-489 | For edits of held entries only, unchecked: if and only if both held totals stand and, once anything is captured, what is held on every account and side |
| Edits.PostingEditsAtCommit | drizzle/0004_grant_hold_allocations.sql:457-489 | For edits of postings or their transactions only, unchecked: if and only if both captured totals stand and so does what is captured of every account and side |
| Edits.CounterPostingsAtCommit | drizzle/0004_grant_hold_allocations.sql:481-488 | That condition is exact for VOIDED holds too when the edits stay off grant-enabled accounts, for the frozen debit fixes the share captured |
| Edits.LotsPinned | drizzle/0004_grant_hold_allocations.sql:481-488 | Why: such edits leave every grant hold an account whose held and captured debits did not move |
| Edits.EditKeepsAttribution | drizzle/0002_2026-10-06-signed-entry-amounts.sql:147-157 | An accepted edit leaves its posting attributed in full unless it puts it on a grant-enabled account, and all others as they were, so it breaks complete attribution exactly then |
| Edits.AgreesOverRuns | drizzle/0004_grant_hold_allocations.sql:490-506 | Over every run with edits, a grant hold that agrees at one commit agrees in every later committed state if and only if each later commit re-examined it or left its totals and proportions |
| Decisions.ConsumptionDecided | drizzle/0007_2026-10-17-partial-credit-grant-refund-functions.sql:134-141 | Over the invariant, a fitting CONSUMPTION outside a hold is accepted if and only if the pair is new, the posting is a debit, the amount is within issued and given back less taken less set aside, and both now and effectiveAt lie before the expiry |
| Decisions.CaptureDecided | drizzle/0007_2026-10-17-partial-credit-grant-refund-functions.sql:142-159 | One inside a hold is accepted if and only if the hold is HELD and the amount is within what it set aside of the grant less what it consumed, at any time |
| Decisions.IssuanceDecided | drizzle/0007_2026-10-17-partial-credit-grant-refund-functions.sql:120-125 | An ISSUANCE is accepted if and only if it is the grant's first, takes a whole credit of the source transaction, and now lies before the expiry |
| Decisions.ExpirationDecided | drizzle/0007_2026-10-17-partial-credit-grant-refund-functions.sql:177-187 | An EXPIRATION is accepted if and only if it takes a whole debit within what is free, the transaction credits the funding account with as much, and the grant has an expiry that neither now nor effectiveAt precedes |
| Decisions.RefundDecided | drizzle/0007_2026-10-17-partial-credit-grant-refund-functions.sql:188-200 | A REFUND is accepted if and only if it takes a whole debit within what is free, credits the funding account with as much, before the expiry by both clocks, in a transaction without hold or relation |
| Decisions.CompensationDecided | drizzle/0007_2026-10-17-partial-credit-grant-refund-functions.sql:160-176 | A COMPENSATION is accepted if and only if it is on a credit of a reversal and all of them there stay within what the reversed transaction consumed of the grant |
| Decisions.ReversalDecided | drizzle/0007_2026-10-17-partial-credit-grant-refund-functions.sql:126-133 | A REVERSAL is accepted if and only if it takes a whole debit equal to all that was issued, nothing of which was used, expired or set aside, in the reversal of the source or in a transaction without relation |
| Decisions.AllocationDecided | drizzle/0004_grant_hold_allocations.sql:58-86 | An allocation is accepted if and only if it is on a held debit of a HELD hold, new for that pair, within what is free, and now lies before the expiry |
| Decisions.UpdateDecided | drizzle/0004_grant_hold_allocations.sql:426-443 | An update of a hold is accepted if and only if the hold was HELD, its original amount stays, and it goes to a smaller positive remainder, to APPLIED or to VOIDED with the one time set |
| Decisions.OnlyFitting | drizzle/0007_2026-10-17-partial-credit-grant-refund-functions.sql:82-118 | Nothing else is accepted: grant, posting and account exist and agree in account and asset, the amount is positive and at most the posting's, the pair is new |
| Decisions.TransactionDecided | drizzle/0000_initial-schema.sql:365 | A transaction is accepted if and only if its hold exists and it has no relation, or both halves of one that no other transaction has taken |
| Decisions.PlainDecided | drizzle/0004_grant_hold_allocations.sql:418-425 | An account is accepted if and only if it is not capable or a credit account that may not be overdrawn; a posting and a held entry if and only if not zero and of existing rows; a hold if and only if it is HELD with its full positive amount and no time set |
| Decisions.ExpiryTurns | drizzle/0007_2026-10-17-partial-credit-grant-refund-functions.sql:137-139 | At x - 1 a fitting consumption is accepted and the expiration refused, at x the consumption is refused and the expiration accepted, for every grant that expires at x |
| Decisions.OneOfEach | drizzle/0000_initial-schema.sql:365 | Of one transaction one REVERSAL and one CORRECTION get in, in either order, and neither of them twice |
| Decisions.GrantDecided | drizzle/0000_initial-schema.sql:763-788 | A grant is accepted if and only if its account is capable, another account funds it, its source has no grant, and, when it expires, the funding account has none |
| Decisions.ShapeOverRuns | drizzle/0000_initial-schema.sql:763-788 | Over every run: capable accounts are credit accounts that may not be overdrawn, sources are distinct, no expiring grant is funded from an account that had a grant |
| Versions.OneVersionPerEvent | drizzle/0004_grant_hold_allocations.sql:304-408 | Over every run a grant has exactly one version for each lineage row, each allocation, and each voided hold that had something of it left |
| Flows.VoidCommits | drizzle/0004_grant_hold_allocations.sql:490-506 | From every committed state, however much was captured before, a HELD grant hold can be voided in a transaction of its own, and that transaction commits |
| Flows.VoidOverRuns | docs/SCENARIOS.md:221-225 | The same at every commit point of every run: hold, partial capture, void gets through |
| Flows.CaptureCommits | drizzle/0004_grant_hold_allocations.sql:466-488 | From every committed state, postings that total k in the hold's proportions, attributed in full within its lots, commit with the hold HELD at remaining less k, or APPLIED when k is all of it |
| Flows.CaptureOverRuns | docs/SCENARIOS.md:207-219 | The same at every commit point of every run |
| Captures.AlwaysCapturable | drizzle/0004_grant_hold_allocations.sql:449-489 | From every fully attributed committed state and for every part k of what remains, postings in proportion have an attribution that the lots can bear, and the transaction that makes it commits |
| Histories.HistoryReached | drizzle/0004_grant_hold_allocations.sql:432-443 | For every original amount and every strictly falling sequence of positive remainders below it, some run's accepted updates leave exactly that sequence |
| Histories.HistoryEnds | drizzle/0004_grant_hold_allocations.sql:438-441 | Every such history can end APPLIED or VOIDED from its last remainder, and that commits |
| Histories.UpdatesReach | drizzle/0004_grant_hold_allocations.sql:435-437 | Some run makes exactly as many accepted updates as the original amount, so the bound of HistoryBounded is reached |
| Deferred.CommitDecided | drizzle/0004_grant_hold_allocations.sql:490-506 | Over every run a commit succeeds if and only if everything its transaction touched is settled: postings attributed and mirrored, compensation complete, lapsed grants emptied, held entries backed, holds in agreement; otherwise the snapshot is restored |
| EditChecks.EditedCommitDecided | drizzle/0004_grant_hold_allocations.sql:112-114 | Over every run with edits a commit succeeds if and only if each waiting firing is answered by the final state, an updated held entry by its own row alone |
| EditChecks.PostingEditDecided | drizzle/0000_initial-schema.sql:701-721 | An update or delete of a posting that is there passes if and only if no lineage names it and the new row is sound, and changes that row alone |
| EditChecks.HeldEditDecided | drizzle/0004_grant_hold_allocations.sql:133-143 | The same of a held entry and allocations; only an update waits for the commit |
| EditChecks.HeaderEditDecided | drizzle/0000_initial-schema.sql:707-714 | An update of a transaction passes if and only if no lineage names a posting of it and its new row could be inserted beside the others |
| Witnesses.LateLineageBreaksConservation | drizzle/0000_initial-schema.sql:686-688 | A reachable committed state where a second attribution of a committed entry was accepted and the account no longer balances its lots |
| Witnesses.DivertedCaptureStrandsReserve | drizzle/0007_2026-10-17-partial-credit-grant-refund-functions.sql:177-187 | A reachable committed state with an APPLIED hold whose allocated lot is undrained and stays reserved |
| Witnesses.CounterEntryUpdateUnchecked | drizzle/0004_grant_hold_allocations.sql:133-143 | A run with one update of a held entry that no allocation names commits a live grant hold that is inconsistent |
| ReversalWitnesses.LateEntryBreaksReversal | drizzle/0000_initial-schema.sql:755-757 | A reachable committed state, with all lineage in time, where an exactly compensated reversal stopped being exact because its original consumed one more unit |
| ReversalWitnesses.IssuingReversalRestoresNothing | drizzle/0002_2026-10-06-signed-entry-amounts.sql:158-176 | A reachable committed state where a mirrored reversal issued a new grant and gave the lot nothing back |
| ReversalWitnesses.UnlinkedReversalCommits | drizzle/0007_2026-10-17-partial-credit-grant-refund-functions.sql:126-133 | A reachable committed state with a REVERSAL row on a transaction that has no relation |
| Migration.ValidatorsAgree | drizzle/0002_2026-10-06-signed-entry-amounts.sql:32-140 | For any postings, the direction-based and the sign-based validator judge every row of positive amount alike in every state over them if and only if none of the postings is negative |
| Migration.AttributionAgrees | drizzle/0002_2026-10-06-signed-entry-amounts.sql:141-179 | For every state with positive amounts, an entry passes the attribution check before the rewrite exactly when it passes it after |
| Migration.ExtendedLater | drizzle/0007_2026-10-17-partial-credit-grant-refund-functions.sql:57-203 | Over the invariant and while there is no hold, the later validator accepts exactly what this one accepted, of every kind it knew |
| Migration.SignIsFaithful | drizzle/0002_2026-10-06-signed-entry-amounts.sql:3-4 | Sign and magnitude carry direction and amount if and only if the amount was positive |
| Migration.RewriteAmounts | drizzle/0002_2026-10-06-signed-entry-amounts.sql:3 | The update in place leaves every row its signed amount |
| Migration.NegativeAmountDisagrees | drizzle/0002_2026-10-06-signed-entry-amounts.sql:103-109 | One negative amount that separates them, on tables that meet the schema and the attribution check |
| GrantLog.AttributionDecided | drizzle/0007_2026-10-17-partial-credit-grant-refund-functions.sql:82-201 | The lineage validator and the appended version, read over the grant's own log, accept exactly the rows the engine accepts on all the tables |
| GrantLog.ReservationDecided | drizzle/0004_grant_hold_allocations.sql:58-86 | The same of an allocation |
| GrantLog.ReleaseDecided | drizzle/0004_grant_hold_allocations.sql:389-403 | The same of a void, for each grant that backs the hold |
| GrantLog.AttributionLogged | drizzle/0007_2026-10-17-partial-credit-grant-refund-functions.sql:10-53 | After an accepted row the grown log is the grant's log in the new tables: sums, keys, voids and chain |
| GrantLog.ReservationLogged | drizzle/0004_grant_hold_allocations.sql:336-360 | The same after an accepted allocation |
| GrantLog.ReleaseLogged | drizzle/0004_grant_hold_allocations.sql:368-406 | The same after an accepted void, for every grant |
| SerialLog.StatementTells | drizzle/0004_grant_hold_allocations.sql:334-360 | One statement grows each grant's log by the attempts it makes on that grant, each accepted as the engine accepted it |
| SerialLog.RunIsSerial | drizzle/0007_2026-10-17-partial-credit-grant-refund-functions.sql:82-87 | In every run of the engine the log of every grant, committed and working, is the serial log of the scripts its statements make, every attempt decided as that log decides it |
| SerialLog.RunHasLogs | drizzle/0004_grant_hold_allocations.sql:334-354 | So every grant of every reachable state has a log whose rows each derive from the rows before them, with versions 1, 2, 3 and on |
| SerialLog.InterleavingIsRun | drizzle/0004_grant_hold_allocations.sql:58-62 | Any interleaving of sessions that commits the transactions of an engine run leaves on every grant the rows of that run: its chain, sums, keys and voids |
| SerialLog.RunIsInterleaved | drizzle/0004_grant_hold_allocations.sql:58-62 | Every engine run is committed by some interleaving that runs each transaction in a session of its own, so every commit frees what it locked |
| RowLock.Serialises | drizzle/0007_2026-10-17-partial-credit-grant-refund-functions.sql:82-87 | For every interleaving of sessions that lock the grant row, validate in a later statement and append in a still later one, the rows committed on each grant are those of the committed transactions run one after another in commit order; versions are numbered 1, 2, 3 and on, and each row derives from the rows before it |
| RowLock.DecisionsSerialise | drizzle/0007_2026-10-17-partial-credit-grant-refund-functions.sql:107-201 | Every attempt of every committed transaction was accepted or refused exactly as the validator and the appender decide it in that serial run, sums through holds, allocations, consumption and compensation included |
| RowLock.NumberNeverTaken | drizzle/0004_grant_hold_allocations.sql:343-352 | Between validating and writing nothing moves: the verdict still holds of what the write reads, no other session has uncommitted rows of the grant, and the next number is free |
| RowLock.LockDecided | drizzle/0004_grant_hold_allocations.sql:58-62 | In every reachable state a session gets a grant's lock if and only if no other session has touched that grant since its last commit or abort |
| RowLock.AbortLeaves | drizzle/0004_grant_hold_allocations.sql:58-62 | An abort forgets the session's rows and frees its locks, and touches nothing else |
| RowLock.RunKeeps | drizzle/0004_grant_hold_allocations.sql:58-62 | Each session's rows are its own script run alone on the committed rows, its decisions are those of that run, and it holds the lock of every grant it touched |
| Csv.Lex | apps/web/src/csv.ts:6-26 | The index loop computes the lexer's step function iterated over the text; the result is the rows of the document that spells it, in order and with repetitions, without those whose fields are all empty once trimmed |
| Csv.KeptRows | apps/web/src/csv.ts:18-26 | A row of the document is kept if and only if some field of it is not empty after stripping, at both ends, the 25 code points that `String.prototype.trim` removes |
| Csv.AcceptsExactlyTheGrammar | apps/web/src/csv.ts:8-25 | The lexer accepts a text if and only if it is spelled by a document of quoted or quote-free cells with CRLF, LF or CR breaks |
| Csv.UniqueParse | apps/web/src/csv.ts:8-26 | That document is unique, and the result is its meaning without the blank rows |
| Csv.BreaksInterchangeable | apps/web/src/csv.ts:16-19 | Texts with the same cells and other unquoted line breaks give the same rows |
| Csv.RoundTrip | apps/web/src/csv.ts:6-26 | Any table of strings, quoted with doubled quotes and joined by CRLF, LF or CR, reads back as its rows with something left after trimming |
| Money.MoneyRoundTrip | apps/web/src/api.ts:84-94 | For every scale, what money prints reads back as the same minor units if and only if they are positive, and is refused otherwise |
| Money.ReadsExactly | apps/web/src/api.ts:88-94 | Every accepted decimal of any size maps to exactly its value times ten to the scale |
| Money.AcceptsExactly | apps/web/src/api.ts:89-92 | Accepted are exactly the strings of digits, with at most one point and after it one to scale digits, where some digit is not zero |
| Money.PrintsExactly | apps/web/src/api.ts:84-87 | Printed is the sign of the amount, its whole part without leading zeros, and, for a scale above zero, a point and exactly scale digits, negative amounts included |
| Money.PointAccepted | apps/web/src/api.ts:89 | Digits, a point and more digits are accepted if and only if there is a whole part, the fraction has one to scale digits, and some digit is not zero |
| Shell.CopiedMeansSent | apps/web/src/api.ts:74-83 | For every origin, path, body and token, the POSIX shell tokenises the command into exactly the argument vector of the request, written out in literals |
| Shell.OptionsSent | apps/web/src/api.ts:76-81 | In that vector the method word is POST for POST and GET for GET, the bearer header occurs exactly when the path begins with `/v1/`, and the content type and the data exactly when there is a body |
| Shell.SingleQuoteReads | apps/web/src/api.ts:74 | Wherever a quoted value stands, the shell adds that value to the current word and nothing else |
| Shell.RequestToCurl | apps/web/src/api.ts:75-83 | The pushed and joined lines are the command, and it means the request in every environment |
| Limiter.FixedWindowLimiter.Consume | apps/api/src/api/rate-limit/fixed-window-limiter.ts:16-47 | The decision and the whole new bucket table, with a window of windowSeconds times 1000 milliseconds |
| Limiter.AtMostTwice | apps/api/src/api/rate-limit/fixed-window-limiter.ts:21-41 | With a clock that never goes back, a closed interval of windowSeconds times 1000 milliseconds holds at most twice the allowance of a key, however calls on other keys interleave, and one without its end point at most one less |
| Limiter.TwiceIsReached | apps/api/src/api/rate-limit/fixed-window-limiter.ts:24-26 | For every policy some run reaches twice the allowance, so the bound is exact |
| Limiter.BucketCovers | apps/api/src/api/rate-limit/fixed-window-limiter.ts:24-41 | What a key's bucket says, over every run, about the calls allowed since any moment |
| Limiter.WaitingIsEnough | apps/api/src/api/rate-limit/fixed-window-limiter.ts:28-38 | A refused caller that waits the advised seconds is let through, whatever other keys do, if and only if the policy allows any call |
| Limiter.WaitingLessIsNot | apps/api/src/api/rate-limit/fixed-window-limiter.ts:29-32 | One second less than advised, when more than one is advised, is refused again |
| Pages.PageExact | apps/api/src/demo/sandbox.ts:117-123 | A page is, in id order, exactly the rows after its cursor up to the cursor it hands out |
| Pages.PagesComplete | apps/api/src/demo/sandbox.ts:113-123 | After any number of requests, whatever is inserted between them, the collected ids strictly increase and hold every id present from the start up to the cursor |
| Pages.GoesOn | apps/web/src/api.ts:66-71 | After k requests there is a next cursor if and only if by each of them more rows had arrived, those at the start and those inserted ahead of the cursor since, than the requests could return; what is left is the difference |
| Pages.AllPages | apps/web/src/api.ts:62-73 | The cursor loop ends under exactly that condition, by the first request that catches up, and returns every id present throughout exactly once, in order |
| Pages.QuietEnds | apps/web/src/api.ts:66-71 | Some request catches up whenever the inserts end, however late that is |
| Pages.AppendedGoesOn | apps/web/src/api.ts:66-71 | When new rows come last, the loop goes on exactly as long as every request found more rows than all requests so far could return |
| Pages.NeedNotEnd | apps/web/src/api.ts:66-71 | One insert per request keeps the loop going for ever |

## Left out

- `@luxledger/core`, `http`, `fastify-routes` and `postgres-adapter` are not part of this model: lot ordering, rounding of captures, overdraft checks and balance snapshots appear only as arbitrary callers.
- Row-level security, tenant and ledger columns: one tenant and one ledger; ids are positions in insertion order.
- Integers are unbounded, so the bigint overflow of a cumulative counter does not appear.
- A statement that raises leaves the tables as they were and the transaction open, as under a savepoint; this allows every run that PostgreSQL allows, and more.
- The order in which a void locks accounts and grants, and freedom from deadlock.
- Balance columns and snapshots, which migration 0002 also rewrites (`drizzle/0002_2026-10-06-signed-entry-amounts.sql:9-24`): their reader is outside the repository.
- The versions of the reservation, expiry and hold functions before migrations 0004 and 0007, apart from the two sides that `Migration` compares.
- Timestamps are integers, and a transaction's clock value is arbitrary; no order between the clocks of successive transactions is assumed.
- HoldLaws.OutstandingProportional: assumes complete attribution of the committed state, which `AttributedRunCommits` gives for callers that write lineage in time.
- Commits.RunCommits: about runs without edits of unguarded rows; with them the agreement of holds has the exact condition of `Edits.HoldKeptAtCommit`, and the rest still holds.
- HoldLaws.CommittedAmounts: the same.
- Captures.AlwaysCapturable: the transaction posts to each grant-enabled account once; parts that a proportion does not divide are the caller's to round.
- Edits.AgreesOverRuns: a commit that leaves a VOIDED hold unchecked must leave it one account whose held and captured debits did not move, which `LotsPinned` gives for edits off grant-enabled accounts; otherwise all captures of the hold could be scaled together.
- Edits: DELETE of a transaction row, which needs one without postings and so moves no sum; a deleted row keeps its place with amount 0, and edits of one row at a time stand for statements over many.
- RowLock.Serialises: two reads of a validator are not of rows written under the grant's lock, and enter as the session read them: the funding credit of the row's transaction, and whether the hold was APPLIED, or VOIDED while it had no lot of this grant. A void is one release per grant, each under that grant's lock.
- Csv.Lex: the byte-order mark, the size limit, and the header and record checks after the loop, which would add only easy members; dates are left to the host. Characters are Unicode scalars where JavaScript has UTF-16 units; the lexer tests none outside the basic plane.
- Shell.CopiedMeansSent: the tokeniser stops at unquoted characters that mean more than themselves, at command substitution and at the end of a command, none of which the printed text contains; NUL has no special treatment, and curl's own URL globbing is not modelled.
- Money: the currency suffix and the parsing of the minor-unit string by `BigInt`.
- Pages: the cursor loop is read with the holds page of the demo API; a page holds ids only, and holds are never deleted.
- JWT, cookies, hashing, origin checks, metrics, logging, seeds, containers and the user interface.
