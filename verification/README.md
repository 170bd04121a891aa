# Verified model of the inventory service and its release tooling

This Dafny project models the parts of the inventory repository whose correctness
depends on interleavings, failures and lost answers, and proves what they promise
for all inputs, all runs and all fault schedules.

`dafny verify dfyconfig.toml` checks everything.

## What is modelled

**The reservation service.** `Ledger` is the service as a sequential specification:
the rows, the operations `createProduct`, `addStock`, `reserve` and
`cancelReservation`, their replies and the counter events they register.
`Domain` and `Service` are the entity and service classes; each method changes its
objects in place and is proved to do exactly what `Ledger` says. `Protocol` is the
running system: any number of replicas over one database, every transaction a
sequence of statements that take the advisory key lock, row locks and the unique
SKU entry, prepare their writes, and commit or fail. Statements interleave
arbitrarily, any transaction may be aborted before its commit, a replica may stop,
and the lock hash is an arbitrary function. `Linearizability` is the invariant,
`Runs` what clients can rely on in every run, `Progress` deadlock freedom and
termination, `Counters` the business counters against the ledger, `Contention` the
exact outcome when requests compete for one product. `History` holds the laws of
sequential histories, `Validation` the string rules and lock names, `Metrics` the
counters, `Sums` totals over maps. `Answers` states what every request is answered by
the request and the rows alone, and `Patterns` that each string rule accepts exactly
what the source's regular expression matches; both are independent of the small
functions that the specification is composed of.

**The release gate and the two release scripts.** `Json` has jq's evaluation rules,
`Names` the patterns for digests and ARNs, `Baseline` the verifier's snapshot checks
and the jq recheck, `Cloud` an AWS account driven by a schedule that decides for
every call what happened meanwhile (a deployment completes, the circuit breaker
reverts, somebody else changes the service), whether it took effect and whether it
reported success. `Gate`, `Deploy` and `Migrate` are the scripts, statement by
statement, over that account.

**Ownership-tracked resources.** `Docker` is an engine shared with others, with the
same kind of schedule; `Drill` is the drill fixture; `Extraction` reads an image's
release contract through a temporary container.

**Load-test algorithms.** `Percentile` and `Dispenser`, over `Sorting`.

## Model axioms

- A locked read returns the latest committed row; buffered writes become visible at
  commit; a lock is held until commit or rollback; a statement that finds no row
  locks nothing. One operation per transaction.
- The identifier and the clock readings of a transaction are inputs; identifiers are
  unused elsewhere.
- A reply that is lost after a commit is a commit; the client simply retries.
- AWS and Docker reads that answer tell the truth about the resource they name: a
  service's revision, count and completed revision, a started task's name, an ended
  task's exit codes, a container's labels, state, exit code and files. A command that
  reports success took effect; one that reports failure may have, at the latest by the
  time it reports, and a container or network may be created even later.
- PostgreSQL refuses a text that holds U+0000, and the service sees that as the
  integrity violation that a failed table check raises.
- ECR returns one repository address per repository name. Registered task definitions
  have new names. Nobody else uses a drill's or an extraction's random label.

## Findings

- Two kinds of product names pass the service's own check, are refused by the table at
  the insert, and are reported as the SKU conflict on a free SKU: names of control
  characters only, which trim to nothing, and names that hold U+0000 anywhere.
  `Ledger.SkuConflictIff` is the exact condition, `Ledger.ControlNameConflicts` and
  `Ledger.NulNameConflicts` are inputs. The HTTP model's `@NotBlank` on the name
  (`api/ApiModels.java`, line 16) stands before the service; where that check trims as
  well, the first kind reaches the service only by a direct call. It does not stop the
  second kind.
- A customer's cancel can be refused: `History.CancelRefusedIff` gives the exact
  condition. Either the stock was refilled to the cap in the meantime
  (`History.CancelCanBeRefused` is such a history), or the clock reading of the
  cancelling replica precedes the reservation's creation time, which the table's check
  refuses at the commit and `api/ApiExceptionHandler.java`, lines 52-55, answers with
  409 (`History.EarlyCancelIsRefused`).
- The jq recheck also accepts counts written as `1.0`, which the verifier refuses;
  apart from that spelling the gates agree exactly (`Baseline.GatesAgree`,
  `Baseline.SpellingDecides`).
- A rollback that took effect can still be undone: `Deploy.RollbackRestores` gives the
  exact condition, an abandoned revision that had completed first, and a circuit
  breaker that then reverts the rollback. Likewise `Deploy.SuccessLasts` says when a
  successful deployment does not last. `Deploy.RollbackCanBeUndone` and
  `Deploy.SuccessCanBeReverted` exhibit both.
- A migration task can be left running exactly when it was started and the answer was
  lost or unusable, or when the wait failed and so did the stop request, whose failure
  the script ignores (`Migrate.LeftExactlyWhen`; `Migrate.TaskCanBeLeft` and
  `Migrate.StopCanFail` exhibit both).
- The drill's cleanup can report no error and still miss a container or network that
  Docker creates after its client gave up: by `Drill.Fixture.Cleanup` an empty list
  means that nothing remains exactly when no creation was outstanding as its name was
  listed, and `Drill.CleanupCanMiss` exhibits a missed one.

## Model

| member | source | states |
|---|---|---|
| Runs.Linearizable | src/main/java/com/ryanshankar/inventory/service/InventoryService.java:35-121 | in every reachable state of every interleaving the committed database is the result of running the decided operations one after the other, each operation once, and every finished transaction's reply is the one the sequential service gives at its place |
| Runs.RealTimeOrder | src/main/java/com/ryanshankar/inventory/service/InventoryService.java:35-121 | that order respects real time: an operation finished before another began comes first, and its place never changes |
| Linearizability.CommitKeepsOther | src/main/java/com/ryanshankar/inventory/service/InventoryService.java:73-113 | the locks suffice: one transaction's commit never invalidates what another transaction has read and prepared |
| Linearizability.ActionKeepsInv | src/main/java/com/ryanshankar/inventory/service/InventoryService.java:35-121 | every step, abort, callback and replica stop keeps the invariant that the log explains the database, locks are exclusive and prepared writes are current |
| Runs.StockAlwaysConserved | src/main/java/com/ryanshankar/inventory/domain/Product.java:71-86 | in every reachable state, available units plus units of ACTIVE reservations equal those at the start plus committed initial stock and restocks; stock stays between 0 and 1,000,000; active reservations never exceed what was introduced |
| Runs.ConstraintsAlwaysHold | src/main/resources/db/migration/V1__create_inventory_tables.sql:1-30 | SKUs and customer/key pairs stay unique and every row stays within the column checks, the name's length and the order of creation and cancellation times included, in every reachable state, although no step relies on the unique key index and the lock hash may collide |
| Runs.RowsOnlyEvolve | src/main/java/com/ryanshankar/inventory/domain/Reservation.java:83-91 | rows persist; a reservation only goes from ACTIVE to CANCELLED, its cancellation time is set once, and everything else about it is fixed |
| Runs.RetriesShareOneReservation | src/main/java/com/ryanshankar/inventory/service/InventoryService.java:73-90 | for a key unused at the start, all successful replies over a whole run name the same reservation, product and quantity, and exactly one of them is not a replay |
| Runs.StoredKeyOnlyReplayed | src/main/java/com/ryanshankar/inventory/service/InventoryService.java:73-84 | for a key used before the run, every success is a replay of the stored reservation with its product and quantity |
| Runs.RetryIsAnswered | docs/idempotency.md:19-24 | every request with a key that begins after a success with it and finishes is answered from that reservation: the reservation itself for the same product and quantity, the conflict for any other |
| Runs.StoredKeyIsAnswered | docs/idempotency.md:19-24 | so is every finished request with a key stored before the run |
| Runs.CancelsShareOneRelease | src/main/java/com/ryanshankar/inventory/service/InventoryService.java:105-121 | over a whole run any two successful cancels of a reservation answer the same, and at most one returned its units to stock |
| Runs.ReservationsStayPrivate | src/main/java/com/ryanshankar/inventory/repository/ReservationRepository.java:28-30 | in every run, a reply shows a reservation only to the request of its own customer |
| Runs.OnlyOwnerCancels | src/main/java/com/ryanshankar/inventory/service/InventoryService.java:105-116 | in every run, a reservation that went from ACTIVE to CANCELLED was cancelled by a finished request of its own customer |
| Runs.FreshKeyOutcome | docs/idempotency.md:19-26 | in every run, a finished request whose key nobody else succeeded with was granted exactly when the stock sufficed at the place where it was decided, and was no replay, whatever else was under way |
| Runs.SkuVariantsNeverBothCommit | src/main/java/com/ryanshankar/inventory/service/InventoryService.java:36-48 | no interleaving creates two products whose SKUs differ only in ASCII case and in the blanks around either of them |
| Progress.WaitClimbs | src/main/java/com/ryanshankar/inventory/service/InventoryService.java:73-113 | along every waits-for edge the wanted lock's rank climbs, even when key hashes collide |
| Progress.NoDeadlock | src/main/java/com/ryanshankar/inventory/service/InventoryService.java:73-113 | the waits-for graph of every reachable state has no cycle of any length |
| Progress.SomeoneCanStep | src/main/java/com/ryanshankar/inventory/repository/ReservationKeyLock.java:19-29 | while a transaction is unfinished, some transaction can take its next step |
| Progress.WorkIsBounded | src/main/java/com/ryanshankar/inventory/service/InventoryService.java:35-121 | without new requests a run can take only as many steps as its transactions have ahead of them |
| Progress.CanAlwaysFinish | src/main/java/com/ryanshankar/inventory/service/InventoryService.java:35-121 | from every reachable state all outstanding transactions can be finished without a timeout, within that bound |
| Progress.RetryIsDecidedByStock | docs/idempotency.md:26 | failures consume no key under live traffic: when every earlier request with the key failed or was aborted, the same request begun anew can be finished and is granted exactly when stock suffices at the place where it is decided |
| Progress.RetryIsGranted | docs/idempotency.md:26 | in particular it is granted when nothing else is under way and the stock suffices now |
| Counters.CountersAgreeWithLedger | src/main/java/com/ryanshankar/inventory/service/InventoryMetrics.java:32-83 | summed over replicas, counted plus due plus lost equals what the committed operations amount to, so no counter exceeds its ledger value |
| Counters.LedgerAgreesWithRows | src/main/java/com/ryanshankar/inventory/service/InventoryMetrics.java:32-59 | the ledger values account for total available stock, the number of ACTIVE reservations, and all products and reservations |
| Counters.QuietCountersAreExact | src/main/java/com/ryanshankar/inventory/service/InventoryMetrics.java:70-83 | without stopped replicas and with all callbacks run, added minus reserved plus released is the change in total stock, and created minus cancelled the change in ACTIVE reservations |
| Counters.FailuresAreNeverCounted | src/main/java/com/ryanshankar/inventory/service/InventoryMetrics.java:75-82 | everything counted belongs to a finished, successful transaction of the sequential history |
| Counters.FailureLeavesNoTrace | src/main/java/com/ryanshankar/inventory/service/InventoryService.java:69-116 | in every run, a transaction that ended by a validation failure, a rejection, an abort or a stopped replica holds no lock, is not among the committed operations, which are all that counters ever show, and its place in the history changes no row |
| Contention.NeverMoreThanStock | src/main/java/com/ryanshankar/inventory/service/InventoryService.java:86-89 | with any timeouts, requests of q units never succeed more often than stock div q |
| Contention.ContentionOutcome | scripts/replica-drill.py:159-166 | when all n competing requests have finished, exactly min(n, stock div q) succeeded and the rest of the stock remains |
| History.StockConserved | src/main/java/com/ryanshankar/inventory/domain/Reservation.java:60-90 | conservation and bounds over every sequential history |
| History.KeyedExactlyOnce | docs/idempotency.md:19-32 | in a history a keyed success is a replay exactly when the key had succeeded before, and all successes name one reservation, product and quantity |
| History.FailureKeepsKeyUsable | docs/idempotency.md:26 | as long as no request with the key succeeded, the same request still creates a reservation when stock suffices |
| History.RetryAnswered | src/main/java/com/ryanshankar/inventory/service/InventoryService.java:73-84 | in a history, a request that follows a success with its key is answered with that reservation as a replay exactly when product and quantity match, and with the conflict otherwise |
| History.CancelledExactlyOnce | docs/architecture.md:20 | of the cancels of one reservation only the first has an effect, and every later one answers with the same row |
| History.CancelRefusedIff | src/main/java/com/ryanshankar/inventory/domain/Product.java:71-78 | an owned reservation's cancel is refused exactly when it is ACTIVE and its units no longer fit under the cap or the clock reading precedes its creation time |
| History.CancelCanBeRefused | src/main/java/com/ryanshankar/inventory/domain/Product.java:73-76 | such a history exists: all stock is created, one unit reserved, the shelf refilled, and the cancel refused |
| History.EarlyCancelIsRefused | src/main/resources/db/migration/V1__create_inventory_tables.sql:26-29 | such a history exists for the other reason: the units fit, the cancelling clock reads an earlier time than the creating one did, and the cancel is refused |
| History.SkusCreatedOnce | src/main/java/com/ryanshankar/inventory/service/InventoryService.java:36-48 | two committed creations never share a normalized SKU |
| Ledger.ApplyKeepsWellFormed | src/main/resources/db/migration/V1__create_inventory_tables.sql:1-30 | every operation keeps the column checks, the name's length and the order of creation and cancellation times included, the SKU and key uniqueness and the foreign key |
| Ledger.NoWriteNoTrace | src/main/java/com/ryanshankar/inventory/service/InventoryService.java:69-89 | an operation that registers no business effect changes no row |
| Ledger.SkuConflictIff | src/main/java/com/ryanshankar/inventory/service/InventoryService.java:36-48 | a creation is answered with the SKU conflict exactly when the request is valid and the SKU is taken, or the trimmed name is empty or holds U+0000 |
| Ledger.ControlNameConflicts | src/main/java/com/ryanshankar/inventory/domain/Product.java:41-48 | a name of one control character is accepted as valid and answered with the SKU conflict although the SKU is free |
| Ledger.NulNameConflicts | src/main/java/com/ryanshankar/inventory/service/InventoryService.java:41-47 | a visible name with U+0000 between other characters is accepted as valid and answered with the SKU conflict although the SKU is free |
| Answers.ValidMeans | src/main/java/com/ryanshankar/inventory/domain/Product.java:39-69 | a request is valid exactly when its quantity, customer, key, SKU and name are within the documented limits, stated by the expressions and the whitespace table |
| Answers.CreateAnswered | src/main/java/com/ryanshankar/inventory/service/InventoryService.java:35-49 | a valid creation stores the trimmed name, the capitalized SKU, the quantity and the time under its identifier, unless the SKU is taken or the name is no stored text |
| Answers.AddStockAnswered | src/main/java/com/ryanshankar/inventory/service/InventoryService.java:59-66 | a valid restock raises the row, is refused as missing without a product, and as a conflict exactly when the cap would be passed |
| Answers.ReserveAnswered | src/main/java/com/ryanshankar/inventory/service/InventoryService.java:68-90 | without a stored key a valid reservation takes the units and stores the row, is refused as missing without a product, and as a conflict exactly when units are short |
| Answers.StoredKeyAnswered | src/main/java/com/ryanshankar/inventory/service/InventoryService.java:76-84 | with a stored key a valid request is answered with the stored row as a replay exactly when product and quantity match, ACTIVE or CANCELLED alike, and with the conflict otherwise; nothing changes |
| Answers.ForeignCancelAnswered | src/main/java/com/ryanshankar/inventory/repository/ReservationRepository.java:28-30 | a cancel is answered as not found, with nothing changed, exactly when the reservation is missing or its row has another customer |
| Answers.CancelAnswered | src/main/java/com/ryanshankar/inventory/service/InventoryService.java:105-121 | the customer's own cancel returns the units and marks the row, replays a cancelled one, and is refused for the cap or the clock |
| Answers.UnstorableAnswered | src/main/java/com/ryanshankar/inventory/service/InventoryService.java:73-75 | a customer whose identifier no table can hold is refused by every reservation and cancel, and nothing changes |
| Answers.InvalidAnswered | src/main/java/com/ryanshankar/inventory/domain/Product.java:65-69 | the answer is that of an invalid request exactly when the request is invalid, and then nothing changes |
| Service.InventoryService.CreateProduct | src/main/java/com/ryanshankar/inventory/service/InventoryService.java:35-49 | rows, reply and counter event are those of the sequential specification |
| Service.InventoryService.AddStock | src/main/java/com/ryanshankar/inventory/service/InventoryService.java:59-66 | rows, reply and counter event are those of the sequential specification |
| Service.InventoryService.Reserve | src/main/java/com/ryanshankar/inventory/service/InventoryService.java:68-90 | rows, reply and counter event are those of the sequential specification, for new requests, replays, changed payloads and failures |
| Service.InventoryService.CancelReservation | src/main/java/com/ryanshankar/inventory/service/InventoryService.java:105-121 | rows, reply and counter event are those of the sequential specification, for first and repeated cancels and failures |
| Domain.Product.Create | src/main/java/com/ryanshankar/inventory/domain/Product.java:39-51 | succeeds exactly on valid input and then stores the normalized row |
| Domain.Product.AddStock | src/main/java/com/ryanshankar/inventory/domain/Product.java:71-78 | adds within the cap without 32-bit overflow, or fails and changes nothing |
| Domain.Product.ReserveStock | src/main/java/com/ryanshankar/inventory/domain/Product.java:80-86 | takes what is there, or fails and changes nothing |
| Domain.Reservation.Create | src/main/java/com/ryanshankar/inventory/domain/Reservation.java:54-68 | validates, then takes the stock; a failure leaves the product untouched |
| Domain.Reservation.Cancel | src/main/java/com/ryanshankar/inventory/domain/Reservation.java:83-91 | returns the units once, sets the time once, and does nothing the second time or when the cap forbids it |
| Metrics.InventoryMetrics.AfterCompletion | src/main/java/com/ryanshankar/inventory/service/InventoryMetrics.java:32-83 | the counters move by the event's amounts exactly when the transaction committed |
| Metrics.TotalsAgree | src/main/java/com/ryanshankar/inventory/service/InventoryMetrics.java:32-63 | the counters a history adds up to account for every row and unit it left behind |
| Metrics.CountersTold | src/main/java/com/ryanshankar/inventory/service/InventoryMetrics.java:32-63 | each of the eight counters adds up what clients were told, by request, answer and the rows found: replays and first answers are told apart |
| Validation.NormalizeIdempotent | src/main/java/com/ryanshankar/inventory/domain/Product.java:53-63 | a normalized SKU is a fixed point of normalization |
| Validation.ShapeIsFixed | src/main/resources/db/migration/V1__create_inventory_tables.sql:8 | the fixed points are exactly the strings the table's format check admits |
| Validation.NormalizeIgnoresCaseAndPadding | src/main/java/com/ryanshankar/inventory/domain/Product.java:57 | spellings that differ in ASCII case and surrounding blanks normalize alike |
| Patterns.NormalizeMeans | src/main/java/com/ryanshankar/inventory/domain/Product.java:53-63 | normalization yields a SKU exactly when the trimmed text reads like it in capitals and it matches the SKU pattern, and fails otherwise |
| Patterns.TrimMeans | src/main/java/com/ryanshankar/inventory/domain/Product.java:46 | trimming removes exactly the leading and trailing characters up to the blank |
| Patterns.SkuMatches | src/main/java/com/ryanshankar/inventory/domain/Product.java:19 | the SKU rule accepts exactly what the pattern matches |
| Patterns.KeyMatches | src/main/java/com/ryanshankar/inventory/domain/Reservation.java:76-80 | the key rule accepts exactly what the pattern matches |
| Patterns.RegistryImageMatches | scripts/release_contract.py:19-20 | the image rule accepts exactly what the expression matches: account, region, repository path with its repeated groups, and digest |
| Patterns.TaskArnMatches | scripts/deploy-ecs.sh:36 | the rule for task definition names accepts exactly what the expression matches |
| LockNames.LockNameInjective | src/main/java/com/ryanshankar/inventory/repository/ReservationKeyLock.java:33-37 | the lock name determines customer and key, whatever colons and digits they contain |
| Baseline.GatesAgree | scripts/service-baseline.jq:2-19 | for every verified report, the recheck accepts a snapshot with integer-spelled counts exactly when the verifier would report the same from it |
| Baseline.RecheckMeans | scripts/service-baseline.jq:2-19 | the filter, with jq's null and error cases, accepts exactly the snapshots that describe the report's settled deployment |
| Baseline.VerifierMeans | scripts/verify-deployment-image.py:29-57 | the verifier's checks accept exactly those snapshots with integer-spelled counts |
| Baseline.SpellingDecides | scripts/service-baseline.jq:7-19 | every settled report is read back from its own snapshot, and respelling a count as 1.0 passes the recheck but not the verifier |
| Baseline.LiveMeansCounted | scripts/verify-deployment-image.py:59-60 | after the snapshot checks, a live baseline means exactly a positive desired count |
| Baseline.ReportPassesShell | scripts/deploy-ecs.sh:20-23 | the deployment script's own two checks of a report, the task name's prefix and the digits of the count, never fail on what the verifier reports |
| Cloud.NextDefinitionReplaces | scripts/deploy-ecs.sh:29-34 | the rewrite succeeds exactly when one container has the name, and then changes that image and drops registration metadata, nothing else |
| Cloud.FirstDriftDecides | docs/operations.md:76 | between calls, completion and circuit breaker only ever decide between two revisions, and the first of them decides |
| Cloud.TruthfulSettled | scripts/verify-deployment-image.py:45-57 | a snapshot that describes a settled report pins the service's revision, count and last completed revision |
| Gate.Verify | scripts/verify-deployment-image.py:16-92 | a report is returned only with proper settings, a candidate in the given region, a settled snapshot, the login and the candidate's contract, and, unless nothing runs, after the one application container of the described revision was found to run a digest of this repository and that very image passed too; it is refused only for improper settings or for the last answer received; nothing is changed |
| Gate.OwnImageMeans | scripts/verify-deployment-image.py:63-68 | the test of the live definition accepts exactly one application container that runs the repository's address, an `@` and a digest |
| Gate.AddressMeans | scripts/verify-deployment-image.py:25-28 | the candidate is addressed exactly when it matches the image expression and names the region |
| Gate.RefusesMeans | scripts/verify-deployment-image.py:16-68 | the verifier's refusals in plain words, both ways: improper settings, a failed command, no settled state, no live image of the repository, a failed contract; nothing else |
| Gate.Recheck | scripts/deploy-ecs.sh:24-27 | when the fresh snapshot is accepted, the service really is in the reported completed state at that moment; otherwise that snapshot does not confirm the report |
| Deploy.Clear | scripts/deploy-ecs.sh:17-27 | up to the accepted recheck nothing is registered, updated, run or stopped, and it is withheld only for a stated reason |
| Deploy.Deploy | scripts/deploy-ecs.sh:4-69 | for every schedule: nothing is changed without verification and an accepted later snapshot; the new revision is a fresh name for the running revision's definition with only the image replaced; the count asked for is a number from 1 to 4 that the setting spells in decimal, or 1 when it is empty; success is one accepted update to it with that count, stability, that revision observed and readiness UP, without rollback; failure after the first update attempt issues exactly one more update, to the verified revision and count, and only after an update, wait, observation or probe that was not as intended |
| Deploy.DeployableMeans | scripts/deploy-ecs.sh:3-12 | the script refuses for its settings exactly when one is missing, the digest or the secure URL is wrong, or the setting spells no count from 1 to 4 |
| Cloud.UpMeans | scripts/deploy-ecs.sh:63-66 | the readiness check accepts exactly status 200 with an object whose status is UP |
| Deploy.RollbackRestores | scripts/deploy-ecs.sh:41-60 | when the rollback took effect, the count is restored, and the revision too unless the abandoned revision had completed before it and the breaker then reverts the rollback |
| Deploy.RollbackCanBeUndone | scripts/deploy-ecs.sh:41-60 | such a run exists: the rollback takes effect, nobody meddles, and the service ends at the abandoned revision |
| Deploy.SuccessLasts | scripts/deploy-ecs.sh:55-69 | after success the desired count holds, and the new revision too unless the breaker reverts it after the check and before it completes |
| Deploy.SuccessCanBeReverted | scripts/deploy-ecs.sh:59-69 | such a run exists: it succeeds without anybody meddling and ends at the old revision |
| Migrate.Migrate | scripts/migrate-ecs.sh:7-52 | for every schedule: nothing is changed without verification and an accepted later snapshot; the definition run is the registered rewrite of the described migration definition; every ending has its stated reason; the account has at most one new task, which runs that definition, still runs at the end exactly when the run left it and it has not ended on its own, and after a zero exit status has exited with zero |
| Migrate.OneTaskAtMost | scripts/migrate-ecs.sh:29-33 | a run never updates the service and starts at most one task, whose definition is the described one with only the image replaced |
| Migrate.ZeroExactlyWhenSeenThrough | scripts/migrate-ecs.sh:36-52 | the exit status is zero exactly when the very task that the run started was waited for to its stop, really exited with zero, and was described so |
| Migrate.UsableRunDecides | scripts/migrate-ecs.sh:31-52 | a run whose start is answered usably waits for that very task, and after a seen stop and a telling description its exit status is zero exactly when the migration container's is |
| Migrate.LeftExactlyWhen | scripts/migrate-ecs.sh:31-43 | a started task is left, neither stopped nor seen to end, exactly when its start was not answered usably, or the wait failed and the stop request did too |
| Migrate.TaskCanBeLeft | scripts/migrate-ecs.sh:31-36 | such a run exists: the task starts and the answer is lost |
| Migrate.StopCanFail | scripts/migrate-ecs.sh:40-43 | such a run exists as well: the answer names the task, the wait fails, the stop fails, and the task is left |
| Migrate.ConfirmedMeans | scripts/migrate-ecs.sh:45-51 | the final filter, with its null and error cases, accepts exactly one stopped task whose one migration container exited with zero |
| Migrate.ScheduledMeans | scripts/migrate-ecs.sh:34-37 | an answer to the start is usable exactly when it lists no failures and one task whose name starts with `arn:aws:ecs:`, and it yields that name |
| Migrate.SubnetsMean | scripts/migrate-ecs.sh:27-28 | the network filters accept exactly snapshots whose service has network settings with something as subnets |
| Drill.OnePassword | scripts/recovery-drill.py:161-188 | a log backs at most one password per database: that of the latest launched migration, if it was waited for with a zero code and inspected as exited with zero |
| Drill.Fixture.RunContainer | scripts/recovery-drill.py:126-134 | the name is tracked before the engine is asked, so every container of the run stays tracked even after a lost answer; the launch is of the given image |
| Drill.Fixture.CreateNetwork | scripts/recovery-drill.py:110-113 | likewise for the network, which exists on success |
| Drill.Fixture.Owned | scripts/recovery-drill.py:115-124 | succeeds only on an existing tracked resource that carries both labels, and then gives its true state; with a working engine it succeeds on each of them, whatever state it is in |
| Drill.Fixture.MigrateDatabase | scripts/recovery-drill.py:161-188 | nothing is launched before the database showed both labels; success means the job was launched from the application's image with this password, waited for with a zero code and inspected as exited with zero, which it did, and only then is the database marked; a started attempt that fails leaves it unmarked; other databases keep theirs; with a working engine it succeeds exactly when the job exits with zero |
| Drill.Fixture.StopContainer | scripts/recovery-drill.py:190-195 | success means the container has exited and was seen so last; nothing else of the run is affected but by time; with a working engine every existing container of the run is stopped |
| Drill.Fixture.StartApp | scripts/recovery-drill.py:221-243 | an application is launched only on a marked database that showed both labels before and, whether or not the start succeeds, only with that migration's password; success means it was launched from the application's image, has not exited and answered the readiness probe last; with a working engine it starts |
| Drill.Fixture.Cleanup | scripts/recovery-drill.py:245-265 | removes only tracked resources with both labels, the network last; a name is in the errors exactly when its resource was neither found absent nor removed with a confirmation; whatever of the run remains, or may still be created, is named there or was listed while its creation was outstanding, so an empty list means nothing remains exactly when none was; with a working engine the list is empty |
| Drill.CleanupCanMiss | scripts/recovery-drill.py:110-113 | such a run exists: the creation of the network is accepted late and reported as failed, and the cleanup lists no error while the network may still appear |
| Extraction.FieldsMeans | scripts/release_contract.py:55-61 | members become an object exactly when no key repeats, and the object then holds each of them |
| Extraction.StrictObject | scripts/release_contract.py:55-61 | the loop computes that object or fails on the first repeated key |
| Extraction.CapabilitiesMean | scripts/release_contract.py:46-50 | a list is accepted exactly when it is the three required capabilities, once each, in any order |
| Extraction.ContractMeans | scripts/release_contract.py:39-61 | strict parsing and validation together accept exactly the three members, once each, in any order, with the exact values |
| Extraction.RemoveOwned | scripts/release_contract.py:64-80 | a container is removed only right after it was inspected under its name and its label and image matched; success means no container of that name exists, and that one of the run's was inspected and removed; with a working engine it succeeds |
| Extraction.Extract | scripts/release_contract.py:98-123 | for every failure point, the validated contract, with its literal members, is returned only when one container of the image was created, the file was copied out of it, that file is exact, and the container was then inspected and removed, with nothing of it left; nothing but that container is ever removed; with a working engine a contract is returned exactly when the image's file is exact |
| Percentile.PercentileIsNearestRank | scripts/load-test.py:21-23 | the result is x exactly when x is a member with at least that share of values up to it and less than that share below it |
| Percentile.PercentileFails | scripts/load-test.py:21-23 | an index error occurs exactly above one hundred percent of a nonempty list |
| Percentile.PercentileMonotone | scripts/load-test.py:21-23 | the result grows with the percentage |
| Percentile.PercentileBounded | scripts/load-test.py:31-32 | one hundred percent gives the maximum, which bounds every percentile |
| Dispenser.SamplesArePrefix | scripts/load-test.py:53-96 | for any number of workers, interleaving and deadline, the sorted samples are one per claimed job, sample i for job i, and the claimed jobs are a prefix of the list |
| Dispenser.AllJobsWithoutDeadline | scripts/load-test.py:64-66 | unless the deadline stops a worker, every requested job has its sample |

## Left out

- Service.InventoryService.Reserve: requires that stored customer/key pairs are unique, which every operation keeps (`Ledger.ApplyKeepsWellFormed`) and the table enforces.
- Validation.NormalizeIgnoresCaseAndPadding: upper-casing is ASCII only; `toUpperCase` on other letters and unpaired surrogates are not modelled.
- SHA-256 and the UTF-8 encoding under it: the lock number is an arbitrary function of the lock name, and a contract's digest is not computed.
- Spring, JPA, Hibernate and JDBC mechanics beyond the axioms above, and several service calls inside one enclosing transaction.
- Read endpoints, pagination, controllers, authentication, error mapping and request logging.
- Regular expressions over Unicode: digit classes are ASCII in `Names` and in the migration exit code.
- Counts beyond double precision, which jq would compare inexactly.
- Migrate.ConfirmedMeans: `.containers[]` over an object instead of an array is treated as an error.
- Cloud.Truthful: a description that contradicts the service, and likewise one that contradicts a task, counts as a failed call, because the model gives AWS reads no way to lie.
- Task definitions are a list of containers with named settings; the rest of their JSON is carried along unchanged.
- Pulling images, registry credentials and temporary directories: each is one command that succeeds or fails; that an inspected contract is exact is `Extraction.ContractMeans`.
- Removals, stops and calls to AWS that take effect only after they have reported failure; late creations in Docker are modelled.
- Drill.Fixture.StartDatabase: the readiness probes and health requests are one probe that finally succeeds or not; port bindings and resource limits are not modelled.
- An exit code of a drill container is the same whether it ends on its own or is stopped; only a migration job's is ever used.
- Rounding of the percentile's quotient, which is exact for any realistic number of samples.
- The workload's HTTP requests: a sample carries whatever response or exception the environment gives.
- The rollback, rotation, monitoring and identity drills, preflight checks, security report counting, Terraform and build files, which are straight-line checks.
