# Unfiled: verified models

Dafny models of the hardest protocols and transformations of Unfiled, a capture and notes service,
with proofs of what they promise. `dafny verify dfyconfig.toml` checks everything.

- **Demo portfolio seeding** (`Portfolio`, `DemoServer`, `Seeder`, `SeedMeaning`, `SeedProgress`,
  `SeedAnswers`, `SeedTheorems`, `SeedPortfolio`, `SeedDelays`, `SeedBlocked`, `SeedRun`,
  `SeedInventory`, `ShippedPortfolio`, `Pagination`). A client reads the whole account, refuses what it does not
  recognise, then issues a fixed plan of keyed writes. The service is a class with keyed creates and revision
  compare-and-set; each exchange is delivered, loses its request, or loses its reply after taking
  effect, and in `SeedDelays` an unanswered request may also arrive at any later time and again. A
  run is specified as a fold of steps, the methods with their loops and counters are proved equal to
  it, and the theorems speak of any well-formed manifest and any number of broken runs. `SeedPortfolio`
  reads the finished portfolio off manifest and account without the client's own functions.
- **Lock discipline** (`LockOrder`). Sessions, locks, arrival-order queues and cancellation as a
  state machine; deadlock freedom, completion and service in order of arrival for any number of sessions
  of either kind.
- **Strict tool schemas** (`StrictSchema`, `SchemaPlaces`, `SchemaMeaning`, `SchemaLosses`,
  `OrganizationSchema`). The translation to the narrower dialect and the checker for it, place by place,
  with three readings of schemas after JSON Schema Validation 2020-12 (sections 6.1, 6.3, 6.4, 6.5) and JSON Schema Core 2020-12 (section
  10).
- **Command sealing** (`EntityIds`, `Organizer`, `EvidenceGate`, `Payloads`, `Sealing`,
  `SealCoherence`, `SealContents`, `ForcedReviews`). Candidate gate, preparation gate, the ledger of wrap-key
  reservations, payload builders, the command and the reviews the drain forces; a seal is a record of
  surface, resource, version, payload and reservation, and opens under that context only.
- **Bounded, abortable reads** (`Bytes`, `StreamReader`, `ByteArrays`, `ResponseReader`,
  `BoundedBody`, `RequestReader`). Event machines for the two abortable readers, one refined by a class
  over arrays, and the body readers as loops over arrays.
- **Smaller parts** (`ProbeOptions`, `LocalDate`, `OrganizerConfig`, `ConfigFields`), with `Text` and
  `Wrappers` shared.

## What the proofs found

- An abort while a read of the request body is pending cancels the reader, which by the Streams Standard
  answers that read as done; the loop asks for the end before it asks for the abort and returns the part
  of the body it has (`CutBodyIsReturned`, `ReturnedBody`).
- A review for a suspected duplicate is decided on one page of candidates and sealed on the next. If fewer
  than two suspects are left by then, sealing refuses it (`ForcedReviewSealed`).
- A fixture that was created and then removed keeps its idempotency key used, and no run can complete the
  account again, even where preflight accepts it (`CompletableExactly`, `NeverCompletes`).
- The sealing step drops a reason other than a pending expansion from a routed plan, and the drain's
  check then refuses the command; the drain never passes such a reason (`SealedIsAccepted`,
  `DroppedReasonExists`, `DrainNeverMisses`).
- The derived tool schema departs from the source in five ways and no others (`TranslationMeaning`): besides
  the dropped bounds, a nullable type array takes null whatever stands beside it (`NullAlwaysTaken`,
  `EnumWithoutNull`), properties named after dropped keywords disappear (`DroppedNamesFallToTheRest`,
  `ClosedLosesExactlyDroppedNames`), constants are translated as if they were schemas (`ConstantIsTranslated`),
  and a nullable root loses its definitions (`NullableRootLosesReferences`). The schema the program translates
  has none of the last four (`PlanSchemaTranslated`).
- The request reader overwrites every accepted chunk but not the one that exceeds the limit, which the
  provider reader does overwrite (`RequestBody`, `EverythingOverwritten`).
- The configuration's comparison of lease and timeout can never fail, and one root may be retired in
  both registries (`LeaseCheckNeverFails`, `RegistriesMayOverlap`).
- Labels of the id factory are distinct within a factory without any condition. Between factories, with
  kinds free of colons, two labels coincide exactly when kind, offset and the joined job and decision do;
  colon-free jobs exclude that (`LabelsOfOneFactory`, `LabelsOfKinds`, `LabelsApart`, `ColonsCollide`).

## Assumptions

- Seeding: the service records each key with its answer and gives that answer again. The marker is
  the manifest's first note. The structure the service derives from a finished body is the one the
  manifest expects, and a log body before its update has no entries (`SeedProgress.Structures`).
  Nobody else writes to the account, and one reading phase sees one state of it. An untouched start
  account has used none of the manifest's keys. Where an account is shown beyond completion, its recorded
  answers are those of the service (`SeedBlocked.Honest`).
- Locks: each transaction names one owner, all locks are exclusive, and waiters are served in order of
  arrival. The source states the order of tables pairwise and by command; the model puts them in one line
  (jobs, captures, notes, mutations, review items) that extends every stated pair.
- Schemas: length, pattern matching and equality of instances are parameters. An instance is accepted when
  following references to some finite depth accepts it. Keywords have values of their kind and no object has
  two types.
- Sealing: applying the plan, checking field shapes and the custodian's consent are arbitrary answers that the
  command then depends on. A seal opens, and a MAC verifies, exactly under the context it was made for.
  Records without a version of their own have version 1.
- Reading: an abort, its flag and its listeners, is one step; cancelling the transport is immediate, and a
  cancelled stream answers a pending read as done.
- Configuration: trimming, patterns, JSON parsing, byte counting, hashing and certificates are parameters;
  the variables the loader names are a datatype and all others are `Foreign`.

## Model

| member | source | states |
|---|---|---|
| SeedDelays.ConvergesDespiteDelays | scripts/demo/seed-core.ts:763-1121 | From any account that preflight accepts and whose missing writes have unused keys, after any number of runs whose requests were lost, left unanswered, or delivered at any later time and again, preflight still accepts; one run that gets its answers completes the portfolio whatever arrives late meanwhile; nothing done is undone, and over all runs each key took effect at most once, for missing writes only |
| SeedDelays.RunGoes | scripts/demo/seed-core.ts:1075-1121 | Any run over such a network keeps the account workable and every outstanding request either recorded or the one for the first missing write; if it succeeds, the census accepts and attempted + skipped is the plan |
| SeedDelays.StepGoes | scripts/demo/seed-core.ts:854-1073 | Any one write, skipped, sent, lost or answered from the record, keeps that and, unless the run ends, the client's knowledge in step with the account |
| SeedDelays.LateArrivals | scripts/demo/seed-core.ts:1028-1073 | Requests that arrive late, in any order and any number of times, change nothing or commit the first missing write |
| SeedDelays.LateArrivalIsReplayed | scripts/demo/seed-core.ts:909-961 | A write that arrived late is sent again, answered from the record, counted as replayed, and the run goes on in step |
| SeedDelays.EmptyIsResumable | scripts/demo/seed-core.ts:763-852 | An untouched account is one the seeder can work on |
| SeedDelays.PromptRun | scripts/demo/seed-core.ts:1075-1121 | Without late arrivals a delayed run is the run the methods compute, under the same faults |
| SeedBlocked.CompletableExactly | scripts/demo/seed-core.ts:763-1121 | An account that preflight accepts can be completed by some run if and only if every missing write has an unused key |
| SeedBlocked.NeverCompletes | scripts/demo/seed-core.ts:763-1121 | A missing write whose key has been used stays missing through any number of runs, however requests are lost or delayed, and every run fails |
| SeedBlocked.ServeKeepsHonest | scripts/demo/seed-core.ts:1028-1073 | Recorded answers keep telling the titles of the notes they are about, on which the former rests |
| SeedTheorems.CrashResume | scripts/demo/seed-core.ts:763-1121 | From an untouched account, after any number of runs each broken off at any write (request or reply lost for good), the account is exactly a prefix of the plan and passes preflight; one undisturbed run then ends in the portfolio the final census accepts (for its contents see SeedPortfolio), replays nothing, and over all runs every key took effect at most once |
| SeedTheorems.RunsStopAtPrefix | scripts/demo/seed-core.ts:1075-1100 | Every series of disturbed runs stops at the account reached by some prefix of the planned writes |
| SeedTheorems.ReachAtPrefix | scripts/demo/seed-core.ts:854-1100 | After the first n planned writes exactly those writes are in place, their keys are in the log in order, no later key has been used, and the account is one the preflight recognises |
| SeedTheorems.HandleMany | scripts/demo/seed-core.ts:1075-1100 | Handling k writes from any prefix, under any faults, ends at a prefix at least as long; a run that goes on knows exactly the account |
| SeedTheorems.UndisturbedRunCompletes | scripts/demo/seed-core.ts:1075-1121 | From any prefix an undisturbed run succeeds, reaches the full plan and attempts exactly the writes that were missing |
| SeedTheorems.RerunIsIdle | scripts/demo/seed-core.ts:854-1100 | A run over a completed portfolio succeeds whatever the network does, sends nothing and skips every planned write |
| SeedTheorems.CompleteMeaning | scripts/demo/seed-core.ts:1102-1121 | The final census accepts exactly the recognised accounts in which every planned write is in place |
| SeedPortfolio.CensusAcceptsPortfolio | scripts/demo/seed-core.ts:692-761 | With the expected maps, specifications and answers left aside: the census accepts exactly the accounts that hold each fixture once and nothing besides, every note in the space, under the tags and with the link that the manifest names, at its last body and revision, with the manifest's locale and time zone |
| SeedPortfolio.PreflightAcceptsBeginnings | scripts/demo/seed-core.ts:718-852 | Preflight accepts exactly such accounts in which fixtures may be missing, or notes still wait for their second body, the marker beside any of them |
| SeedPortfolio.InventoryRefusal | scripts/demo/seed-core.ts:763-808 | What the inventory check refuses an account with, in order: foreign data, names outside the manifest or twice, a missing marker, a space out of place; otherwise it accepts |
| SeedPortfolio.ListingRefusal | scripts/demo/seed-core.ts:548-561 | A listing is refused for its first item that is not to be there or is there already |
| SeedPortfolio.CarriesMeaning | scripts/demo/seed-core.ts:692-761 | For a manifest and an account that names its fixtures apart, the finished form the client compares with is that reading |
| SeedPortfolio.CrashResumeEndsInPortfolio | scripts/demo/seed-core.ts:763-1121 | Broken-off runs from an untouched account, then one undisturbed run, end in the portfolio so read |
| SeedPortfolio.DelayedRunsEndInPortfolio | scripts/demo/seed-core.ts:763-1121 | So does the delivered run after any number of delayed ones |
| SeedAnswers.TakenExactly | scripts/demo/seed-core.ts:854-1024 | Of all answers a service might give, honest or not, the client takes exactly those that show the write done: the right kind, the fixture as planned, the record of that very note, the next revision; it then knows one more item and nothing else |
| SeedAnswers.AttemptExactly | scripts/demo/seed-core.ts:1028-1073 | A run goes on exactly if an answer arrives that can be taken, and then counts the write once, as replayed if the service says so; else it neither learns nor counts anything |
| SeedMeaning.PreflightMeaning | scripts/demo/seed-core.ts:763-852 | Preflight accepts an account exactly when it holds nothing outside the manifest, has its marker beside any fixture and every note in its final or its allowed intermediate form; it then knows the account |
| SeedMeaning.RefusalLeavesNoTrace | scripts/demo/seed-core.ts:718-852 | Any other account is refused with no request sent and nothing changed |
| SeedMeaning.WriteAccounting | scripts/demo/seed-core.ts:854-1100 | On every successful run attempted + skipped is the number of planned writes and replayed is at most attempted, from any start |
| SeedMeaning.SameValuesMeaning | scripts/demo/seed-core.ts:563-570 | The sorted comparison accepts two identifier lists exactly when they are equal as multisets |
| SeedMeaning.VerifyNoteMeaning | scripts/demo/seed-core.ts:718-761 | A note passes exactly in its finished form, or, where allowed, at revision 1 with its first body and no entries yet |
| SeedMeaning.ExpectedMapsMeaning | scripts/demo/seed-core.ts:763-808 | The inventory check accepts exactly the accounts that hold only fixtures, the marker beside any of them, and gives the three maps by name |
| SeedMeaning.InspectMeaning | scripts/demo/seed-core.ts:763-852 | The whole reading phase, with or without the intermediate form, accepts exactly those accounts and returns what they hold by key |
| Seeder.UniqueByNameAccepts | scripts/demo/seed-core.ts:548-561 | The name index succeeds exactly when names are allowed and distinct, and is then the map by name |
| Seeder.NameMapFinds | scripts/demo/seed-core.ts:548-561 | A map by name finds an item exactly under its own name |
| Seeder.ByKeyFinds | scripts/demo/seed-core.ts:810-826 | The map by key knows a key exactly when its name exists, and gives that item |
| SeedProgress.WriteAdvances | scripts/demo/seed-core.ts:854-1100 | A write that is ready and not in place is sent, accepted by the service, passes the client's checks of the answer, and makes exactly itself done |
| SeedProgress.DoneIsSkipped | scripts/demo/seed-core.ts:854-1024 | A write that is in place is skipped |
| SeedProgress.NoteAdvances | scripts/demo/seed-core.ts:909-961 | Creating the next note keeps all other notes in order and leaves the new one in the form the next preflight expects |
| SeedProgress.UpdateAdvances | scripts/demo/seed-core.ts:909-961 | The second-revision update turns the intermediate form into the final form and nothing else |
| SeedRun.ExecuteSeed | scripts/demo/seed-core.ts:1138-1157 | The command, with its loops and counters, computes the specified run: refusal without trace for a foreign owner, a pure check for the fresh profile, the portfolio run for the demo profile |
| SeedInventory.ReadExpectedByPages | scripts/demo/seed-core.ts:466-546 | The inventory check over eight paged listings is the check on the account itself when each listing has at most 100 pages, and is refused otherwise |
| SeedRun.CheckInventory | scripts/demo/seed-core.ts:763-808 | The checks on what the listings hold compute the specified inventory check |
| SeedRun.Perform | scripts/demo/seed-core.ts:854-1073 | One write, skipped or sent and checked, is one step of the specified run, counters included |
| SeedRun.IssuePlan | scripts/demo/seed-core.ts:1075-1100 | Marker, settings, spaces, tags and notes in that order are the whole plan, stopping at the first failure |
| SeedRun.InspectAccount | scripts/demo/seed-core.ts:763-852 | The reading loops compute the specified inspection without changing the account |
| SeedRun.VerifyCompleteAccount | scripts/demo/seed-core.ts:1102-1121 | The census method computes the specified census |
| DemoServer.ServeTwice | docs/BUILD_PLAN.md:1790 | A retry, whatever was served in between, changes nothing and returns the original result |
| Portfolio.PlanLength | scripts/demo/manifest.ts:207-212 | The plan has as many writes as the dry run announces |
| Portfolio.PlanOrder | scripts/demo/seed-core.ts:1075-1100 | The marker comes first, settings, spaces and tags before other notes, earlier notes before later ones, a note before its update |
| ShippedPortfolio.ShippedWellFormed | scripts/demo/manifest.ts:39-205 | The shipped manifest meets every condition the theorems ask for, with distinct idempotency keys |
| ShippedPortfolio.ShippedSize | scripts/demo/manifest.ts:207-212 | The shipped manifest plans sixteen writes |
| ShippedPortfolio.ShippedCrashResume | scripts/demo/manifest.ts:39-212 | The crash-resume theorem and the accounting of sixteen writes, for the shipped manifest |
| Pagination.CollectPages | scripts/demo/seed-core.ts:437-464 | At most 100 loads; success exactly when the listing has a well-behaved end within them, with the in-order concatenation up to it |
| Pagination.EndsOnce | scripts/demo/seed-core.ts:437-464 | A listing has at most one well-behaved end |
| Pagination.ReadServed | scripts/demo/seed-core.ts:437-464 | A consistent pager over a duplicate-free list is read exactly, if and only if it has at most 100 pages |
| LockOrder.DeadlockFree | apps/organizer/scripts/test-lock-order.ts:221-361 | For any number of disciplined sessions, in any interleaving and with any cancellations, no reachable state has a waits-for cycle |
| LockOrder.StepKeepsInv | apps/organizer/scripts/test-lock-order.ts:501-601 | Every step keeps: one holder to a lock, held locks are the ones taken so far, waiters are exactly the queue |
| LockOrder.DisciplineWaitsUpward | apps/organizer/scripts/test-lock-order.ts:501-601 | Both kinds of session wait only for locks above all they hold |
| LockOrder.EverySessionFinishes | apps/organizer/scripts/test-lock-order.ts:629-669 | A run has at most two steps for each instruction and each session, and one that cannot go on without cancelling has finished every session |
| LockOrder.SomeoneMoves | apps/organizer/scripts/test-lock-order.ts:629-669 | From any waiting session there is one that can be granted its lock or run |
| LockOrder.RunsEnd | apps/organizer/scripts/test-lock-order.ts:629-669 | A run has at most as many steps as there is work at its start |
| LockOrder.AdvisoryFirstCommits | apps/organizer/scripts/test-lock-order.ts:314-361 | Without cancellation an advisory-first session commits |
| LockOrder.RowFirstFailsFast | apps/organizer/scripts/test-lock-order.ts:221-276 | A row-first writer that finds the advisory busy aborts at once and its row passes to the first in line |
| LockOrder.RowFirstHoldsBriefly | apps/organizer/scripts/test-lock-order.ts:221-276 | In every reachable state a row-first writer that holds a lock can go on and has let go after two steps of its own |
| LockOrder.BlockingWriterDeadlocks | apps/organizer/scripts/test-lock-order.ts:501-532 | Were that writer to wait for the advisory, two sessions could deadlock |
| LockOrder.ProceedOutcome | apps/organizer/scripts/test-lock-order.ts:221-276 | A session with nothing left commits; otherwise it gets the lock at once exactly if no session holds it or waits for it, and else waits, or aborts if it only tries |
| LockOrder.WriterGivesUpWhenBusy | apps/organizer/scripts/test-lock-order.ts:221-276 | In every run without cancellation a row-first writer is aborted exactly if, at the step of its try, another session held the advisory or waited for it |
| LockOrder.LoneWriterCommits | apps/organizer/scripts/test-lock-order.ts:221-276 | A row-first writer whose advisory no other program names commits in every finished run without cancellation |
| LockOrder.NoOvertaking | apps/organizer/scripts/test-lock-order.ts:314-361 | While a session waits for a lock, no session that came to the line after it gets that lock |
| LockOrder.CommandIsAdvisoryFirst | supabase/migrations/20260901000002_encrypted_decision_corrections.sql:3894-3901 | A command that takes its owner's advisories and then jobs, captures, notes, mutations and review items, each by ascending id, follows the discipline |
| LockOrder.OneOrder | apps/organizer/scripts/test-lock-order.ts:501-532 | The order of locks is total and strict |
| LockOrder.Database.Proceed | apps/organizer/scripts/test-lock-order.ts:221-361 | The lock manager's step: take, wait in line, give up, or commit |
| LockOrder.Database.Grant | apps/organizer/scripts/test-lock-order.ts:221-361 | Waking a waiter is the model's grant step |
| LockOrder.Database.Drain | apps/organizer/scripts/test-lock-order.ts:629-669 | Letting sessions move until none can ends with all of them finished |
| StrictSchema.Idempotent | apps/organizer/src/anthropic-schema.ts:35-54 | Translating twice is translating once, on every JSON value |
| StrictSchema.BranchSmaller | apps/organizer/src/anthropic-schema.ts:39-46 | The branch of a nullable type array, no part of the schema, is smaller than it: the translation terminates on every JSON value |
| StrictSchema.CollectViolations | apps/organizer/src/anthropic-schema.ts:61-82 | The checker, pushing as it goes, computes the specified list of violations |
| StrictSchema.ViolationsMeaning | apps/organizer/src/anthropic-schema.ts:61-82 | The checker reports nothing exactly on schemas of the target dialect |
| StrictSchema.TranslationClean | apps/organizer/src/anthropic-schema.ts:35-54 | The derived schema is in the dialect exactly when every reached type array is nullable and every object schema is closed |
| StrictSchema.TranslationPassesChecker | apps/organizer/src/anthropic-schema.ts:35-82 | So the checker passes the derived schema if and only if the source meets that condition |
| SchemaPlaces.ExactlyTheOffending | apps/organizer/src/anthropic-schema.ts:61-82 | The paths listed are exactly those of the unsupported keywords, large minimums, type arrays and open objects at the places reached from the schema by array items and by entries other than type, required and enum |
| SchemaPlaces.NothingWrong | apps/organizer/src/anthropic-schema.ts:61-82 | The list is empty exactly if no such place has any of them |
| SchemaPlaces.ConformsMeaning | apps/organizer/src/anthropic-schema.ts:35-82 | The condition on the source, place by place: every type array that the translation keeps names types and has null among them, and every schema that allows objects there is closed |
| SchemaPlaces.TranslationHasNothingWrong | apps/organizer/src/anthropic-schema.ts:35-82 | No place of the derived schema offends exactly if the source meets that condition |
| SchemaPlaces.ObjectTranslated | apps/organizer/src/anthropic-schema.ts:48-54 | An object without a nullable type array keeps its keys in their order, all but the bounds, each with its value translated; nothing else is the translation |
| SchemaPlaces.NullableTranslated | apps/organizer/src/anthropic-schema.ts:39-46 | A nullable schema becomes one choice: for each other type in order the translation of the other entries with that type last, then the schema of null |
| SchemaPlaces.ItemsTranslated | apps/organizer/src/anthropic-schema.ts:35-38 | Arrays are translated item by item and literals stay as they are |
| SchemaMeaning.TranslationMeaning | apps/organizer/src/anthropic-schema.ts:18-54 | For every schema of the fragment and every instance: the derived schema accepts exactly what the source does when dropped entries are ignored, a nullable type array takes null outright, properties and definitions named after dropped keywords are not there, literals are translated, and a nullable root has no definitions |
| SchemaMeaning.Agrees | apps/organizer/src/anthropic-schema.ts:35-54 | That equivalence at every depth to which references are followed, by induction over schema and depth |
| SchemaMeaning.NothingLost | apps/organizer/src/anthropic-schema.ts:35-54 | With names and literals untouched, every instance valid under the source, references followed as far as needed, is valid under the derived schema |
| SchemaMeaning.ExactlyTheLaxReading | apps/organizer/src/anthropic-schema.ts:18-54 | Where moreover the siblings of each nullable type array admit null, the derived schema accepts exactly what the source accepts with the four dropped keywords and minItems above 1 ignored |
| SchemaMeaning.NullAlwaysTaken | apps/organizer/src/anthropic-schema.ts:29-46 | The translation of any nullable schema accepts null; the source, bounds ignored, does if and only if the keywords beside its type array do |
| SchemaMeaning.NullableExactIff | apps/organizer/src/anthropic-schema.ts:29-46 | For a nullable schema whose parts admit null, the translation is exact on all instances if and only if the keywords beside the type array accept null |
| SchemaMeaning.OneDepthForAll | apps/organizer/src/anthropic-schema.ts:29-46 | Finitely many nullable type arrays have one reference depth at which all their siblings accept null |
| SchemaMeaning.Widening | apps/organizer/src/anthropic-schema.ts:18-54 | One induction for all changes of reading and depth: what each reading accepts at a depth, wider ones accept from there on |
| SchemaMeaning.DeeperAccepts | apps/organizer/src/anthropic-schema.ts:35-54 | Following references further only makes a schema accept more |
| SchemaMeaning.DefsTranslated | apps/organizer/src/anthropic-schema.ts:39-54 | The derived schema carries the translated definitions, none of them from a nullable root |
| SchemaMeaning.LaxWeaker | apps/organizer/src/anthropic-schema.ts:18-23 | Ignoring the dropped entries only makes a schema accept more |
| SchemaMeaning.NullableRootLosesDefinitions | apps/organizer/src/anthropic-schema.ts:39-46 | A schema that is nullable at its root leaves its definitions behind |
| SchemaLosses.NullableRootLosesReferences | apps/organizer/src/anthropic-schema.ts:39-46 | If it refers to one, its translation accepts nothing but null |
| SchemaLosses.EnumWithoutNull | apps/organizer/src/anthropic-schema.ts:35-46 | A nullable enumeration without null rejects null, its translation accepts it |
| SchemaLosses.ClosedRefusesDroppedNames | apps/organizer/src/anthropic-schema.ts:48-54 | The translation of any closed schema refuses every object with a key named after a dropped keyword |
| SchemaLosses.DroppedNamesFallToTheRest | apps/organizer/src/anthropic-schema.ts:48-54 | Of the instances any schema accepts, open or closed, its translation accepts exactly those whose keys named after dropped keywords hold what the schema for additional properties takes |
| SchemaLosses.ClosedLosesExactlyDroppedNames | apps/organizer/src/anthropic-schema.ts:48-54 | For a closed schema those without such a key |
| SchemaLosses.PropertyNamedPatternLost | apps/organizer/src/anthropic-schema.ts:48-54 | An instance of that loss |
| SchemaLosses.SameTranslation | apps/organizer/src/anthropic-schema.ts:48-54 | Properties named after dropped keywords, at any level, make no difference to the translation |
| SchemaLosses.ConstantIsTranslated | apps/organizer/src/anthropic-schema.ts:51-53 | A constant is translated like a schema, so the derived schema accepts an instance exactly when it equals the translated constant |
| SchemaLosses.ConstantWithPatternLost | apps/organizer/src/anthropic-schema.ts:51-53 | A constant that holds a dropped keyword is no longer accepted as itself |
| OrganizationSchema.PlanSchemaTranslated | apps/organizer/src/openai-schema.ts:56-132 | For the schema of organization plans: the checker passes its translation, nothing valid is lost, and exactly the dropped bounds are |
| OrganizationSchema.PlanSchemaRefused | apps/organizer/test/anthropic-schema.test.ts:34-36 | The checker refuses the schema of organization plans before translation, bounds and nullable types alike |
| SealCoherence.SealedIsCoherent | apps/organizer/src/cipher.ts:771-1263 | Through every sealed command one decision, job, capture, review item and block id run, and they are the plan's; a routed command has one note, mutation and revision id and one revision number, a review none |
| SealCoherence.SealedIsAccepted | apps/organizer/src/cipher.ts:771-1263 | Every sealed command has the shape the database accepts (note write absent exactly for reviews; block, review and pending expansion together or not at all), an accepted receipt that tells the command's own outcome, and a review type that agrees with its proposal; the drain accepts it exactly when a routed plan came with no reason or a pending expansion |
| ForcedReviews.DrainNeverMisses | apps/organizer/src/drain.ts:760-813 | For every reason the drain gives, to its own plans and to the reviews it forces, its check of the returned command never fails |
| SealContents.DrainExactly | apps/organizer/src/drain.ts:789-813 | The drain publishes exactly the command that goes with its plan and reason: a review, a write, or a write with a block and the review of it |
| ForcedReviews.ForcedReviewSealed | apps/organizer/src/drain.ts:718-758 | Once bindings hold, a forced review is sealed whatever plan it comes from, but one for a suspected duplicate only if two of the suspects are still offered, as they are when all are |
| ForcedReviews.ReasonCodesMeaning | apps/organizer/src/drain.ts:700-716 | At most five different codes, the plan's own or the two fixed ones; ambiguity is always among them and a suspected duplicate leads |
| ForcedReviews.AlternativesMeaning | apps/organizer/src/drain.ts:724-735 | At most two different notes, all offered now; two exactly if two of the suspects are |
| ForcedReviews.ForcedPlanAccepted | apps/organizer/src/drain.ts:718-758 | The forced plan is within the limits of the plan schema |
| ForcedReviews.ForcedReasonExactly | apps/organizer/src/drain.ts:1123-1240 | Which reason each cause of a forced review is given: the destination is gone or ineligible, the planner was spent or the revision moved, two different notes are suspected, and ambiguity for all others |
| ForcedReviews.PlanReasonExactly | apps/organizer/src/drain.ts:760-764 | An unsure review plan asks for ambiguity, a routed plan with a generated block waits for consent, and no other plan has a reason |
| ForcedReviews.AlternativesExactly | apps/organizer/src/drain.ts:724-735 | The alternatives of a forced review are the first two different notes among destination and alternatives, in that order, that are candidates now |
| ForcedReviews.ReasonCodesExactly | apps/organizer/src/drain.ts:690-716 | Its codes are the first five different ones of a suspected duplicate, ambiguity, the matched rule and the plan's own, in that order |
| ForcedReviews.ForcedReviewExactly | apps/organizer/src/drain.ts:718-757 | With bindings in place it is sealed exactly if keys and services allow and, where two suspects asked for it, two of the suspects are still candidates |
| SealCoherence.OtherReasonsAreDropped | apps/organizer/src/cipher.ts:1254-1262 | A routed plan without a block seals to the same command under any other reason, and the drain refuses that command |
| SealCoherence.DroppedReasonExists | apps/organizer/src/drain.ts:789-813 | There is such an input: sealed, yet refused by the drain |
| SealCoherence.BoundReviewSealed | apps/organizer/src/cipher.ts:771-875 | Once bindings hold, a review is sealed if and only if it has a reason, a plan within the limits of its schema, two different alternatives for a duplicate suggestion, usable keys of its owner, fields of the right shape, a custodian that answers and no abort |
| SealCoherence.BoundRoutedSealed | apps/organizer/src/cipher.ts:877-1263 | Once bindings hold, the exact conditions under which a routed plan is sealed; candidate lookups, verifying the MACs and opening the records again are not among them |
| SealContents.RoutedContents | apps/organizer/src/cipher.ts:577-660 | Field by field, without the builders: the decision, receipt, note records, block and review of every sealed create or append are those of plan, applied note and job; receipt and clear outcome tell the same story |
| SealContents.ReviewContents | apps/organizer/src/cipher.ts:771-875 | The same for every sealed review, its receipt deferred and its proposal naming the candidates it was asked about |
| SealContents.BoundExactly | apps/organizer/src/cipher.ts:717-770 | The bindings hold exactly if at most eight different live notes were disclosed, the plan speaks of no others, and job, preparation, ids, controls and plan are about one write |
| SealContents.ReviewSealedExactly | apps/organizer/src/cipher.ts:771-875 | A review is sealed exactly under conditions on the input, written out |
| SealContents.RoutedSealedExactly | apps/organizer/src/cipher.ts:877-1263 | A create or append is sealed exactly under conditions on the input and the applied note, written out |
| SealCoherence.MacsCoverSeals | apps/organizer/src/cipher.ts:1029-1076 | Every record of a sealed command that has a verification MAC has it over its own surface, resource, version and payload |
| SealCoherence.ReservationsSpentInOrder | apps/organizer/src/cipher.ts:777-805 | The k-th seal is of the k-th surface under the k-th reservation, which is the one set aside for that surface; 3, 6 or 8 of them, none left |
| SealCoherence.NoReservationTwice | apps/organizer/src/cipher.ts:936-1027 | With different prepared reservations no two seals of a command share a wrap key |
| SealCoherence.GroupedOnceEach | apps/organizer/src/cipher.ts:679-690 | The grouped reservation serves operations 0 to 3, once each, and nothing else |
| Sealing.Ledger.Reserve | apps/organizer/src/cipher.ts:266-335 | A reservation is handed out in order; a spent plan, a foreign owner or key class is refused and consumes nothing |
| Sealing.Ledger.SealNext | apps/organizer/src/cipher.ts:306-335 | Each seal asks for one wrap key and is bound to it |
| Sealing.SealCommand | apps/organizer/src/cipher.ts:1405-1417 | The method, abort checks, gates and seals in order, returns the specified command or the one error |
| Sealing.SealReviewCommand | apps/organizer/src/cipher.ts:771-875 | Review plans: three seals, each under the reservation of its surface, although they are drawn by position, and three MACs made and verified |
| Sealing.SealRoutedCommand | apps/organizer/src/cipher.ts:877-1263 | Routed plans: six or eight seals, each under the reservation of its surface, although they are drawn by position, MACs made and verified, records opened again |
| Sealing.ReopensAsSealed | apps/organizer/src/cipher.ts:1084-1116 | Opened under the contexts they are read under, the sealed note records give what was sealed |
| EvidenceGate.AssertCandidateEvidenceBinding | apps/organizer/src/cipher.ts:493-553 | The loop with its growing sets and first-match lookup accepts exactly when candidates are at most eight, live, open, self-consistent and distinct, every mentioned id is offered, and an append's destination is one of them under the plan's id |
| EvidenceGate.ResolutionInjective | apps/organizer/src/cipher.ts:493-553 | Behind the gate candidate ids and note ids name each other one to one |
| EvidenceGate.ReferencesResolve | apps/organizer/src/cipher.ts:493-553 | Behind the gate every id the plan mentions resolves to an eligible note |
| EvidenceGate.AlternativesResolve | apps/organizer/src/cipher.ts:563-575 | The failing lookup of the review payload cannot be reached, and distinct alternatives, and only they, propose distinct notes |
| Payloads.ReviewPayloadMeaning | packages/contracts/src/review.ts:18-58 | Behind the gate the review payload of a plan within its limits fails only for fields of the wrong shape or a duplicate suggestion without two different alternatives; otherwise it matches the review type of its reason |
| Payloads.RoutedReceiptAccepted | packages/encrypted-aggregate/src/payloads.ts:321-502 | A routed receipt meets every cross-field rule of its schema; only list sizes and the owner's own undo code can refuse it |
| Payloads.DeferredReceiptAccepted | packages/encrypted-aggregate/src/payloads.ts:321-502 | A deferred receipt meets them all too, up to its number of reason codes |
| Payloads.ReadableExactly | packages/encrypted-aggregate/src/payloads.ts:321-502 | Of all receipts the reader takes exactly those whose parts tell one story: each action once and about the receipt's own destination, decision and mutation, undo targets in order and all different, and a route with the very undo it offers, taken back with nothing left to undo, or not there at all |
| Payloads.PlanCodesFitReceipts | packages/contracts/src/organization.ts:52-76 | Reason codes within the limits of the plan schema are never the cause of a refused receipt |
| EntityIds.Suffix | apps/organizer/src/cipher.ts:344-353 | The 26-step loop writes a 128-bit value as 26 digits that decode back to it, leaves nothing over, and starts with a digit at most 7 |
| EntityIds.DecodeEncode | apps/organizer/src/cipher.ts:344-353 | Digits of a value that fits decode to it |
| EntityIds.EncodeDecode | apps/organizer/src/cipher.ts:344-353 | Every string of the alphabet is the encoding of what it decodes to |
| EntityIds.OrderKept | apps/organizer/src/cipher.ts:344-353 | Encodings of one length sort, and coincide, exactly as their values do |
| EntityIds.IdsApart | apps/organizer/src/cipher.ts:337-354 | Two ids agree exactly when kind and digest do |
| EntityIds.IdsSortAsDigests | apps/organizer/src/cipher.ts:344-353 | The 26-digit suffixes of two digests sort as the digests |
| EntityIds.LabelsOfOneFactory | apps/organizer/src/cipher.ts:341-343 | Under one job and decision a label names one kind and offset, whatever the strings hold |
| EntityIds.LabelsAgree | apps/organizer/src/cipher.ts:341-343 | Two labels are one exactly when their offsets are and job, decision and kind, joined, are one string |
| EntityIds.LabelsOfKinds | apps/organizer/src/cipher.ts:341-343 | For colon-free kinds that is: same kind, same offset, and job and decision, joined, are one string |
| EntityIds.LabelsApart | apps/organizer/src/cipher.ts:341-343 | For colon-free jobs, and colon-free kinds or decisions, a label names all four of its parts |
| EntityIds.ColonsCollide | apps/organizer/src/cipher.ts:341-343 | A colon in a job can trade places with one in a decision |
| EntityIds.IdFactory.Next | apps/organizer/src/cipher.ts:337-354 | Each call hashes a label this factory never hashed and counts its kind up |
| EntityIds.DistinctIds | apps/organizer/src/cipher.ts:337-354 | Where the hash tells two labels apart, their ids differ |
| StreamReader.StepKeepsInv | apps/organizer/src/embedding-provider.ts:172-257 | Every delivery, end, failure, abort and resumption keeps: a listener exactly while a promise is open, listed chunks intact in order, every other chunk overwritten, the total within the limit |
| StreamReader.FirstEventDecides | apps/organizer/src/embedding-provider.ts:221-257 | The first event settles an open promise once and for all and unregisters the listener, whatever follows |
| StreamReader.SettledStays | apps/organizer/src/embedding-provider.ts:221-257 | A settled promise keeps its outcome and no listener comes back until the loop resumes |
| StreamReader.EverythingOverwritten | apps/organizer/src/embedding-provider.ts:172-219 | Once the read is over, every chunk ever delivered, oversize and late ones included, is zeros |
| StreamReader.ParsedIsComplete | apps/organizer/src/embedding-provider.ts:172-219 | Whatever reaches the parser is the complete body, within the limit, taken up after the end of the stream and before any abort |
| StreamReader.OverIsOver | apps/organizer/src/embedding-provider.ts:172-257 | No later event changes the result of a finished read |
| StreamReader.AbortFails | apps/organizer/src/embedding-provider.ts:221-239 | A read still under way after an abort fails within two resumptions |
| StreamReader.AbortEndsTheRead | apps/organizer/src/embedding-provider.ts:221-239 | While a read is under way the signal can abort at any point; it settles an open promise as rejected, leaves a settled one alone, and the read fails either way |
| StreamReader.ResumeEndsOrTakes | apps/organizer/src/embedding-provider.ts:179-219 | Each resumption of an open read with a settled promise ends the read or takes in exactly one part and waits for the next |
| StreamReader.FailureEndsTheRead | apps/organizer/src/embedding-provider.ts:172-256 | After a failed transport read settles the open promise, whatever late events follow, the next resumption ends in failure with every delivered chunk zeros |
| StreamReader.ChunkingDoesNotMatter | apps/organizer/src/embedding-provider.ts:172-219 | An undisturbed read parses the joined chunks exactly when they fit, however they are cut |
| StreamReader.ReadOnRuns | apps/organizer/src/embedding-provider.ts:172-219 | That undisturbed read is a run of the event machine, over all its events or up to the chunk that exceeds the limit |
| ResponseReader.Reader.constructor | apps/organizer/src/embedding-provider.ts:172-178 | The reader starts in the machine's start state |
| ResponseReader.Reader.OnChunk | apps/organizer/src/embedding-provider.ts:240-249 | The handler over arrays is the delivery step; a late chunk is overwritten in place |
| ResponseReader.Reader.OnEnd | apps/organizer/src/embedding-provider.ts:240-249 | The end of the stream is the machine's end step |
| ResponseReader.Reader.OnError | apps/organizer/src/embedding-provider.ts:250-256 | A failed read is the machine's failure step |
| ResponseReader.Reader.OnAbort | apps/organizer/src/embedding-provider.ts:228-239 | An abort, flag and listener together, is the machine's abort step |
| ResponseReader.Reader.OnResume | apps/organizer/src/embedding-provider.ts:179-219 | The loop body over arrays, its assembly and its overwriting, is the machine's resume step |
| BoundedBody.RequestBody | apps/organizer/src/http.ts:124-182 | Under aborts, failed reads and limits, the one answer or refusal the outcome function gives, with the concatenation on success; every part taken in is overwritten, on refusal too, and all others are left alone |
| BoundedBody.RequestSucceeds | apps/organizer/src/http.ts:124-182 | That outcome is success exactly when the header admits the body, all bytes fit, no part comes after an abort and no read fails |
| BoundedBody.TakenInExactly | apps/organizer/src/http.ts:124-182 | How many parts are taken in and what is answered, by abort position and running totals alone: the parts before the first abort or excess, whichever is first |
| RequestReader.ReturnedBody | apps/organizer/src/http.ts:124-182 | Over every interleaving of parts, end, failure, abort and loop: a returned body is all that was delivered, within the limit, and is the whole body exactly when no abort came while a read was pending |
| RequestReader.CutBodyIsReturned | apps/organizer/src/http.ts:140-158 | Whenever an abort comes while a read is pending, the reader returns what it had as a body |
| RequestReader.LateAbortRefuses | apps/organizer/src/http.ts:152-155 | An abort while a part waits to be taken up refuses the body |
| RequestReader.EveryRunAnswers | apps/organizer/src/http.ts:124-182 | However events interleave, a finished read has answered as the request reader is specified to on its reads |
| RequestReader.ResumeEndsOrTakes | apps/organizer/src/http.ts:144-165 | Each turn of the loop ends the read or takes in exactly one part |
| RequestReader.StepKeepsInv | apps/organizer/src/http.ts:138-165 | Every event keeps the list, its total within the limit, and what an abort has decided |
| BoundedBody.ProbeBody | scripts/operations/deployed-release-probe.ts:627-666 | The decoded concatenation exactly within header and limit on a stream that does not fail, else the stated code |
| BoundedBody.SeedBody | scripts/demo/seed-core.ts:331-370 | The same for the seed client, undecoded, with its media type before any parameters, and its codes |
| BoundedBody.MediaExactly | scripts/demo/seed-core.ts:331-340 | The media type must be that of JSON, whatever parameters follow it |
| BoundedBody.Gather | apps/organizer/src/http.ts:145-165 | The read loop takes in exactly the parts before the first abort or excess and says why it stopped |
| BoundedBody.AssembleAndFill | apps/organizer/src/http.ts:166-174 | Copying and overwriting chunk by chunk gives the concatenation of what they held, when no chunk comes twice |
| BoundedBody.OwnLengthAdmitted | apps/organizer/src/http.ts:129-135 | The header a sender writes for its own length admits a body exactly when it fits |
| ProbeOptions.ParseOptions | scripts/operations/deployed-release-probe.ts:242-275 | The index loop computes the specified parse, error codes included |
| ProbeOptions.WrittenParses | scripts/operations/deployed-release-probe.ts:242-275 | Any option map, written in any order, each value inline or spaced, with or without the leading dashes, parses back to itself |
| ProbeOptions.ParsesExactlyWritings | scripts/operations/deployed-release-probe.ts:242-275 | The parser accepts exactly the writings of option maps, at most one bare help included, and returns the map that was written |
| ProbeOptions.RefusalExactly | scripts/operations/deployed-release-probe.ts:242-275 | Behind any written options, the first argument that does not go on is refused for what is wrong with it: no option, a name not allowed, a repeated one, or no value that can be taken |
| ProbeOptions.ShippedNamesArePlain | scripts/operations/deployed-release-probe.ts:194-208 | The shipped option names meet the condition of the round trip |
| LocalDate.SurvivesIffReal | apps/organizer/src/local-date.ts:21-32 | The check accepts a year, month and day exactly when they are a real Gregorian date of the year 100 or later |
| LocalDate.OrganizerLocalDate | apps/organizer/src/local-date.ts:21-32 | A formatted date is returned unchanged exactly when it is so shaped and real |
| LocalDate.EarlyYearsRefused | apps/organizer/src/local-date.ts:27-28 | No date of the years 0 to 99 passes, since the constructor moves them to 1900 |
| LocalDate.PassesExactly | apps/organizer/src/local-date.ts:1-32 | A text passes exactly if it writes, in ten characters, a date of the Gregorian calendar, month lengths spelled out, in the year 100 or later |
| OrganizerConfig.LoadedIsCoherent | apps/organizer/src/config.ts:688-778 | A loaded configuration is wholly local or wholly managed for one runtime, with distinct active keys, retired ones disjoint from them, concurrency within the claim limit and the lease above the timeout; no forbidden variable was set |
| OrganizerConfig.LoadsExactly | apps/organizer/src/config.ts:688-778 | Loading succeeds exactly when every part of the environment reads well; comparing lease and timeout refuses nothing |
| ConfigFields.LoadedExactly | apps/organizer/src/config.ts:688-778 | Loading gives a configuration exactly if each of its fields is the value of its own named variable, within that variable's form, bounds and default, and nothing forbidden or of the other custodian is set |
| ConfigFields.VercelMeaning | apps/organizer/src/config.ts:522-559 | The sensitive boundary holds the two roots, the two registries as listed and the project of their own variables |
| ConfigFields.AwsMeaning | apps/organizer/src/config.ts:401-463 | The key-name boundary holds the key names, registries, region, role, subject and project of their own variables |
| OrganizerConfig.ManagedIsCoherent | apps/organizer/src/config.ts:561-591 | A managed boundary is coherent and read under one custodian with no variable of the other one set |
| OrganizerConfig.AwsIsCoherent | apps/organizer/src/config.ts:401-463 | Active and retired key names differ and belong to the role's partition and account and to the region |
| OrganizerConfig.VercelIsCoherent | apps/organizer/src/config.ts:522-559 | Active and retired roots differ and belong to the runtime's environment |
| OrganizerConfig.ParseRetiredArns | apps/organizer/src/config.ts:354-399 | The loop accepts exactly at most twenty admitted, inactive, pairwise different entries, and returns them in order |
| OrganizerConfig.ParseRetiredRoots | apps/organizer/src/config.ts:473-520 | The same for the registry whose seen set starts out with the active roots |
| OrganizerConfig.RegistriesMayOverlap | apps/organizer/src/config.ts:473-520 | The two registries are checked apart, so one root may be retired in both |
| OrganizerConfig.LeaseCheckNeverFails | apps/organizer/src/config.ts:748-757 | The lease check cannot fail: the integer bounds alone keep lease and timeout eleven seconds apart |

## Left out

- Network, HTTP, Postgres, processes, files, logs and clocks: steps, a server class or parameters.
- AES-GCM, MACs and key custody: seals and MACs are symbolic, and the request and revision MACs are not part
  of the command.
- SHA-256: a function to 128-bit values, assumed to tell labels apart only where ids must differ.
- Which field shapes Zod schemas accept (id patterns, text lengths, dates): one answer from outside; their
  cross-field rules are modelled.
- The note's public state, headings, snippets and routing signals in the decision payload.
- Fixture texts of the manifest: parameters; keys, titles, names, links and the plan are the shipped ones.
- Checklist and log parsing of note bodies: reduced to the structure the manifest expects.
- Comparison of creation and update timestamps in mutation records, and reads that fail or lie.
- The seed command line, target origin and confirmation rules (`parseCliOptions`, `executionConfig`).
- `not`, `oneOf` and keywords outside the fragment: no meaning is given to them, though translation,
  idempotence and checker results hold for every JSON value.
- ExecuteSeed: reads each listing in one step; `ReadExpectedByPages` shows that reading by pages gives the same.
- What captures, deleted notes, reviews and rules hold: an account only counts them.
- Error details: which configuration variables an error names, which message a refusal carries.
- `fetchWithAbort`, the embedding retry loop, norm checks on embeddings, `deadline` and `trigger`.
- UTF-8 decoding and JSON parsing of a body once it is complete, beyond whether they succeed.
- Environment options, header checks and the evidence document of the release probe.
- Applying a materialized plan, retrieval, planners, SQL migrations and the clients: not part of this model.
- The database functions themselves: only the locking discipline asserted over them.
