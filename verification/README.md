# Protocol model of the workshop order system

A Dafny model of the transactional protocols of the API and of the browser client, with proofs. The project verifies
with `dafny verify dfyconfig.toml`.

What is modelled, in the system's own terms:

- **Sales commands** (`DraftPieces`, `PieceRewrite`, `DateOnly`, `PaidAmount`, `CustomerPhone`, `SalesModel`,
  `SalesReadBack`, `SalesHistory`, `SalesTheorems`, `DraftChanges`, `SalesDatabase`, `SalesConcurrency`, `Texts`,
  `SalesTexts`, `SalesAnswers`, `SalesProgress`). Every customer or draft write is an idempotent command: lock the
  actor, lock the command id, replay a retained receipt or do the work, and retain an immutable before/after record.
  `SalesModel.Execute` is the atomic meaning of one call; `SalesDatabase.SalesTables` runs the services statement by
  statement with rollback and one retry; `SalesConcurrency` lets any number of calls take their steps in any order.
  The piece rewrite of a draft (soft removal, shift of every active position by 200, placement, insertion) is checked
  against the unique index after every single row update.
- **Staff authority** (`Accounts`, `StaffAuthority`, `StaffHistory`, `StaffService`, `StaffConcurrency`,
  `StaffOffers`, `StaffAnswers`). Seven decision actions under an access version, their receipts and replay, the
  one-time bootstrap of the first administrator, and what the browser offers against what the server accepts.
- **Sessions and one-time tokens** (`Sessions`, `SessionService`, `SessionInterleavings`, `SessionAnswers`,
  `VerificationTokens`). Passwords are compared outside the transaction, then come the row lock, the recheck and the
  write; refresh tokens rotate.
- **Browser session** (`BrowserSession`, `BrowserAnswers`, `BrowserClient`). Token, epoch, restore policy, bound
  subject, refresh slot and the queue of cookie-changing requests, under any order of asynchronous completions.
- **Lock order** (`LockOrder`). The explicit locks of all these transactions, with queues, for any number of
  transactions.

Where the source changes state step by step the model has a class whose methods carry the loops and early returns, and
each method is proved equal to a function on values; the properties are proved about those functions, over all inputs,
all runs and all interleavings. The `...Answers` modules say for each operation, by the columns of the rows and without
those functions, when it is refused and why, when it succeeds, and what it leaves behind.

Assumptions, stated once: SHA-256 and password hashes are injective, so a digest is compared as the value it digests;
generated UUIDs and tokens are new; the clock never runs backwards where an event says so; a rollback restores what the
transaction wrote; a row lock is shared or exclusive and lasts to the end of the transaction. Accounts may start in any
consistent state without decisions. Identifiers are numbers ordered as their canonical text is. Configured durations
have their default values, which the answers name. The clock, fresh identifiers, the faults of the database and
the order of rows in a query result are parameters.

Five statements are false without a condition; each is given with the exact condition and with an input that breaks it:

- The partial staff update writes what its decision records exactly when no rejected account carries a department, which
  consistency guarantees (`StaffAuthority.UpdateWritesTheDecision`, `StaffAuthority.RejectingADepartmentMismatches`).
- Cookie-changing requests never overlap. An entry into the queue rules out every later overlap exactly when its epoch is
  current or every outstanding attempt can only be released any more (`BrowserSession.EntryRulesOutOverlapExactlyWhen`,
  `BrowserSession.ObsoleteEntryLetsTwoRun`).
- They leave the queue in the order of entry. An entry keeps that order exactly when its epoch is current or nothing is
  outstanding (`BrowserSession.EntryKeepsOrderExactlyWhen`); the same run breaks it.
- The account cache never goes back. It holds the newest account throughout a run exactly when no read is stored late
  (`BrowserSession.CacheHoldsTheNewest`, `BrowserSession.LateStoreRegresses`).
- Every beginning of a stored phone finds it. This holds exactly from the fifth character of the 00966 spelling, and from
  the second of the local and the +966 spelling (`CustomerPhone.DialledFoundExactlyFrom5`,
  `CustomerPhone.LocalFoundExactlyFrom2`, `CustomerPhone.InternationalFoundExactlyFrom2`); +966511111111 is missed before.

## Model

| member | source | states |
|---|---|---|
| `DraftPieces.ClassifyDraftPieces` | apps/api/src/modules/sales-drafts/sales-drafts.rules.ts:17-46 | The loops with their early returns give the verdict of the first obstacle in submission order, and on a valid plan the known ids, the unknown ids and the leaving ids |
| `Foundations.SetSizeDecidesDistinct` | apps/api/src/modules/sales-drafts/sales-drafts.rules.ts:22-24 | Comparing the size of the set with the length of the list detects a duplicate exactly |
| `DraftPieces.FirstObstacle` | apps/api/src/modules/sales-drafts/sales-drafts.rules.ts:28-37 | The verdict is clear exactly when every id is clear, and otherwise it is the verdict of the earliest id that is not |
| `DraftPieces.QueriedRowsSuffice` | apps/api/src/modules/sales-drafts/sales-drafts.service.ts:290-298 | Planning on "active rows of this draft or submitted ids", in any row order, gives the verdict, retained, new and (as a set) removed ids of planning on the whole piece table |
| `DraftPieces.ValidPlanHolds` | apps/api/src/modules/sales-drafts/sales-drafts.service.ts:290-305 | A valid plan partitions the submitted ids into retained and new ones, and the active ids of the draft into retained and removed ones |
| `DraftPieces.ClearMeansAdmissible` | apps/api/src/modules/sales-drafts/sales-drafts.rules.ts:28-37 | Planning is clear exactly when every submitted id that exists is an active piece of this very draft |
| `PieceRewrite.PieceRows.UpdateRow` | apps/api/src/modules/sales-drafts/sales-drafts.service.ts:322-325 | One row update with the immediate check of the partial unique index on (draft, position) |
| `PieceRewrite.PieceRows.SoftRemove` | apps/api/src/modules/sales-drafts/sales-drafts.service.ts:314-321 | The conditional soft removal, row by row in any order, with its count |
| `PieceRewrite.PieceRows.ShiftActive` | apps/api/src/modules/sales-drafts/sales-drafts.service.ts:322-327 | The bulk shift by 200 never meets a taken position, in whatever order the rows are touched, because positions lie in 1..200 |
| `PieceRewrite.PieceRows.WritePieces` | apps/api/src/modules/sales-drafts/sales-drafts.service.ts:307-355 | Under the draft lock no count check fails and no position clashes: the table ends as the independent row-by-row description says, unless another draft took a new piece id |
| `PieceRewrite.RewriteNumbers` | apps/api/src/modules/sales-drafts/sales-drafts.service.ts:328-354 | Afterwards the active rows of the draft are exactly the submitted pieces, in submitted order, at positions 1..n, with the submitted values |
| `PieceRewrite.RewriteKeepsIdentity` | apps/api/src/modules/sales-drafts/sales-drafts.service.ts:307-355 | Every row keeps its draft and creation time, removed rows never change again, other drafts are untouched, and every added row is an active piece of this draft |
| `PieceRewrite.EveryPieceHasItsFate` | apps/api/src/modules/sales-drafts/sales-drafts.service.ts:307-355 | Column by column: a removed piece keeps values, position and creation time and is only marked; a retained one has the captured values and its creation time; a new one starts at this save; other rows stay |
| `PieceRewrite.ClashesExactlyWhenTheIndexBreaks` | packages/database/prisma/migrations/20261105000100_shared_customers_sales_drafts/migration.sql:153 | The check of one row write refuses exactly the writes that would break the partial unique index |
| `PieceRewrite.PlacementDoesNotClash` | apps/api/src/modules/sales-drafts/sales-drafts.service.ts:332-339 | Placing a retained piece at its final position never clashes with shifted or placed rows |
| `PieceRewrite.InsertionEndsRewrite` | apps/api/src/modules/sales-drafts/sales-drafts.service.ts:340-354 | Inserting the collected rows completes the rewrite exactly when none of their ids is taken |
| `DateOnly.CalendarReadsBack` | apps/api/src/core/date-only.ts:6-26 | The UTC getters give back year, month and day exactly when they form a real Gregorian date (ECMA-262, section 21.4.1) |
| `DateOnly.EveryDayFollowsTheCalendar` | apps/api/src/core/date-only.ts:6-26 | A day later the UTC getters give the next Gregorian date, at every instant |
| `DateOnly.EpochIsNewYear1970` | apps/api/src/core/date-only.ts:6-26 | And at instant zero they give the first of January 1970, which fixes the whole calendar |
| `DateOnly.AcceptedStringsAreRealDates` | apps/api/src/core/date-only.ts:13-26 | A string is accepted exactly when it has the full-date shape of RFC 3339, section 5.6, and names a real date by section 5.7 |
| `DateOnly.SerializeAfterParse` | apps/api/src/core/date-only.ts:28-51 | Serializing a parsed date gives the accepted string back |
| `DateOnly.ParseAfterSerialize` | apps/api/src/core/date-only.ts:28-51 | Any instant can be serialized exactly when its year is 1 to 9999, and then parsing the text gives the midnight of its day |
| `PaidAmount.NormalizationKeepsValue` | packages/contracts/src/sales-drafts/sales-drafts.schema.ts:47-61 | Normalizing an accepted entry keeps its value in cents |
| `PaidAmount.EntryAcceptedExactly` | packages/contracts/src/sales-drafts/sales-drafts.schema.ts:47-61 | An entry is blank, or accepted exactly by the pattern of one to nine digits and at most two decimals, or refused |
| `PaidAmount.EntryIsWorth` | packages/contracts/src/sales-drafts/sales-drafts.schema.ts:47-61 | The stored cents are the whole units and the decimals as typed, a single decimal counting tenths |
| `PaidAmount.NormalFormIsFixed` | packages/contracts/src/sales-drafts/sales-drafts.schema.ts:47-61 | A normal form normalizes to itself |
| `PaidAmount.PaidEntryReadsBack` | apps/api/src/core/serialization/decimal.ts:33-60 | Any plain decimal text of the stored cents maps back to the normal form of the entry |
| `PaidAmount.StoredCentsShowNormalForm` | apps/api/src/modules/sales-drafts/sales-drafts.mapper.ts:59-65 | mapPaidCapture prints the stored cents in the normal form |
| `PaidAmount.ShownExactly` | apps/api/src/modules/sales-drafts/sales-drafts.mapper.ts:59-65 | An unsigned stored text is shown exactly when it is a plain decimal whose decimals from the third on are zeros |
| `PaidAmount.NegativeIsRefused` | apps/api/src/modules/sales-drafts/sales-drafts.mapper.ts:59-65 | A negative stored text is an error, except that negative zero is zero |
| `CustomerPhone.AcceptedExactlyWhenSpelled` | packages/contracts/src/customers/customers.schema.ts:18-35 | A text is accepted as a number exactly when, cleaned, it is one of the three spellings of that number |
| `CustomerPhone.NumbersByPrefix` | packages/contracts/src/customers/customers.schema.ts:31-31 | The accepted national numbers, by their fifteen two-digit prefixes |
| `CustomerPhone.CharactersTell` | packages/contracts/src/customers/customers.schema.ts:18-23 | White space, brackets and dashes are dropped, and the digits of three scripts are read alike |
| `CustomerPhone.SpellingsAgree` | packages/contracts/src/customers/customers.schema.ts:24-34 | The 0, +966 and 00966 spellings normalize to the same canonical phone |
| `CustomerPhone.NormalizeIsIdempotent` | packages/contracts/src/customers/customers.schema.ts:106-108 | The canonical phone normalizes to itself |
| `CustomerPhone.NormalizedIsCanonical` | packages/contracts/src/customers/customers.schema.ts:106-108 | What a request makes of a phone has the pattern that answers demand, and that pattern holds exactly for the phones that normalizing leaves alone |
| `Texts.NameIsFixed` | packages/contracts/src/customers/customers.schema.ts:50-50 | What the name schema hands over it accepts again unchanged, so a stored name passes the answer |
| `Texts.NoteIsFixed` | packages/contracts/src/customers/customers.schema.ts:51-61 | The same for the optional texts of a customer |
| `Texts.NameTells` | packages/contracts/src/customers/customers.schema.ts:50-50 | A name is accepted exactly when, without the white space around it, it has at most 150 units and no null character |
| `Texts.CaptureTells` | packages/contracts/src/sales-drafts/sales-drafts.schema.ts:22-31 | A captured text keeps its white space, which counts towards its length; a blank one is null |
| `Texts.BlankIsTrimmedAway` | packages/contracts/src/sales-drafts/sales-drafts.schema.ts:22-31 | A text is trimmed to nothing exactly when it is blank, that is, when it is stored as null |
| `CustomerPhone.TypingFindsThePhone` | apps/api/src/modules/customers/customers.queries.ts:33-45 | While a stored phone is typed in any spelling, the search looks for this part of it, and the phone contains that part |
| `CustomerPhone.SearchesExactlyWhen` | apps/api/src/modules/customers/customers.queries.ts:33-45 | A search looks for a phone exactly when, cleaned, the text is digits, perhaps after a plus |
| `CustomerPhone.DialledFoundExactlyFrom5` | apps/api/src/modules/customers/customers.queries.ts:33-45 | For the first k characters of the 00966 spelling: every phone is found exactly when k is at least 5 |
| `CustomerPhone.LocalFoundExactlyFrom2` | apps/api/src/modules/customers/customers.queries.ts:33-45 | For the local spelling: exactly when k is at least 2, since a lone zero searches for a zero |
| `CustomerPhone.InternationalFoundExactlyFrom2` | apps/api/src/modules/customers/customers.queries.ts:33-45 | For the +966 spelling: exactly when k is at least 2, since a lone plus searches no phone |
| `SalesDatabase.SalesTables.LockCustomers` | apps/api/src/modules/sales-drafts/sales-drafts.service.ts:266-277 | Locking the distinct customers in ascending order finds them all exactly when they all exist |
| `SalesDatabase.SalesTables.PlanDraftPieces` | apps/api/src/modules/sales-drafts/sales-drafts.service.ts:278-305 | Size check, query in any row order and classification agree with planning on the whole table, and a plan holds |
| `SalesDatabase.SalesTables.CreateCustomer` | apps/api/src/modules/customers/customers.service.ts:122-138 | The insert does what the atomic meaning of CREATE_CUSTOMER says |
| `SalesDatabase.SalesTables.UpdateCustomer` | apps/api/src/modules/customers/customers.service.ts:163-196 | The guarded field-by-field update does what the atomic meaning of UPDATE_CUSTOMER says |
| `SalesDatabase.SalesTables.CreateDraft` | apps/api/src/modules/sales-drafts/sales-drafts.service.ts:119-138 | Statement by statement, creating a draft does what its atomic meaning says |
| `SalesDatabase.SalesTables.SaveDraft` | apps/api/src/modules/sales-drafts/sales-drafts.service.ts:164-216 | Statement by statement, saving a draft does what its atomic meaning says |
| `SalesDatabase.SalesTables.Attempt` | apps/api/src/modules/sales-commands/sales-command-executor.ts:115-178 | One attempt commits tables and record together or changes nothing, exactly as the atomic meaning says, and keeps the whole history invariant |
| `SalesDatabase.SalesTables.ExecuteCommand` | apps/api/src/modules/sales-commands/sales-command-executor.ts:111-198 | The retry loop: one retry after a conflict, TransactionConflict after a second one or a lock timeout; a fault strikes after all writes of an attempt, the rollback restores tables and log, and the answer is that of the one attempt that committed |
| `SalesDatabase.SalesTables.Get` | apps/api/src/modules/sales-commands/sales-commands.service.ts:26-84 | The observation loop answers like the atomic observation on one snapshot |
| `SalesReadBack.HeaderReadsBack` | apps/api/src/modules/sales-drafts/sales-drafts.service.ts:229-245 | An accepted header can be stored, and its date and amount show as captured |
| `SalesReadBack.FinishedDraftShowsCapture` | apps/api/src/modules/sales-drafts/sales-drafts.mapper.ts:67-111 | The image built after create or save shows the captured header, customer and pieces in order, at version and owner of the row |
| `SalesHistory.CreateDraftEffect` | apps/api/src/modules/sales-drafts/sales-drafts.service.ts:119-138 | A created draft starts at version 1 without a before-image, shows itself truly and touches no other row |
| `SalesHistory.SaveDraftEffect` | apps/api/src/modules/sales-drafts/sales-drafts.service.ts:164-216 | A save moves one draft one revision on, with true images of before and after, and touches no other row |
| `SalesHistory.UpdateCustomerEffect` | apps/api/src/modules/customers/customers.service.ts:163-196 | An update moves one customer one revision on, with true images of before and after, and touches no other row |
| `SalesHistory.FreshRecordMaps` | apps/api/src/modules/sales-commands/sales-command-executor.ts:146-174 | The record of completed work always maps to a success that shows the stored image |
| `SalesHistory.RecordMaps` | packages/contracts/src/sales-commands/command-receipt.schema.ts:30-51 | Every stored record satisfies the revision rule and the actor rule of the receipt schema |
| `SalesHistory.CommitHolds` | apps/api/src/modules/sales-commands/sales-command-executor.ts:115-178 | One call keeps the tables, the receipt log and every trail of images consistent |
| `SalesHistory.RunHolds` | apps/api/src/modules/sales-commands/sales-command-executor.ts:146-174 | The receipt log is the history: after every run each resource has after-versions 1..current once each, chained images, a last image equal to the row, records that still map, and pieces that never return |
| `SalesTheorems.PieceKeepsItsDraftForLife` | apps/api/src/modules/sales-drafts/sales-drafts.service.ts:307-355 | Over every run a piece id keeps its draft, and a removed piece stays as it was |
| `SalesTheorems.ReplayReturnsTheSameReceipt` | apps/api/src/modules/sales-commands/sales-command-executor.ts:129-144 | After any later run the same call changes nothing, and when it succeeds it returns the same receipt and the same saved image; it succeeds exactly when actor and resource are still visible |
| `SalesTheorems.RetainedCommandChangesNothing` | apps/api/src/modules/sales-commands/sales-command-executor.ts:133-142 | A retained command id never changes the tables, and a different binding is a conflict |
| `SalesTheorems.AdmittedActorGetsTheReceipt` | apps/api/src/modules/sales-commands/sales-command-executor.ts:200-223 | An employee who is still admitted, or an administrator who still is one, always gets the receipt back |
| `SalesTheorems.ObservationAgreesWithReplay` | apps/api/src/modules/sales-commands/sales-commands.service.ts:36-68 | Observation agrees with replay for the actor of the command and shows nothing to others |
| `SalesTheorems.EveryRevisionHasARecord` | apps/api/src/modules/sales-commands/sales-command-executor.ts:146-167 | Every revision up to the current one has a retained record |
| `SalesTheorems.NoRevisionHasTwoRecords` | apps/api/src/modules/sales-commands/sales-command-executor.ts:146-167 | No revision has two |
| `SalesTheorems.SavedDraftReadsBack` | apps/api/src/modules/sales-drafts/sales-drafts.service.ts:119-217 | Save then read back, for every capture the schema accepts: the answer and the stored row show it field by field, with the right owner, times and customer |
| `SalesTheorems.SavedCustomerReadsBack` | apps/api/src/modules/customers/customers.service.ts:122-196 | A created customer shows the capture; an updated one has the patched fields and keeps the others |
| `SalesTheorems.ReceiptTellsTheRevision` | apps/api/src/modules/sales-commands/sales-command.mapper.ts:42-55 | A receipt names its command, its actor as it was, operation and resource, and the revisions before and after |
| `SalesTheorems.NoInternalErrors` | apps/api/src/modules/sales-commands/sales-command.mapper.ts:30-80 | In every reachable state no accepted call and no observation ends in an internal error |
| `SalesAnswers.OthersAreRefused` | apps/api/src/modules/auth/account-authority.ts:82-115 | Whoever is missing, not in good standing or of another department gets exactly Unauthorized, Restricted or WrongDepartment, sees no command and changes nothing |
| `SalesAnswers.OnlySalesStaffIsServed` | apps/api/src/modules/auth/account-authority.ts:88-115 | A success, a changed table or a shown command means that the stored actor is active and verified, and an administrator or an approved employee of the sales department |
| `SalesAnswers.IntentAcceptedExactly` | packages/contracts/src/sales-drafts/sales-drafts.schema.ts:121-167 | The commands that reach the executor: any customer command, and drafts with a real date, an amount in its normal form, no blank text, and one to two hundred different pieces, at any version from 1 to the limit |
| `SalesAnswers.CreateCustomerAnswers` | apps/api/src/modules/customers/customers.service.ts:122-138 | A customer is created exactly when no stored customer has the phone; otherwise it is a phone conflict |
| `SalesAnswers.UpdateCustomerAnswers` | apps/api/src/modules/customers/customers.service.ts:163-196 | An update succeeds exactly for a known customer, at the stored version below the limit, with a phone that no other customer has; each other case has its own refusal |
| `SalesAnswers.CreateDraftAnswers` | apps/api/src/modules/sales-drafts/sales-drafts.service.ts:119-138 | A draft is created exactly when its customer exists and none of its piece ids is in use |
| `SalesAnswers.SaveDraftAnswers` | apps/api/src/modules/sales-drafts/sales-drafts.service.ts:164-216 | A save succeeds exactly for owner or administrator, at the stored version, with an existing customer and pieces that all fit; the first failing condition, and the earliest misfit among the pieces, names the refusal |
| `SalesAnswers.DraftCommandTells` | apps/api/src/modules/sales-drafts/sales-drafts.service.ts:119-216 | A successful draft command gives every piece row its fate and shows the linked customer as stored |
| `SalesAnswers.RetainedAnswers` | apps/api/src/modules/sales-commands/sales-command-executor.ts:129-144 | A retained command is a conflict for any other actor, operation, target, version or content, hidden with its resource, and otherwise answered from its own columns and image |
| `SalesAnswers.ObservationAnswers` | apps/api/src/modules/sales-commands/sales-commands.service.ts:36-68 | An observation shows a command exactly to its own actor, while the draft may be seen or the customer exists |
| `SalesAnswers.MappedExactly` | apps/api/src/modules/sales-commands/sales-command.mapper.ts:30-80 | A record is answered exactly when it is a revision in range by sales staff that fits its own image |
| `SalesTexts.EveryAnswerPasses` | packages/contracts/src/customers/customers.schema.ts:106-128 | When the texts of all requests and account rows passed their schemas, then after any run every retained command is answered, and all names, phones and texts of its answer pass the response schemas unchanged |
| `SalesTheorems.RunKeepsPhones` | apps/api/src/modules/customers/customers.service.ts:103-200 | Over every run no two customers share a phone |
| `SalesConcurrency.FinishIsTheCall` | apps/api/src/modules/sales-commands/sales-command-executor.ts:115-178 | With other transactions in between, a call that ends does at its last step exactly what it would do alone at that moment |
| `SalesConcurrency.ReadsLast` | apps/api/src/modules/sales-drafts/sales-drafts.service.ts:165-187 | What a transaction has read under its locks stays true when another one commits |
| `SalesConcurrency.StandingPlanDecides` | apps/api/src/modules/sales-drafts/sales-drafts.service.ts:139-143 | If a new piece id was taken after the planning, the refusal is the one planning now would give |
| `SalesConcurrency.PlannedPiecesCanBeWritten` | apps/api/src/modules/sales-drafts/sales-drafts.service.ts:307-355 | In every interleaving a planned command meets the contract of WritePieces |
| `SalesConcurrency.RunIsSerial` | apps/api/src/modules/sales-commands/sales-command-executor.ts:111-198 | Every interleaving of calls, aborts and retries leaves the tables, the history and all the answers of one call after the other, in the order in which the calls end |
| `SalesConcurrency.ExactlyOnce` | apps/api/src/modules/sales-commands/sales-command-executor.ts:111-198 | Whatever runs at once, two successes for one command id are for the same request, carry the same receipt and image, and at most one did the work |
| `SalesProgress.InterleavedSuccessIsStaffs` | apps/api/src/modules/sales-commands/sales-command-executor.ts:117-120 | In every interleaving a command succeeds only for an actor who is sales staff at that moment |
| `SalesProgress.SomeoneGoesOn` | apps/api/src/modules/sales-commands/sales-command-executor.ts:111-178 | While commands are outstanding, one of them can take its next step: they never wait in a circle |
| `SalesProgress.WaitsOnlyForAHolder` | apps/api/src/modules/sales-commands/sales-command-executor.ts:117-128 | A command waits only for one that holds its command id, its draft or its customer |
| `SalesProgress.FailedAttemptTells` | apps/api/src/modules/sales-commands/sales-command-executor.ts:179-198 | A failed attempt is repeated once; a timeout or a second failure is a conflict |
| `DraftChanges.EveryDraftRecordHasAChange` | apps/api/src/modules/sales-drafts/sales-drafts.queries.ts:155-192 | No retained draft record is unreadable for the change view |
| `DraftChanges.ChangeNamesTheDifference` | apps/api/src/modules/sales-drafts/sales-drafts.queries.ts:167-178 | The change between two saves is empty exactly when the captures are equal, and names the pieces exactly when they differ |
| `DraftChanges.ChangedFieldsDiffer` | apps/api/src/modules/sales-drafts/sales-drafts.queries.ts:150-178 | The change names a field exactly when the two images show it differently |
| `DraftChanges.ChangeTells` | apps/api/src/modules/sales-drafts/sales-drafts.queries.ts:150-190 | Which part of the images each field compares, and that a creation names every field and adds every piece |
| `DraftChanges.EachPieceAddedAndRemovedOnce` | apps/api/src/modules/sales-drafts/sales-drafts.queries.ts:179-190 | Over all retained changes a piece id is added at most once, removed at most once, and only later on the same draft |
| `DraftChanges.RemovedWasAdded` | apps/api/src/modules/sales-drafts/sales-drafts.queries.ts:179-190 | Every removed piece was added by an earlier record of the same draft |
| `DraftChanges.FoldGivesActivePieces` | apps/api/src/modules/sales-drafts/sales-drafts.queries.ts:179-190 | Folding the retained changes of a draft gives its active piece ids |
| `LockOrder.LockAccountRows` | apps/api/src/modules/auth/account-authority.ts:41-59 | The loop locks the distinct accounts in ascending order |
| `LockOrder.SortedUnique` | apps/api/src/modules/auth/account-authority.ts:46-51 | Deduplicating and sorting lists the same ids in strictly ascending order |
| `LockOrder.ScriptsAscend` | apps/api/src/modules/sales-drafts/sales-drafts.service.ts:165-187 | Every transaction asks for its explicit locks in one strictly ascending order, so it never upgrades |
| `LockOrder.ScriptClaims` | apps/api/src/modules/auth/account-authority.ts:20-60 | The claims of each operation, one by one: shared where it reads, exclusive where it writes |
| `LockOrder.RunHolds` | apps/api/src/modules/auth/account-authority.ts:41-59 | Over every run conflicting claims never have two holders |
| `LockOrder.NoCycle` | apps/api/src/modules/auth/account-authority.ts:34-40 | With any number of transactions no waits-for path ever closes |
| `LockOrder.SomeoneCanMove` | apps/api/src/modules/auth/account-authority.ts:34-40 | While transactions remain, at least one is not blocked |
| `StaffAuthority.UpdateWritesTheDecision` | apps/api/src/modules/staff/staff.service.ts:235-268 | The partial update writes the recorded after-snapshot exactly when a rejected account carries no department |
| `StaffAuthority.RejectingADepartmentMismatches` | apps/api/src/modules/staff/staff.service.ts:251-255 | An inconsistent account on which update and decision differ |
| `StaffAuthority.GuardMatchesExactly` | apps/api/src/modules/staff/staff.service.ts:274-286 | The guard of the update matches exactly a verified employee whose row is still as it was read, at the expected version |
| `StaffAuthority.SoundDecision` | packages/database/prisma/migrations/20261104000100_enforce_staff_decision_transitions/migration.sql:5-72 | On a consistent employee the guarded update matches its row, the row stays consistent, and the decision passes the database CHECK constraints |
| `StaffAuthority.PromotionIsConsistent` | apps/api/src/modules/auth/initial-administrator.service.ts:118-183 | An eligible candidate is promoted to a consistent, active administrator, one version on |
| `StaffAuthority.VerificationIsConsistent` | apps/api/src/modules/auth/auth.service.ts:259-282 | Verification keeps the account consistent exactly while its version can grow |
| `StaffHistory.CommitHolds` | apps/api/src/modules/staff/staff.service.ts:452-555 | One staff command keeps every decision chain |
| `StaffHistory.NextHolds` | packages/contracts/src/account/account.schema.ts:44-124 | Registration, verification, every staff command, the bootstrap and profile writes keep every account within the rules of the account schema |
| `StaffHistory.RunHolds` | apps/api/src/modules/staff/staff.service.ts:452-555 | Over every run accounts are consistent, decisions about an account form one contiguous chain that ends at its row, and no account has both a bootstrap receipt and a decision |
| `StaffHistory.AuthorityChangeRaisesVersion` | apps/api/src/modules/staff/staff.service.ts:235-268 | Each authority change raises the access version by exactly one, and nothing else touches it |
| `StaffHistory.VersionCountsDecisions` | apps/api/src/modules/staff/staff.service.ts:501-546 | The version is the first recorded one plus the number of decisions |
| `StaffHistory.VersionCountsChanges` | apps/api/src/modules/staff/staff.service.ts:235-268 | Over every run the version of an account grows by exactly the number of events that changed its authority, so it never falls |
| `StaffHistory.ReceiptMatchesByVersion` | apps/api/src/modules/staff/staff.service.ts:579-587 | A receipt matches the account on all compared fields exactly when the versions are equal, that is when it is the last one |
| `StaffHistory.ReplayDecidesNothing` | apps/api/src/modules/staff/staff.service.ts:562-602 | A retained command decides nothing; it is answered exactly for the same binding while nothing was decided since |
| `StaffHistory.AnswersAreAccepted` | packages/contracts/src/staff/staff.schema.ts:149-171 | Every staff answer passes the response schema |
| `StaffAnswers.BarredIsRefused` | apps/api/src/modules/staff/staff.service.ts:452-478 | Whoever is no verified active administrator, or asks about no employee, gets the one refusal that says so and changes nothing |
| `StaffAnswers.UndecidedAnswers` | apps/api/src/modules/staff/staff.service.ts:488-520 | A new command that is stale is an access conflict, one that is already met is answered without a decision, one that cannot be met is a transition conflict |
| `StaffAnswers.DecidedAnswers` | apps/api/src/modules/staff/staff.service.ts:488-555 | A current command that is not met and can be met is decided, and the account it names then meets it, column by column |
| `StaffAnswers.DecisionNamesItsAction` | apps/api/src/modules/staff/staff.service.ts:110-230 | Which action the decision of each request records |
| `StaffAnswers.AnsweredMeansMet` | apps/api/src/modules/staff/staff.service.ts:452-555 | Whatever is answered, now or from a receipt, the returned account is the stored one and satisfies the intent |
| `StaffAnswers.ReplayAnswers` | apps/api/src/modules/staff/staff.service.ts:562-602 | A retained command is a conflict for other content, stale once the account has moved on, and otherwise answered from its receipt |
| `StaffAnswers.VerificationAnswers` | apps/api/src/modules/auth/auth.service.ts:266-290 | A verification takes an unverified account once to its approval, or an administrator to work |
| `StaffHistory.NewDecisionTellsTheTruth` | apps/api/src/modules/staff/staff.service.ts:501-555 | A new decision tells who decided what about whom and when, both snapshots are the rows themselves, and nothing else changes; without one the tables stay |
| `StaffHistory.BootstrapHappensOnce` | apps/api/src/modules/auth/initial-administrator.service.ts:147-183 | From a state without administrators and receipt, administrators and receipts are always equally many, and a second nomination is refused |
| `StaffAnswers.NominationAnswers` | apps/api/src/modules/auth/initial-administrator.service.ts:147-183 | A nomination succeeds exactly for the pending verified employee it names by address and version, while there is no administrator and no receipt; each other case has its own reason |
| `StaffService.StaffTables.ApplyStaffCommand` | apps/api/src/modules/staff/staff.service.ts:452-555 | The service method does what its atomic meaning says and keeps the history invariant |
| `StaffService.StaffTables.ExecuteStaffCommand` | apps/api/src/modules/staff/staff.service.ts:426-450 | A conflict allows exactly one fresh attempt; a fault strikes after all writes of an attempt, and the rollback restores tables and log |
| `StaffService.StaffTables.ApplyBootstrap` | apps/api/src/modules/auth/initial-administrator.service.ts:227-313 | The bootstrap does what its atomic meaning says; its conditional update always matches |
| `StaffConcurrency.RunIsSerial` | apps/api/src/modules/staff/staff.service.ts:426-500 | Every interleaving of staff commands, bootstraps, verifications and account writes is a serial run |
| `StaffConcurrency.OneBootstrapSucceeds` | apps/api/src/modules/auth/initial-administrator.service.ts:227-313 | In every interleaving at most one bootstrap succeeds, and successes, receipts and administrators are equally many |
| `StaffConcurrency.AnswersAreSerial` | apps/api/src/modules/staff/staff.service.ts:426-500 | The answers of every interleaving are those of the serial run |
| `StaffConcurrency.SomeoneGoesOn` | apps/api/src/modules/staff/staff.service.ts:426-500 | While transactions are outstanding, one of them can take its next step |
| `StaffConcurrency.ConflictTells` | apps/api/src/modules/staff/staff.service.ts:426-450 | A conflict gives a staff command one fresh attempt, and anything else gives up |
| `StaffOffers.OfferedMeansAccepted` | apps/web/src/features/administration/model/staff-management.model.ts:88-118 | Offered means accepted below the version limit: an offered intent is answered and decides unless it keeps the department; any other never decides |
| `StaffOffers.OfferedCanDecide` | apps/web/src/features/administration/model/staff-management.model.ts:126-174 | Every offered operation has a command that decides |
| `StaffOffers.OfferedExactly` | apps/web/src/features/administration/model/staff-management.model.ts:88-118 | What is offered, status by status, to a verified employee, and nothing to anybody else |
| `StaffOffers.StaleSnapshotsNeverDecide` | apps/api/src/modules/staff/staff.service.ts:488-490 | Over every run: when any event changed the authority of the account since it was observed, or the account is gone, the command built from that observation decides nothing |
| `StaffOffers.UnchangedSnapshotsAreCurrent` | apps/api/src/modules/staff/staff.service.ts:488-490 | The observed view is still the current one exactly when no event changed the authority since |
| `Sessions.LoginKeeps` | apps/api/src/modules/auth/auth.service.ts:320-344 | A login adds a session that descends from itself |
| `Sessions.RotationKeeps` | apps/api/src/modules/auth/auth.service.ts:398-419 | A rotation replaces one live record by one that inherits its login and expires at the token's own second |
| `Sessions.PasswordKeeps` | apps/api/src/modules/auth/auth.service.ts:664-689 | A password write leaves only sessions that prove a stored password |
| `Sessions.SignedLifetimeEndsAtExpiry` | apps/api/src/infrastructure/security/jwt.service.ts:83-98 | At a fixed clock the claim exp (RFC 7519, section 4.1.4) equals the absolute expiry exactly while that second lies ahead |
| `Sessions.RotationArithmetic` | apps/api/src/modules/auth/auth.service.ts:398-407 | The absolute expiry never grows, loses less than a second in total and is constant from the first rotation on |
| `Sessions.GrantedBeforeExpiry` | apps/api/src/modules/auth/auth.service.ts:382-401 | A refresh is granted only before the expiry its login set, and only while the proved password is stored |
| `SessionService.SessionTables.Login` | apps/api/src/modules/auth/auth.service.ts:303-345 | Login grants exactly on a matching password and adds exactly one record |
| `SessionService.SessionTables.Refresh` | apps/api/src/modules/auth/auth.service.ts:367-427 | Refresh grants exactly when token, record and expiries allow it, and the old token is gone |
| `SessionService.SessionTables.Logout` | apps/api/src/modules/auth/auth.service.ts:347-357 | Logout removes exactly the named session of the user |
| `SessionService.SessionTables.LogoutAll` | apps/api/src/modules/auth/auth.service.ts:359-365 | Logout everywhere removes exactly the sessions of the user |
| `SessionService.SessionTables.ChangePassword` | apps/api/src/modules/auth/auth.service.ts:622-690 | A password changes exactly when the current one matches, the new one differs and the account is eligible, and every session ends |
| `SessionService.SessionTables.ResetPassword` | apps/api/src/modules/auth/auth.service.ts:485-576 | A reset succeeds exactly for a pending token, a different password and an eligible account; the token is consumed and every session ends |
| `SessionInterleavings.RunHolds` | apps/api/src/modules/auth/auth.service.ts:303-427 | In every interleaving each live refresh record descends from a login that proved the password hash stored now, each login has one live record, and no refresh token is accepted twice |
| `SessionInterleavings.RefreshProvesCurrentPassword` | apps/api/src/modules/auth/auth.service.ts:367-427 | A refresh that commits continues a login that proved the password stored at that moment, with a token never accepted before |
| `SessionInterleavings.PasswordWriteEndsEverySession` | apps/api/src/modules/auth/auth.service.ts:520-571 | In every interleaving a committed password write leaves its user without sessions, and at any later time every session of the user descends from a login after it |
| `SessionInterleavings.LoginProvesStoredPassword` | apps/api/src/modules/auth/auth.service.ts:320-335 | Although compared outside, the password matches the hash stored when the session is created |
| `SessionInterleavings.WrittenPasswordDiffers` | apps/api/src/modules/auth/auth.service.ts:622-690 | A committed change had the right current password, a different new one and an eligible account |
| `SessionAnswers.RefusedExactlyWhenFaulty` | apps/api/src/modules/auth/auth.service.ts:303-690 | In every reachable state an operation that need not wait is refused exactly when its comparison or its recheck fails, told by the columns of user and record |
| `SessionAnswers.LoginOpensOneSession` | apps/api/src/modules/auth/auth.service.ts:320-345 | A login opens one session, for thirty days if it is to be remembered and otherwise for one |
| `SessionAnswers.RefreshReplacesOneSession` | apps/api/src/modules/auth/auth.service.ts:382-427 | A refresh replaces its own record by one of the same user, the same choice and the same last second |
| `SessionAnswers.LogoutEndsItsSession` | apps/api/src/modules/auth/auth.service.ts:347-357 | In every interleaving a committed logout removes exactly the session of its token, and the token is never granted again |
| `SessionAnswers.LogoutAllEndsEverySession` | apps/api/src/modules/auth/auth.service.ts:359-365 | A committed logout everywhere removes every session of the user and no other, and later sessions descend from later logins |
| `SessionAnswers.PasswordWriteTells` | apps/api/src/modules/auth/auth.service.ts:520-571 | A committed change or reset is of an account in good standing, with an open reset token at its recheck; it writes the hash, clears the token and removes the sessions of that user alone |
| `SessionAnswers.RequestTells` | apps/api/src/modules/auth/auth.service.ts:429-475 | A reset request stores its token for half an hour, and only for an account in good standing |
| `SessionAnswers.ResetTokenWorksOnce` | apps/api/src/modules/auth/auth.service.ts:485-571 | After a password write a reset commits only with a token requested since, at most half an hour before its recheck |
| `SessionAnswers.SomeoneGoesOn` | apps/api/src/modules/auth/auth.service.ts:303-690 | While operations are outstanding, one of them can take its next step |
| `SessionInterleavings.SessionStepsLeaveAccountsAlone` | apps/api/src/modules/auth/auth.service.ts:303-690 | Session and password operations leave authority fields alone |
| `VerificationTokens.AccountRows.Register` | apps/api/src/modules/auth/auth.service.ts:80-104 | Registration stores the row and its token unless the email is in use |
| `VerificationTokens.AccountRows.ResendVerification` | apps/api/src/modules/auth/auth.service.ts:133-199 | A resend replaces the token exactly when the row is pending and the cooldown has passed |
| `VerificationTokens.AccountRows.VerifyEmail` | apps/api/src/modules/auth/auth.service.ts:231-292 | A token verifies exactly the pending row that stores it unexpired |
| `VerificationTokens.AccountRows.RemoveUndeliverable` | apps/api/src/modules/auth/auth.service.ts:760-785 | The conditional delete removes at most the row it names |
| `VerificationTokens.RunHolds` | apps/api/src/modules/auth/auth.service.ts:80-298 | In every run a pending row stores the token issued last, and histories only grow |
| `VerificationTokens.VerifiedOnceByTheLatestToken` | apps/api/src/modules/auth/auth.service.ts:221-298 | Over every run an account is verified at most once, and only by its latest token |
| `VerificationTokens.VerifyAnswers` | apps/api/src/modules/auth/auth.service.ts:221-298 | A token verifies exactly when it is the last one issued to the waiting account, for this address, less than a day ago |
| `VerificationTokens.ResendAnswers` | apps/api/src/modules/auth/auth.service.ts:133-199 | A resend is granted exactly a minute or more after the last issue, and its token lasts for a day |
| `VerificationTokens.RegisterAnswers` | apps/api/src/modules/auth/auth.service.ts:80-104 | A registration is refused exactly when its id was used or its address is in use |
| `VerificationTokens.UndeliveredAnswers` | apps/api/src/modules/auth/auth.service.ts:760-785 | A failed delivery removes exactly the waiting account whose last token is the undelivered one |
| `VerificationTokens.IssuesAreBounded` | apps/api/src/modules/auth/auth.service.ts:166-172 | Issues to one account are at least the cooldown apart, so their number in a span of time is bounded |
| `VerificationTokens.CleanupRemovesOnlyItsOwnRow` | apps/api/src/modules/auth/auth.service.ts:760-785 | Cleanup removes only a pending row whose latest token is the one that request stored |
| `BrowserClient.ApiClient.BeginAuthSessionEpoch` | apps/web/src/services/api/api-client.ts:198-209 | A new epoch drops token, subject and slot and closes the gate |
| `BrowserClient.ApiClient.AcceptCredentialLogin` | apps/web/src/services/api/api-client.ts:215-226 | Only the required epoch may bind a subject |
| `BrowserClient.ApiClient.SetAccessToken` | apps/web/src/services/api/api-client.ts:232-247 | A passive token is accepted only in its epoch, by an open gate, for the bound subject |
| `BrowserClient.ApiClient.AssertAuthSessionSubject` | apps/web/src/services/api/api-client.ts:254-275 | A foreign subject closes restoration, an obsolete epoch changes nothing |
| `BrowserClient.ApiClient.EnterCookieQueue` | apps/web/src/services/api/api-client.ts:382-394 | An attempt becomes the tail and waits exactly when its epoch is current |
| `BrowserClient.ApiClient.ContinueCookieRequest` | apps/web/src/services/api/api-client.ts:395-447 | Behind its predecessor an attempt runs only in its captured epoch, with the token held then |
| `BrowserClient.ApiClient.RefreshAuthSession` | apps/web/src/services/api/api-client.ts:471-515 | A refresh joins the slot of its epoch or starts the only one |
| `BrowserClient.ApiClient.ReleaseRefreshSlot` | apps/web/src/services/api/api-client.ts:457-465 | An older attempt never clears a newer slot |
| `BrowserSession.RunHolds` | apps/web/src/services/api/api-client.ts:118-275 | In every sequence of events a held token belongs to the bound subject and the current epoch, a bearer was accepted in the captured epoch, and one refresh per epoch is in flight |
| `BrowserSession.EpochIsStable` | apps/web/src/services/api/api-client.ts:198-275 | Within one epoch the bound subject never changes and the policy only moves on |
| `BrowserSession.StaleResultsAreInert` | apps/web/src/services/api/api-client.ts:215-275 | A stale result changes nothing |
| `BrowserSession.OnlyLoginOpensTheGate` | apps/web/src/services/api/api-client.ts:215-226 | No passive result opens a closed gate |
| `BrowserAnswers.FirstLoginIsAccepted` | apps/web/src/services/api/api-client.ts:198-226 | After the boundary of a credential login, whatever else happens, the first login result of the new epoch is accepted with its token and subject |
| `BrowserAnswers.EndedStaysSignedOut` | apps/web/src/services/api/api-client.ts:198-209 | After a confirmed ending no run without a new boundary holds a token, binds a subject or leaves the signed-out state |
| `BrowserAnswers.RefreshResultTells` | apps/web/src/services/api/api-client.ts:232-247 | A refresh of the current epoch holds its own token; a foreign subject drops the token and closes the gate |
| `BrowserAnswers.ForeignRefreshClosesForGood` | apps/web/src/services/api/api-client.ts:238-242 | After that no token is held again before the next boundary |
| `BrowserAnswers.SubjectResultTells` | apps/web/src/services/api/api-client.ts:254-275 | An own-account result binds or confirms the subject, or closes the gate |
| `BrowserAnswers.VerdictsTell` | apps/web/src/services/api/api-client.ts:215-275 | What the callers of the three functions are told, in every state |
| `BrowserAnswers.RequestLeavesExactlyWhen` | apps/web/src/services/api/api-client.ts:404-447 | A request leaves exactly in its captured epoch and through its gate, with the token held then |
| `BrowserAnswers.ClosedGateSendsNothingOrdinary` | apps/web/src/services/api/api-client.ts:404-412 | Before the awaited login and after a confirmed ending no ordinary request leaves |
| `BrowserAnswers.QueueGoesOn` | apps/web/src/services/api/api-client.ts:382-403 | While an attempt is outstanding, one of them can be settled or woken |
| `BrowserAnswers.RefreshStartsExactlyWhen` | apps/web/src/services/api/api-client.ts:471-515 | A refresh starts exactly in the current epoch, behind an open gate, with no refresh of this epoch in its slot |
| `BrowserAnswers.SettledRefreshMakesRoom` | apps/web/src/services/api/api-client.ts:457-515 | A settled refresh frees its slot, and then the next one starts |
| `BrowserSession.EntryKeepsOrderExactlyWhen` | apps/web/src/services/api/api-client.ts:387-394 | An entry keeps the queue in order of entry exactly when its epoch is current or nothing is outstanding |
| `BrowserSession.AttemptsRunInOrder` | apps/web/src/services/api/api-client.ts:382-403 | Under that condition at every entry, attempts start only after all earlier ones have ended, so they run in entry order |
| `BrowserSession.ProperEntriesNeverOverlap` | apps/web/src/services/api/api-client.ts:382-403 | When each entry is current or finds only released attempts and waiting ones of an obsolete epoch, no two attempts run at once over any run |
| `BrowserSession.EntryRulesOutOverlapExactlyWhen` | apps/web/src/services/api/api-client.ts:382-403 | That condition is exact: without it some run of proper entries ends with two attempts running |
| `BrowserSession.FreshPageNeverOverlaps` | apps/web/src/services/api/api-client.ts:382-403 | The same over every run from a fresh page |
| `BrowserSession.NeverTwoAtOnce` | apps/web/src/services/api/api-client.ts:382-403 | In an ordered queue no two attempts run at once |
| `BrowserSession.ReleaseOnlyFreesItsOwnSlot` | apps/web/src/services/api/api-client.ts:457-465 | Releasing a settled attempt frees only its own slot |
| `BrowserSession.ObsoleteEntryLetsTwoRun` | apps/web/src/services/api/api-client.ts:392-394 | An obsolete entry before a waiting current attempt lets two attempts run at once: a concrete run from a fresh page |
| `BrowserSession.CacheHoldsTheNewest` | apps/web/src/features/auth/hooks/auth.hooks.ts:92-139 | Reads choose first and are stored later, publications do both at once: through a run for one subject the cache holds the newest account exactly when no store finds something newer than its result and than what its read saw |
| `BrowserSession.LateStoreRegresses` | apps/web/src/features/auth/hooks/auth.hooks.ts:92-104 | A late store takes the cache back to an older account: a concrete run |

## Left out

- Draft status: the column has one value, so requireEditableState never refuses and is not modelled.
- DraftChanges.MapChange: added and removed piece ids are sets, because their order follows the images; the command metadata of a change row is not repeated.
- SalesModel.MapDraft: the constant pricing and submission fields of a draft image are not modelled.
- SalesTheorems.ObservationAgreesWithReplay: the observation is taken on one snapshot, as its repeatable-read transaction gives it; a serialization failure is the retried conflict.
- SalesTheorems.NoInternalErrors: the mapping of a record checks versions, revisions, actors, dates, amounts, blank texts, and the number, identity and positions of pieces; names, phones and text lengths are not part of it and pass by `SalesTexts.EveryAnswerPasses`, stated apart. The email pattern, which requests and answers share, is not modelled.
- SalesConcurrency.RunIsSerial: row writes become visible at the commit; implicit waits on unique indexes and foreign keys, lock timeouts and statement timing appear only as an attempt that may abort.
- SalesConcurrency.ExactlyOnce: JSON and SHA-256 encoding of the intent are not modelled; the canonical intent itself is compared.
- LockOrder.NoCycle: explicit locks only; locks that PostgreSQL takes on its own are not part of the graph.
- LockOrder.LockAccountRows: trimming and lower-casing of ids happens before; ids here are canonical.
- SessionInterleavings.RunHolds: an operation names its user by id; the lookup by email address is not modelled, because an address never moves between live accounts.
- VerificationTokens.VerifiedOnceByTheLatestToken: the lookup before the lock is replaced by an arbitrary row, which covers every lookup; the signature and lifetime of the token itself are not modelled, only the stored digest and expiry.
- BrowserSession.RunHolds: promises are settle events; request cancellation by an abort signal, redirects and the CSRF header are left out.
- In the tables, names, texts and email addresses are plain strings; the size limit of a whole capture in bytes is a check on requests alone.
- List queries, search filters, pagination, response envelopes, controllers, rate limits, cookies, logging and email delivery: wrappers without state of their own.
- The one-shot reads of customers, drafts and staff lists repeat the authority check and the retry that the commands already have.
- Argon2, the JWT library, Prisma, PostgreSQL, React Query and Axios internals are not part of this model.
