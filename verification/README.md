# Quillo: a Dafny model of the ledger and its state machines

Quillo is an Australian tax ledger: bank statements, receipts and income documents come in, and a taxable position comes
out. This project models the parts of it that keep state over time, one module per component, and proves what they keep.

| file | what it models |
|---|---|
| Batch.dfy | the SQLite batch adapter and the event loop that shares one connection |
| Fingerprint.dfy | statement-line fingerprints and the text they hash |
| Ledger.dfy, LedgerRuns.dfy, LedgerMeaning.dfy | posting, shrinking to rollups and tombstones, purging; whole runs; position and balances |
| ReceiptLink.dfy, Proposer.dfy | receipt and bank-line links, Undo, dismissals; which pairs are proposed |
| Supersession.dfy | rent and salary documents that restate one another |
| Calendar.dfy, Situation.dfy | financial years on day numbers; dated situation periods and the occupation mirror |
| FyClose.dfy | lodged years, Notices of Assessment (NOA) and their capital losses |
| Diary.dfy | the weekly work-from-home diary and each year's cached hours |
| ObjectStore.dfy | originals shared by rows and documents |
| Position.dfy, Worksheet.dfy | refund netting, the position range, company losses; the worksheet's lines and when they tie back |
| CanonicalJson.dfy, StripComments.dfy | the snapshot comparison and the colour check's comment stripper |
| Bedrock.dfy | the inference seam and its retry loop |
| Options.dfy | the nullable column |

Money is integer cents, hours are hundredths of an hour, a NULL is None. Dates are day numbers, except that the statement
ledger reads an ISO day as the number yyyymmdd, which orders as the text does. A table is a map by primary key or a
sequence of rows with unique keys. What updates state in place is a class whose methods are proved equal to a function of
the old state; the properties are lemmas about those functions. The clock, random ids, model replies and other tables a
decision reads are parameters. What a function means is also stated in the columns of the rows themselves, apart from the
function, and proved to agree. Proofs do their own inductions (`{:induction false}`). `dafny verify dfyconfig.toml` checks
everything.

Where a promise turns out not to hold of the code, the model keeps the code and the lemma gives the exact condition:

* src/lib/statements.ts promises that a re-upload or an overlapping statement adds nothing. The occurrence counter ignores
  the running balance but the key contains it, so this holds if and only if each base's balances are a prefix of those on
  file (Fingerprint.ReimportAddsNothing, Fingerprint.OverlapPostsAgain); and a merchant that ends like a balance or an
  occurrence mark can collide with another (Fingerprint.AmbiguousCollides).
* Undo puts everything back except the status of a line that had no bucket and was given none (ReceiptLink.LinkThenUndo).
  Over runs, a donated column stays behind exactly when its receipt was tapped onto a line again, the same or another, or
  unlinked by hand (ReceiptLink.ColumnComesBack, ReceiptLink.RelinkForgetsDonation); and a value the user types over a
  donation goes with it if it is the very value donated (ReceiptLink.EditStays).
* With the minimisation flag switched off after a shrink, an import posts the shrunk lines again (LedgerRuns.StepKeeps).
* The worksheet does not always tie back: company spend, or a row with no bucket, tagged to a listed property stays on its
  rental line, and an attribution to a property the user rents as a tenant reaches no line (Worksheet.TiesBack).
* Rent statements are confluent if and only if no two tie for the longest period (Supersession.OrderIrrelevantIff), and
  salary rows are counted once each in every order if and only if no row ties two statements together that do not match
  (Supersession.SalaryCountsOnceIff, Supersession.SalaryOrderMatters).
* The comment in src/lib/situation-write.ts says concurrent period writes can race; src/api.ts sends them through one
  durable object, and the model follows that. An old occupation lingers when a delete, or an edit, leaves the person
  only jobs that start after the current year (Situation.DeletedJobLingers, Situation.WriteMirrors, Situation.RunMirrors).
* Re-opening a year deletes the row a confirmed NOA closed when the year was never marked (FyClose.StepKeepsClosed). The
  comment in src/lib/noa-store.ts says reconciling handles a superseded record's capital loss; the record is deleted
  first, so its row is never found (FyClose.ConfirmTidy, FyClose.SupersededLossStacks).
* Deleting the last diary week of a year it only spilled into leaves its hours when no earlier figure was kept
  (Diary.TypedHoursComeBack, Diary.DeletedHoursStay).
* A new document whose model call throws leaves its object behind with no row (ObjectStore.StepStrands).
* The third residency check in src/llm.ts cannot fail (Bedrock.ModelCheckIsVacuous).

## Model

| member | source | states |
|---|---|---|
| Batch.SqliteD1.Batch | scripts/lib/d1-sqlite.ts:62-76 | The loop between BEGIN and COMMIT or ROLLBACK has the meaning of one atomic operation: all statements, each with its own result in order, or none and the first error; a nested BEGIN fails and changes nothing |
| Batch.RunAllStops | scripts/lib/d1-sqlite.ts:67-75 | The first statement that throws decides the whole batch, whatever statements follow it |
| Batch.RunAllGoes | scripts/lib/d1-sqlite.ts:67-75 | Run one after another, each statement runs on what the one before it left and gives the result at its own place, until all have or the first throws |
| Batch.BatchGoes | scripts/lib/d1-sqlite.ts:62-76 | A batch that answers kept every statement, each with its own result in order; one that failed kept nothing and says what the first statement to throw said, or that the COMMIT did |
| Batch.NoForeignStep | scripts/lib/d1-sqlite.ts:64-66 | While a transaction is open only its owner can step: no foreign write lands inside it and BEGIN is never nested |
| Batch.StepRefines | scripts/lib/d1-sqlite.ts:62-76 | Every small step of the event loop is invisible or is one task's whole operation (refinement of the atomic machine) |
| Batch.AtomicIs | scripts/lib/d1-sqlite.ts:55-81 | An atomic step answers one task's operation, after its earlier answers, and touches no other task |
| Batch.SettledIsItself | scripts/lib/d1-sqlite.ts:55-81 | With no transaction open the machine is exactly what it means, so serialisability speaks of the real database and answers |
| Batch.RunsAreSerialisable | scripts/lib/d1-sqlite.ts:55-81 | Any interleaving of any number of async tasks, each choosing its next operation by the answers it has had, ends with the database and the answers of some serial order of whole operations |
| Batch.LoopMakesProgress | scripts/lib/d1-sqlite.ts:55-81 | Some task can step until all are finished, and every step answers its task's operation or brings it closer to an answer, so no task is ever stuck behind a transaction |
| Batch.LostWriteRun | scripts/lib/d1-sqlite.ts:64-65 | A concrete run with an await inside the batch in which another task's acknowledged write is rolled back |
| Batch.AwaitInsideBatchLosesWrite | scripts/lib/d1-sqlite.ts:64-65 | That result is one no serial order gives: the synchronous block is necessary |
| Fingerprint.StatementPrints | src/lib/statements.ts:295-305 | The occurrence-counting loop computes the fingerprints of a statement, the N-th line of one base getting occurrence N - 1 |
| Fingerprint.PrintCarries | src/lib/statements.ts:281-305 | A fingerprint carries its own line's date, amount, direction, merchant and balance, and counts the earlier lines of the statement that read the same |
| Fingerprint.SamePrintIff | src/lib/statements.ts:268-305 | Two lines, of one statement or two, share a fingerprint if and only if every column agrees and each is as many-th of its kind |
| Fingerprint.InPrints | src/lib/statements.ts:281-305 | Which fingerprints a statement has depends only on each base's list of running balances |
| Fingerprint.PrintsDistinct | src/lib/statements.ts:268-280 | No two lines of one statement share a fingerprint, so genuine repeats all survive |
| Fingerprint.ReimportAddsNothing | scripts/e2e-first-timer.ts:123-138 | A second import adds nothing if and only if, base by base, its balances are a prefix of those already imported |
| Fingerprint.SamePrintsIff | src/lib/statements.ts:268-305 | Two statements leave the same fingerprints if and only if every base's balance list is the same |
| Fingerprint.CountsDecide | src/lib/statements.ts:288-305 | Without printed balances only the number of lines of each base matters: line order does not |
| Fingerprint.OverlapPostsAgain | src/lib/statements.ts:281-287 | With printed balances a statement that starts mid-way through a run of equal lines is not recognised, and its line would be posted again |
| Fingerprint.KeyTextInjective | src/lib/statements.ts:281-287 | The hashed text determines account, date, amount, direction, merchant, balance and occurrence whenever no merchant ends like a balance or an occurrence mark |
| Fingerprint.AmbiguousCollides | src/lib/statements.ts:281-287 | Every merchant that does end so collides with a line of another merchant: the condition is exact |
| Ledger.WindowIsFy | src/lib/minimise.ts:168-182 | A line in a year's window belongs to the year its rollup is labelled with |
| Ledger.PlusAssociates | src/lib/minimise.ts:235-251 | Adding lines to a rollup (count, cents, first and last date) is associative and order-free |
| Ledger.LedgerDb.FoldGroup | src/lib/minimise.ts:226-252 | Insert-if-absent and the guarded update add exactly the group's still eligible lines to its rollup |
| Ledger.GroupsGrow | src/lib/minimise.ts:214-252 | Folding group by group is folding line by line, for every key and every statement |
| Ledger.LedgerDb.ShrinkChunk | src/lib/minimise.ts:194-262 | One batch removes exactly the ids that are still eligible, adds exactly those lines to the rollups and entombs exactly their fingerprints; a row is left if and only if it was not asked for or something keeps it, so a stale id is kept by every statement |
| Ledger.LedgerDb.ShrinkYear | src/lib/minimise.ts:164-182 | The rounds of 500 and chunks of 80 together shrink exactly the lines eligible at the start |
| Ledger.LedgerDb.Minimise | src/lib/minimise.ts:127-192 | A run removes a row exactly when nothing in the books keeps it (Ledger.StaysIff) and its day is in a lodged year, and does nothing at all unless both flags are on |
| Ledger.StaysIff | src/lib/minimise.ts:44-87 | After a shrink a row is on file if and only if something keeps it: a tie to anything else, worth to the return, no decision, no everyday debit, or no lodged year it was held long enough in |
| Ledger.PickedUnlessStays | src/lib/minimise.ts:54-87 | The batch's predicate picks a row exactly when none of those reasons holds |
| Ledger.RollupsMean | src/lib/minimise.ts:211-243 | A rollup's count, cents, first and last day are those of before with the rows that went added, and every row that went is in one |
| Ledger.TombsMean | src/lib/minimise.ts:244-249 | Every line that went has a tombstone under its account and fingerprint with its year and statement; one already there stays, and there is no other |
| Ledger.ShrinksCompose | src/lib/minimise.ts:164-182 | Shrinking one set of lines and then another is shrinking both at once: chunking does not matter |
| Ledger.EligibilityKept | src/lib/minimise.ts:54-87 | Deleting eligible lines never makes another line eligible or ineligible |
| Ledger.SecondRunIdle | scripts/check-personas.ts:3476-3486 | A second run over the result finds nothing to shrink |
| LedgerRuns.StatementImport.ConfirmImport | src/agent.ts:743-797 | The import loop posts exactly the lines whose fingerprint is on file neither as a live line nor, while the minimisation flag is on, as a tombstone, and counts them |
| LedgerRuns.ImportPosts | src/agent.ts:743-797 | An import posts, for each line whose fingerprint is on no live row of the account and, with the flag on, under no tombstone, that line's row column by column, and nothing else |
| LedgerRuns.PurgeLeaves | src/agent.ts:1121-1154 | A purge removes the statement's bank lines, puts the receipts matched to them back to extracted, and with the flag on removes its rollups and tombstones; all else stays |
| LedgerRuns.SeenIsLog | src/agent.ts:743-754 | What counts as already seen is exactly what the posting log says |
| LedgerRuns.StepKeeps | scripts/check-personas.ts:3423-3518 | Import, edit, shrink of any ids, purge and deletion of one row, with the flag on or off, keep the books in agreement with the log if and only if the step does not post a line that was shrunk away; only an import with the flag off can |
| LedgerRuns.RunKeepsBooks | scripts/check-personas.ts:3448-3486 | After any such run, the live lines are exactly those posted, not removed and not shrunk, in order; the rollups hold exactly the counts, cents and dates of the shrunk ones; both together hold those of all; no line was posted twice; live lines and tombstones never overlap |
| LedgerRuns.InStepConserves | scripts/check-personas.ts:3423-3457 | Books in agreement with the log conserve, by account, statement, year and direction, its counts, cents and date ranges |
| LedgerRuns.EmptyBooksInStep | scripts/check-personas.ts:3358-3366 | Empty books satisfy that invariant, so the result applies to every run from scratch |
| LedgerMeaning.ImportIsJoin | scripts/e2e-first-timer.ts:123-138 | After an import the fingerprints on file are the old ones joined with the statement's |
| LedgerMeaning.ImportOrder | scripts/e2e-first-timer.ts:105-138 | Overlapping statements leave the same fingerprints on file whichever comes first |
| LedgerMeaning.SeenNeverShrinks | scripts/check-personas.ts:3463-3475 | Over any such run without a purge or a deleted row the set of seen fingerprints never loses an element |
| LedgerMeaning.ReimportPostsNothing | scripts/check-personas.ts:3463-3472 | Re-importing a statement after any such run posts nothing, however much of it was shrunk away |
| LedgerMeaning.PurgeForgets | src/lib/minimise.ts:321-334 | A purge forgets exactly the fingerprints its statement had posted |
| LedgerMeaning.PurgeThenReimport | scripts/check-personas.ts:3488-3502 | Purge and re-import restores exactly what was on file if and only if the file still holds every line the statement had posted and nothing new |
| LedgerMeaning.ShrinkTiesOut | src/lib/minimise.ts:360-403 | A shrink keeps a statement's line count always, and its expected closing balance if and only if the shrunk lines' two amounts do not drift apart |
| LedgerMeaning.ImportTiesOut | src/lib/minimise.ts:367-403 | A statement imported whole reads as complete and its expected balance is the opening one and the money paid in less the money paid out, the other way round on a liability |
| LedgerMeaning.RunTiesOut | src/lib/minimise.ts:360-403 | In any run from statements, a shrink leaves every expected balance as it was |
| LedgerMeaning.EligibleNeverCounts | src/lib/report.ts:59-89 | An eligible line never counts as a deduction while the exclusion flag is on; with it off it counts exactly when it is not an ignored transfer |
| LedgerMeaning.CountsIff | src/lib/report.ts:59-89 | A row counts as a deduction if and only if it is unmatched, converted money out of the year, borne by the user and claimed with a verdict its bucket accepts |
| LedgerMeaning.ShrinkKeepsSubtotals | scripts/check-personas.ts:3453-3460 | The count and the cents of any section of any year's deductions, property spend, company spend and money in are the same before and after a shrink, and so are the deductions |
| LedgerMeaning.NoDanglingLinks | src/lib/minimise.ts:80-86 | No remaining receipt, refund or duplicate points at a row that was shrunk |
| ReceiptLink.Tables.ApplyLink | src/lib/receipt-link.ts:82-126 | The link changes one receipt and one line; a column of the line that had a value keeps it and an empty one takes the donor's; the snapshot, stored for this line, records exactly the columns that changed |
| ReceiptLink.Tables.Link | src/agent.ts:1764-1770 | A link request is refused, and changes nothing, exactly when it does not name one of the tenant's receipts and another row that is a counting bank line, or money goes opposite ways |
| ReceiptLink.LinkFills | src/lib/receipt-link.ts:82-126 | A link donates only into empty columns, its snapshot is exactly what it filled, and no other row changes |
| ReceiptLink.Tables.Undo | src/lib/receipt-link.ts:140-180 | Undo's batch is the specified inverse and answers the line that was detached |
| ReceiptLink.LinkThenUndo | scripts/check-personas.ts:2203-2245 | Link then undo restores both rows if and only if the receipt had an ordinary status and the line's status was not lost |
| ReceiptLink.UndoLosesStatus | src/lib/receipt-link.ts:161-168 | The concrete case it does not: a line under review with no bucket, linked to a receipt with none, stays extracted |
| ReceiptLink.UndoKeepsEdits | src/lib/receipt-link.ts:128-139 | With any edit in between, each edited column keeps the edit, each untouched column goes back, and no other row changes |
| ReceiptLink.RelinkForgetsDonation | src/lib/receipt-link.ts:90-109 | Tapping a linked receipt onto its line again, or onto another, makes undo leave the first line's donated columns, unless there were none; the other line comes back |
| ReceiptLink.RelinkedIsKept | src/lib/receipt-link.ts:150-158 | A link made between undo's read and its batch is never undone |
| ReceiptLink.SpendMeans | src/lib/ledger-filter.ts:20-24 | Money out counts once, in full: a receipt only while on no line, and no row set aside as a duplicate or ignored |
| ReceiptLink.StaleSnapshotUnused | src/lib/receipt-link.ts:62-74 | A snapshot left over from another line is not used by Undo |
| ReceiptLink.PairCountsOnce | src/lib/ledger-filter.ts:20-24 | A linked pair counts for exactly its line, and after undo for exactly what it did before |
| ReceiptLink.UnlinkRestoresCount | src/agent.ts:1795-1805 | The manual unlink brings the count back if and only if the receipt was not set aside (or counted nothing) |
| ReceiptLink.RunAccounts | src/lib/receipt-link.ts:98-180 | Over any run of taps (of linked receipts too), auto-links, undos, unlinks, dismissals and edits elsewhere, a column holds its original value or the one value exactly one linked receipt filled in, until such a value is dropped |
| ReceiptLink.ColumnComesBack | src/lib/receipt-link.ts:128-180 | Once no receipt is on a line any more, an unedited column is what it was at the start if and only if no step linked again, or unlinked by hand, a receipt that had filled that column in |
| ReceiptLink.EditStays | src/lib/receipt-link.ts:164-170 | Over any run a value the user put in a column stays until the next edit if and only if no receipt that had filled in that same value is undone |
| ReceiptLink.UndonePairNotAutoLinked | src/agent.ts:1698-1742 | An undone pair is never linked again by the auto-matcher at any later point of any run |
| Proposer.PickIff | src/lib/reconcile-proposer.ts:134-190 | One pass over the lines within tolerance (best, runner-up, ceiling, cap) picks a line if and only if it is the confident match: it clears the bar and beats every rival by the margin |
| Proposer.ScoreIs | src/lib/reconcile-proposer.ts:23-32 | The score of two dated rows up to a week apart in cents and days: each cent costs its share of seven tenths, each day a seventh of three tenths |
| Proposer.ScoreFallsByDay | src/lib/reconcile-proposer.ts:26-31 | Of two lines of one amount, each day further away costs three seventieths, up to a week |
| Proposer.AmountAlone | src/lib/reconcile-proposer.ts:26-31 | With no date, or a week or more apart, only the amount counts, for at most seven tenths |
| Proposer.SameDaySameAmount | src/lib/reconcile-proposer.ts:23-32 | The same amount on the same day scores 1 |
| Proposer.ProposeMatches | src/lib/reconcile-proposer.ts:105-202 | The sorted pools, the binary search, the scan that stops early and the claim counts compute the specified proposals and the receipts without a line |
| Proposer.ProposedIff | src/lib/reconcile-proposer.ts:4-18 | A pair is proposed if and only if the line is the receipt's confident match and no other receipt's, whatever the lines, their order and the dismissals |
| Proposer.ProposedMeans | src/lib/reconcile-proposer.ts:9-18 | A proposed pair runs one way, was not rejected, is within six days and one percent (at least 50 cents), in the year, and beats every line that could have been meant by the margin |
| Proposer.ExactMatchProposed | src/lib/reconcile-proposer.ts:12-18 | A line of the receipt's own amount and day with nothing competing is proposed by default |
| Proposer.TwinsNotProposed | src/lib/reconcile-proposer.ts:12-15 | Of two lines alike in amount and date neither is proposed |
| Proposer.ConfidentBeatsAll | src/lib/reconcile-proposer.ts:172-181 | The ceiling for lines never scored only suppresses: a confident match beats every rival's real score by the margin |
| Proposer.ProposalsOneToOne | src/lib/reconcile-proposer.ts:191-202 | No receipt and no line is proposed twice, and no dismissed pair ever |
| Proposer.NoLineIff | src/lib/reconcile-proposer.ts:80-88 | A receipt is listed as having no bank line if and only if it is in the year, few enough lines are near in amount, and none of them is within a week |
| Proposer.UndonePairNeverProposed | scripts/check-personas.ts:2240-2250 | A pair the user undid is never proposed again, after any run of links, undos and edits |
| Supersession.Decide | src/lib/income-supersession.ts:99-124 | The loop over a taxpayer's peers computes the decision: replaced, covered by the first covering row, or overlapping |
| Supersession.DecidedMeans | src/lib/income-supersession.ts:82-124 | Which rows a new one replaces, overlaps or is covered by, in the columns of the two: one kind, one taxpayer, different documents, and one employer and year, or one property and year with one period inside the other |
| Supersession.CoveredMeans | src/lib/income-supersession.ts:110-124 | The covering row is on file and contains the new one, which does not contain it; then nothing is replaced |
| Supersession.IncomeBook.Retire | src/lib/income-supersession.ts:194-207 | Retiring row by row re-points credits, drops rows and fees and marks documents as retiring the whole set at once does |
| Supersession.UploadMeans | src/agent.ts:4187-4244 | What an upload does to rows, fees, bank credits and document markers: covered ones write a marker only, others replace what they restate, and all else stays |
| Supersession.CoveringIff | src/lib/income-supersession.ts:110-124 | A statement is covered if and only if some statement still counted strictly contains its period |
| Supersession.UploadsSettle | src/agent.ts:4187-4244 | After any sequence of rent statements the rows and fees on file are exactly those of the statements nothing restates |
| Supersession.OrderDoesNotMatter | scripts/check-personas.ts:3863-3909 | Confluence: every upload order of the same statements, for any properties, years and taxpayers, ends with the same rows and fees, when no two tie |
| Supersession.TieMakesOrderMatter | src/lib/income-supersession.ts:117-121 | Two uncovered statements over the very same period do make the order matter: the last upload wins |
| Supersession.OrderIrrelevantIff | src/lib/income-supersession.ts:110-124 | The condition is exact: every order of the same statements gives the same rows and fees if and only if no two of them tie for the longest period |
| Supersession.EachPeriodCountedOnce | scripts/check-personas.ts:3863-3909 | Every period uploaded is counted by a row on file and no two rows on file restate one another |
| Supersession.UploadKeepsCredits | src/lib/income-supersession.ts:187-198 | No upload leaves a bank credit pointing at a retired row; a credit moves only from a replaced row to its replacement |
| Supersession.FiledRows | src/agent.ts:4090-4130 | Filing one statement keeps all its own rows, two blocks of one employer included, and retires exactly the earlier rows that match one of them |
| Supersession.SalaryLastWins | src/agent.ts:4074-4130 | Salary rows on file, after statements with any number of employer blocks, are those for which no later statement has a row of the same employer, taxpayer and year |
| Supersession.SalaryOrderMatters | src/lib/income-supersession.ts:82-87 | Matching by ABN on one pair and by name on another is not transitive, so three statements can end as one row or two depending on order |
| Supersession.SalaryCountsOnceIff | src/lib/income-supersession.ts:82-105 | In every upload order each salary row is counted on file by exactly one statement if and only if no row ties two statements together of which the first has, for it, a row with no match in the second |
| Supersession.SingleRowsClash | src/lib/income-supersession.ts:82-105 | For statements of one row each, that is a row that bridges two others |
| Supersession.BridgesIff | src/lib/income-supersession.ts:82-87 | A row bridges two others exactly when one name stands under two ABNs, or one ABN under two names, and a row of that name carries no ABN |
| Calendar.FyUnique | src/lib/jurisdiction.ts:160-190 | A day's financial year is the one whose bounds contain it, and years order as days do |
| Calendar.YearLength | src/lib/jurisdiction.ts:160-173 | A financial year has 366 days exactly when it ends in a leap year, and ends the day before the next |
| Situation.MeetIff | src/lib/situation-profile.ts:141-144 | The overlap test holds if and only if the two ranges share a day |
| Situation.ClipExact | src/lib/situation-profile.ts:146-149 | Clipping to a year keeps exactly the period's days in that year |
| Situation.SituationBook.Post | src/lib/situation-write.ts:1071-1150 | A create adds one period, with what was sent and the dates sent (the active year when none were), that meets no rival, or changes nothing; a fill that meets an answer hands that answer back; soundness is kept |
| Situation.SituationBook.PatchPeriod | src/lib/situation-write.ts:1071-1150 | An edit changes exactly the one period, in place: each column sent holds what was sent (a date sent as none is cleared), the rest, its person and question stay; or it changes nothing; soundness is kept |
| Situation.CreateIff | src/lib/situation-write.ts:1071-1150 | A create is written if and only if it makes sense, person and linked record exist, fewer than twenty answers do, and none that may not share a day does; a fill is skipped exactly when one shares a day |
| Situation.EditIff | src/lib/situation-write.ts:1083-1150 | An edit is written under the same conditions, the edited period left out |
| Situation.SituationBook.DeletePeriod | src/lib/situation-write.ts:1157-1181 | A delete removes exactly the one period and changes no one else's occupation; soundness is kept |
| Situation.FindMirrorFy | src/lib/situation-profile.ts:353-364 | The loop finds the latest year up to the current one that a period reaches |
| Situation.MirrorFyIs | src/lib/situation-profile.ts:346-364 | That year is the latest, up to the current one, in which the person has a day, and the current one when there is none |
| Situation.LongestJobIs | src/lib/situation-profile.ts:366-386 | The longest job of a year has the most days in it, then the earliest first day, then the lowest id; there is one exactly when some job has a day in the year |
| Situation.RunSound | src/api.ts:814-842 | Over every run of create, fill, edit and delete, periods of a single-valued fact for one person never overlap |
| Situation.OneAnswerADay | scripts/check-personas.ts:2362-2419 | So the value of a single-valued fact on a date is unique |
| Situation.RunBounded | src/lib/situation-profile.ts:196-220 | Over every run at most twenty periods are kept for one person and fact |
| Situation.FillTwice | src/lib/situation-write.ts:1056-1069 | A fill adds one period or changes nothing, and filling again changes nothing |
| Situation.WriteMirrors | src/lib/situation-profile.ts:377-386 | A create or an edit of a job leaves the occupation the longest job of the mirror year if and only if some job has begun by the current year, or no occupation was there to linger |
| Situation.DeleteMirrors | src/lib/situation-write.ts:1157-1181 | After a delete the occupation is the longest remaining job, or is reverted, or is left alone, by exact cases |
| Situation.DeletedJobLingers | src/lib/situation-write.ts:1171-1178 | The deleted job's occupation lingers if and only if some job remains and all that remain start after the current year |
| Situation.RunMirrors | src/lib/situation-profile.ts:353-386 | Over every run, the occupation is the longest job as of the year the person's jobs were last written if and only if that last write or delete left some job that has begun, or an empty or reverted column |
| Situation.LingerWitness | src/lib/situation-write.ts:1171-1178 | A concrete case of it |
| FyClose.LodgedDateIsLastMark | src/lib/fy-signoff.ts:42-65 | Over any order of mark, unmark, sign-off, re-open, NOA confirm and undo, the lodged date is the last mark not undone; a lodged row is never deleted |
| FyClose.StatusKept | src/lib/fy-signoff.ts:42-65 | A row not closed by a NOA says lodged exactly when it has a lodged date, after every step |
| FyClose.StepKeepsClosed | src/api.ts:977-996 | A step keeps "closed exactly while a NOA is confirmed" if and only if it does not re-open a NOA-closed year with no lodged mark |
| FyClose.ReopenForgetsNoa | src/lib/situation-write.ts:648-657 | That step drops the sign-off row while the NOA stays confirmed |
| FyClose.DefaultYear | src/lib/lodging-year.ts:42-46 | The default year is last year if and only if last year is neither marked nor closed by a NOA |
| FyClose.NoaStore.Reconcile | src/lib/noa-store.ts:88-105 | The loop drops every confirmed record's capital-loss row and writes one for the latest assessed loss |
| FyClose.ReconcileRows | src/lib/noa-store.ts:82-105 | After reconciling, the NOA rows are those no record pointed at, plus the active one |
| FyClose.ConfirmTidy | src/lib/noa-store.ts:110-151 | Confirming keeps a single NOA capital-loss row if and only if no same-year record it supersedes held that row |
| FyClose.ConfirmKeeps | src/lib/noa-store.ts:110-151 | Confirming a draft confirms it, deletes every other confirmed record of its year and keeps all the rest |
| FyClose.RecordsKept | src/lib/noa-store.ts:153-183 | Undoing a NOA deletes its record only, and an upload replaces the drafts of its year only |
| FyClose.OwnLossesKept | src/lib/noa-store.ts:88-105 | A loss the user entered stays through every step but their own deletion of it |
| FyClose.SupersededLossStacks | src/lib/noa-store.ts:125-143 | Otherwise the superseded loss and the new one are both on file |
| FyClose.UndoTidy | src/lib/noa-store.ts:153-183 | Undoing any NOA keeps a single row: an earlier year's loss takes over |
| FyClose.RemoveTidy | src/api.ts:952-962 | Deleting a capital-loss row by hand keeps the single NOA row if and only if the row is the user's own |
| FyClose.RunGood | src/lib/noa-store.ts:110-183 | Every run (uploads that replace drafts, the user's own losses and their deletion included) without one of those three steps keeps both promises throughout |
| Diary.NormaliseDays | src/lib/wfh-diary.ts:125-133 | Seven days: a worked day keeps the hours sent, or the nearer of nothing and 24; a day off (any reason but "other") and a day not sent have none; with no days sent the usual ones |
| Diary.DiaryTotals | src/lib/wfh-diary.ts:145-165 | The nested loop computes the counted hours of the days that fall in the year |
| Diary.ListedCounts | src/lib/wfh-diary.ts:215-222 | Reading only weeks from six days before the year loses none of its hours |
| Diary.InUseIff | src/lib/wfh-diary.ts:224-231 | The diary is in use for a year exactly when a week starts in it or has hours on one of its days |
| Diary.WeekSplits | src/lib/wfh-diary.ts:144-154 | A week that straddles 30 June gives each day's hours to exactly one year |
| Diary.DiaryDb.SyncFy | src/lib/wfh-diary.ts:264-285 | The sync of one year writes exactly the specified row |
| Diary.DiaryDb.Save | src/lib/wfh-diary.ts:332-353 | Saving a week (guards, on-time or late, capture, both years) has the specified effect |
| Diary.SaveStores | src/lib/wfh-diary.ts:332-353 | When a save goes through, and what it stores: the one week, its days as sent or as usual, late after the second Sunday, first recorded when it was; every other week stays |
| Diary.FirstSaveHours | src/lib/wfh-diary.ts:264-353 | After the first week of a year with nothing typed, its hours are exactly those sent for the days worked, or none when rebuilt late from memory |
| Diary.FirstSaveKeeps | src/lib/wfh-diary.ts:264-285 | The save that brings the diary into use in a year with a row keeps the hours found there as those from before it, with their source only if they were the ones kept already |
| Diary.DiaryDb.Delete | src/lib/wfh-diary.ts:355-361 | Deleting a week has the specified effect |
| Diary.DeleteTakes | src/lib/wfh-diary.ts:355-361 | A delete takes the one week away when there is one for the Monday, and otherwise changes nothing |
| Diary.RunRights | scripts/check-personas.ts:3704-3730 | After every run of saves, late changes, deletes and edits, in every year the diary is in use for, the stored hours are the counted pre-diary hours plus the hours of counted weeks |
| Diary.RecordedAtKept | src/lib/wfh-diary.ts:343-347 | The first recorded time of a week never changes while it is on file |
| Diary.TypedHoursComeBack | src/lib/wfh-diary.ts:264-361 | From a year not in use, any run of saves, late changes and deletes that ends with it not in use restores the typed hours if and only if there were hours to keep or no step took it out of use through a week that only spilled into it, and no week without hours there came first where another figure had been kept |
| Diary.DeletedHoursStay | src/lib/wfh-diary.ts:275-284 | When the last week leaves a year it only spilled into and no figure was kept, the deleted hours stay on the row |
| Position.RefundNetting | src/lib/report.ts:391-409 | The netting loop computes the specified totals per expense and overall |
| Position.NettedIsCapped | src/lib/report.ts:391-409 | Refund by refund, what an expense is netted by is the smaller of what was refunded and what it contributed |
| Position.TotalIsSum | src/lib/report.ts:352-360 | The total netted is the sum of those figures over the refunded expenses |
| Position.UnmatchedApart | src/lib/report.ts:404-409 | A refund of no claimed expense is counted apart in full and nets nothing |
| Position.OrderIsIrrelevant | src/lib/report.ts:391-409 | The order of refunds changes neither an expense's netting nor the total |
| Position.LossStopsAtZero | src/lib/position.ts:59-65 | A carried loss never takes a position below zero or below where it started, and is used in full before it stops |
| Position.EndsMeet | src/lib/report.ts:931-960 | The two ends of the range meet exactly when everything left after refunds is resolved |
| Position.RangeNeverInverts | src/lib/report.ts:931-960 | The confirmed end is never below the tracked end and the gap is at most the deductions awaiting review |
| Position.CapIsNeeded | src/lib/report.ts:942-951 | Without the cap at netted spend the range inverts exactly when more is confirmed than tracked and the loss does not absorb it |
| Position.CarriedLoss | src/lib/ledger-totals.ts:540-546 | The year-by-year loop computes the carried balance |
| Position.BalanceIsWorstRun | src/lib/ledger-totals.ts:540-546 | That balance is the largest net loss of any run of years up to now, and never negative |
| Position.CurrentYearContinues | src/lib/ledger-totals.ts:557-571 | The figure shown for the current year is one more step of the same fold |
| Worksheet.Route | src/lib/accountant-schedule.ts:616-643 | The routing loop gives the property items and the work-related rows, as specified by the property figures' own and the headline's classifiers |
| Worksheet.SomeList | src/lib/report.ts:107-130 | Every ledger has the list of properties the results speak of, as long as no loan is on one the user rents as a tenant |
| Worksheet.Builder.Assemble | src/lib/mytax-worksheet.ts:442-545 | The worksheet's loops over property items, properties, rows, attributions and work methods put exactly the specified entries on the lines, each refund once |
| Worksheet.LineIsItsRows | src/lib/mytax-worksheet.ts:455-530 | Each line is the headline rows, attributions, loans and work methods that reach it, and the strays on it, less the refunds of the expenses first visited there; rows of a property the headline leaves out cancel |
| Worksheet.OneLineEach | scripts/check-personas.ts:2628-2674 | A headline row, and no other, reaches a line, and just one; so does an attribution of the individual's position, unless its property is one the user rents as a tenant |
| Worksheet.HeadlineIff | src/lib/report.ts:59-89 | A headline row is of a claimable bucket, borne by the user, on an earning property if on one, with a verdict that counts |
| Worksheet.ClaimIff | src/lib/attribution.ts:45-71 | Which attributions reduce the individual's position, a property's, or the company's |
| Worksheet.RefundOnItsLine | src/lib/mytax-worksheet.ts:442-453 | A refund is netted on the line its expense reaches |
| Worksheet.RefundVisited | src/lib/mytax-worksheet.ts:442-545 | A refund finds a line if and only if its expense is a headline row or an attribution the worksheet lists itself |
| Worksheet.RefundsConserved | src/lib/mytax-worksheet.ts:442-453 | Placed and unplaced refunds are always together what was netted |
| Worksheet.TiesBack | src/lib/mytax-worksheet.ts:669-680 | The lines sum to the report's own deductions, plus the strays and less the lost attributions; so the worksheet ties back if and only if those cancel, or refunds leave nothing to deduct either way |
| Worksheet.CleanLedgerTiesBack | scripts/check-personas.ts:2916-2925 | With no company or unbucketed spend tagged to a listed property and no attribution to a rented-in one, the worksheet always ties back |
| Worksheet.AllPlaced | scripts/check-personas.ts:2916-2925 | No refund stays unplaced when every netted expense is visited |
| CanonicalJson.NormalIsIdempotent | scripts/check-au-snapshot.ts:71-82 | A normal form normalises to itself |
| CanonicalJson.NormalDecides | scripts/check-au-snapshot.ts:66-82 | Two values have the same normal form if and only if they are equal up to key order and volatile keys at any depth |
| CanonicalJson.NormalObject | scripts/check-au-snapshot.ts:71-82 | A normalised object has its keys in order, no volatile one, and every other with its own value |
| CanonicalJson.LessIs | scripts/check-au-snapshot.ts:75 | That order is by code unit: a shorter beginning first, otherwise the smaller where they first differ |
| CanonicalJson.ValueReadable | scripts/check-au-snapshot.ts:86 | No printed value is the beginning of another: the indented text determines the value (sections 4 to 7 of RFC 8259) |
| CanonicalJson.EscLength | scripts/check-au-snapshot.ts:86 | Seven characters have a short escape, the other control characters a long one, all else is written as it is |
| CanonicalJson.StringReadsBack | scripts/check-au-snapshot.ts:86 | What is printed between quotes reads back as the string, by the escapes of section 7 of RFC 8259 |
| CanonicalJson.ArrayLayout | scripts/check-au-snapshot.ts:86 | A list is printed a part a line, two spaces further in, with commas between |
| CanonicalJson.ObjectLayout | scripts/check-au-snapshot.ts:86 | An object is printed a key a line, with a colon and a space before its value |
| CanonicalJson.TextDecides | scripts/check-au-snapshot.ts:66-86 | Two reports serialise to the same text if and only if they are equal up to key order and volatile keys |
| CanonicalJson.SplitThenJoin | scripts/check-au-snapshot.ts:102-103 | Splitting into lines loses nothing |
| CanonicalJson.LinesUnbroken | scripts/check-au-snapshot.ts:102-103 | No line has a line break in it, so the lines are the text's own |
| CanonicalJson.FirstDifference | scripts/check-au-snapshot.ts:101-105 | The scan returns the longest common line prefix, and when the texts differ at least one of them has that line |
| StripComments.StripAll | scripts/check-no-raw-colors.ts:41-47 | Length and newlines are kept, a character changes only to a space and only inside a comment, no comment is left, and stripping again changes nothing |
| StripComments.StripOnlyBlanksComments | scripts/check-no-raw-colors.ts:41-47 | Length and newlines are kept, and a character changes only to a space and only inside a comment |
| StripComments.BlocksBlank | scripts/check-no-raw-colors.ts:45 | The block pass keeps what is before the first opener, turns all up to its first close but line breaks into spaces, and goes on behind it |
| StripComments.NoBlocksLeft | scripts/check-no-raw-colors.ts:45 | With no opener that is closed behind it the block pass keeps the text |
| StripComments.LinesBlank | scripts/check-no-raw-colors.ts:46 | The line pass turns everything from two slashes not after a colon, a quote or a backslash to the end of the line into spaces |
| StripComments.InCommentMeans | scripts/check-no-raw-colors.ts:45-46 | What counts as inside a comment, in the characters themselves |
| StripComments.StripIsIdempotent | scripts/check-no-raw-colors.ts:41-47 | Nothing is left that either pattern matches, so stripping again changes nothing |
| StripComments.FindViolations | scripts/check-no-raw-colors.ts:49-58 | Every match of every rule's pattern in the stripped text is reported, with the line it is on in the original source |
| Bedrock.SeamIsSafe | src/llm.ts:244-327 | Every real client is the default API for an untainted tenant, or Bedrock signed for a region and model profile of its own jurisdiction |
| Bedrock.SeamIff | src/llm.ts:244-327 | Which client a tenant gets, case by case, from its profile, the environment and the jurisdiction |
| Bedrock.TaintedServedIff | src/llm.ts:99-131 | A tenant holding bank-feed data is served if and only if Bedrock resolves to a region of its jurisdiction with credentials; nothing falls back |
| Bedrock.ModelCheckIsVacuous | src/llm.ts:125-131 | The third residency check can never fail |
| Bedrock.Invoke | src/llm.ts:206-242 | One signature per fetch, always to the same target; the loop ends at the first reply not worth retrying or the last attempt allowed, with that reply's outcome: only 429, 500 and 502 to 504 are retried |
| Bedrock.LastIsUnique | src/llm.ts:185-205 | The last attempt is determined; no earlier reply was ok or a timeout, and there are at most max(0, m) retries |
| Bedrock.TotalSleep | src/llm.ts:226-233 | The call sleeps at most 250(2^m - 1) + 249m milliseconds, and not at all without retries |
| Bedrock.Create | src/llm.ts:303-327 | Every request of a tenant's call goes to the region and model of its client, in its jurisdiction and on its profile, at most three times, and the outcome is the last reply's |
| ObjectStore.Originals.ReceiveReceipt | src/agent.ts:295-356 | One row is added and its object is in the bucket; it is a duplicate exactly when a row that is none has the same image, and then carries its original's key; no stored object is written over; no orphan appears |
| ObjectStore.Originals.ReceiveDocument | src/agent.ts:3854-3936 | No row is lost and no stored object written over; a filed document's object holds the bytes received; a document is filed exactly when none on file has its image and the call does not throw, and an orphan appears exactly when it throws for a new one |
| ObjectStore.Originals.RemoveTransaction | src/agent.ts:6865-6919 | Exactly the row goes, and its object exactly when nothing left refers to it; every object something still refers to is as it was; no orphan appears |
| ObjectStore.Originals.RemoveDocument | src/agent.ts:4043-4061 | The document goes with its own rows, and its object exactly when no row left refers to it; every object something still refers to is as it was; no orphan appears |
| ObjectStore.DeletesSpareShared | src/lib/r2-store.ts:101-120 | No delete removes or changes an object that a remaining row or document refers to |
| ObjectStore.StepStrands | src/agent.ts:3880-3912 | A step leaves no unreferenced object if and only if it is not a new document whose model call throws |
| ObjectStore.RunStrandsNothing | src/agent.ts:295-356 | Over every run without such a step no object is ever left that nothing refers to |
| ObjectStore.ReuploadRestores | src/agent.ts:326-336 | After any run that spares the original, clearing of the bucket included, sending the receipt again files it under the original's key, puts the object back if it is gone and never overwrites it |

## Left out

- Fingerprint.KeyTextInjective: the account id is assumed to contain no bar, as generated ids do; dates print as plain numbers rather than with dashes.
- Fingerprint.StatementPrints: a line carries its merchant already cleaned and lower-cased; the cleaning of raw bank text is not modelled, and SHA-256 is an injective function.
- Ledger.LedgerDb.ShrinkYear: a SELECT reads the table in the order it is kept, not by id; nothing depends on that order.
- Ledger.LedgerDb.ShrinkChunk: the same batch's deletes of corrections, model traces and notifications are left out.
- Ledger.LedgerDb.Minimise: whether a year counts as lodged for retention (mark, NOA close, or the backstop date) and the candidate years are parameters; the audit rows and notices are not written.
- LedgerRuns.RunKeepsBooks: bank-feed lines are posted only as statement lines are; a user's edit may change any column except those fixed when a line is posted.
- LedgerRuns.StatementImport.ConfirmImport: the reconciliation gate before the loop, the chunks of 50 inserts and the categoriser's choice of status and bucket are parameters or left out.
- LedgerMeaning.ShrinkKeepsSubtotals: the descriptive listing of spend that is not claimed loses the shrunk lines by design; refunds read no shrinkable row (LedgerMeaning.NoDanglingLinks).
- ReceiptLink.UndonePairNotAutoLinked: the auto-matcher's scoring of candidates is left out, only its filters are modelled; links are those made with reconcile_proposals on, and deleting a receipt or a line is not a step.
- Proposer.ProposeMatches: the order proposals are shown in and the list of ambiguous receipts are left out.
- Supersession.OrderDoesNotMatter: statements whose property was not resolved and partial overlaps are flagged for review by the code and are outside this result.
- Supersession.SalaryLastWins: names and ABNs are the normalised ones; rows typed in by hand and blocks with no readable period are left out.
- Situation.RunSound: the pack's list of facts, values and references is a parameter of each write; the residency and private-health mirrors are left out.
- FyClose.LodgedDateIsLastMark: the validation of the lodged day itself is left out.
- FyClose.ConfirmTidy: the year-specific opening-depreciation row of a NOA is left out.
- Diary.RunRights: the diary's CSV export and the whole-year generator are left out.
- Position.RangeNeverInverts: the summands both ends share are one number.
- Worksheet.TiesBack: the markers a query computes for a row's property are given with the row; property items are visited in row order, not grouped by property, which no refund can tell apart; the income and depreciation tie-backs are left out.
- CanonicalJson.TextDecides: keys sort by code unit; an engine moves integer-like keys first, which is also a fixed order. Numbers are their printed text; undefined values are left out.
- StripComments.FindViolations: the colour patterns themselves are parameters: any function from a text to the positions of its matches.
- Bedrock.Invoke: request signing, the response body and usage metering are left out.
- ObjectStore.DeletesSpareShared: multi-image receipts and statement originals are left out; one tenant only.
- HTTP routing, authentication, payments, cron and the browser interface: no property of their own.
- Language-model extraction and categorisation, rule-pack content and wording: no decidable contract.
- FX rates, GST, CGT discounts and cents-per-kilometre tables: one-line arithmetic.
- The purge of a whole tenant, gzip and image compression: library behaviour.
- The rental settlement and corrections log: they would only add easy members.
