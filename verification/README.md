# Procurement workflow: verified model

A Dafny model of the state-changing core of a procurement workflow backend, with proofs about every
run of it. `dafny verify dfyconfig.toml` checks the whole project.

Each service is modelled with its in-memory repository: the lists and dictionaries are fields of a
class, a public method is one transaction, and an exception means that nothing was committed. The
methods follow the source's loops and assignments and are tied to functions on the tables; the
theorems are about those functions and about every run of calls.

| modules | what they are about |
|---|---|
| `Money`, `PaymentNumbers`, `Ledger`, `PaymentServices` | the append-only payment ledger, its cached totals, payment numbers, budgets, and the undo of voucher files |
| `Documents`, `DocumentServices`, `DocumentLocks` | document versions and latest flags, in sequence on document objects, and interleaved under advisory locks |
| `Snapshots`, `ArchiveRows`, `Archive`, `ArchiveServices` | archive snapshots printed and parsed back, and projects moving between live and archive tables |
| `ProjectGraph`, `ProjectStores` | the ordered delete of a project and all rows that depend on it, under foreign keys |
| `Calendar`, `Schedules`, `ReportRuns` | the Gregorian calendar, the next run of a schedule, and the retrying batch of due reports |
| `Handover`, `HandoverServices` | the handover protocol and the transfer of projects |
| `DedupKeys`, `Notifications`, `DigestRuns`, `NotificationServices` | same-day suppression and daily digests |
| `Deliveries` | the bounded retry machine of external deliveries |
| `SheetTitles`, `RateLimit`, `OAuth`, `Partitions` | worksheet titles, the request limiter, account bindings and login states, audit-log partitions |
| `Wrappers`, `Text`, `Sequences` | shared: results, decimal text and string order, sorting, filtering and grouping |

Amounts are integer cents, or `real` before rounding. Times are integer microseconds, real seconds
where only order and distance matter. A time zone is a fixed offset. Identifiers drawn by `uuid4` are
inputs that are assumed new. What the outside world does (a clock, a storage backend, a commit, a
channel, a query) is an input of the call, for example the set of steps that raise; `Fault` stands for
such an exception. So a contract says exactly when a call succeeds.

Where the code does less than one might expect, the model keeps the code and the exact condition is proved:

- Soft deleting a phase keeps `is_latest`, and moving a document demotes its new siblings even in
  multi-instance types: `Documents.SoftDeleteUncovers`, with a run that ends so in
  `Documents.SoftDeleteUncoversRun`, and `Documents.MoveDemotesSiblings`.
- A notification whose receiver already has a digest for that day is marked as sent but is in no
  digest: `DigestRuns.RunTakes`, over runs `DigestRuns.RunDigestsOnce`, with a run in which it happens in
  `DigestRuns.LateNotificationDropped`.
- Receivers that are reached only by external channels are messaged again by every repeated call:
  `Notifications.ResendAddsNothing`.
- Two windows can meet in one minute: the limiter lets up to 2*limit - 1 requests pass, and
  that many do: `RateLimit.MinuteBound`, `RateLimit.RunMinuteBound`, `RateLimit.MinuteBoundIsReached`.
- Partition runs that are too far apart leave months without a partition: `Partitions.RunsLeaveNoGap`.
- A restore does not read the project type and the workflow version: `ArchiveRows.MainRoundTrip`, `ArchiveRows.SubRoundTrip`.
- A single pass over the payments would be blocked: `ProjectGraph.OnePassBlocked`.

## Model

| member | source | states |
|---|---|---|
| Money.ToMoneyIsNearest | backend/app/services/payments.py:1024-1027 | rounding an amount to cents gives the nearest cent, and the even one on a tie |
| Money.ToMoneyNegates | backend/app/services/payments.py:1024-1027 | rounding commutes with negation, so a reversal rounds to the exact opposite |
| Money.ToMoneyMonotone | backend/app/services/payments.py:1024-1027 | a larger amount never rounds to fewer cents |
| Money.ToMoneyExact | backend/app/services/payments.py:1024-1027 | an amount that is already in cents is kept |
| PaymentNumbers.LastSeparator | backend/app/services/payments.py:1013-1021 | the last "-PAY-" of a generated number is the generated one, even if the project number contains the separator |
| PaymentNumbers.SequenceRoundTrip | backend/app/services/payments.py:1013-1021 | parsing a generated number gives back its sequence, for every project number and every sequence of any width |
| PaymentNumbers.PaymentNoInjective | backend/app/services/payments.py:565-569 | two equal payment numbers have the same project number and the same sequence |
| PaymentNumbers.NextSequenceFromPaymentNumbers | backend/app/services/payments.py:1013-1021 | the loop, numbers that cannot be parsed skipped: one more than the largest sequence, at least 1 |
| PaymentNumbers.NextIsFresh | backend/app/services/payments.py:565-569 | a number made with the next sequence differs from all the existing ones |
| PaymentNumbers.OtherProjectsDiffer | backend/app/services/payments.py:666-670 | numbers of projects with different project numbers never clash |
| Ledger.SumIsLive | backend/app/services/payments.py:448-458 | in a history where each reversal negates a distinct earlier normal payment of its sub-project, the sum of all rows is the sum of the normal payments that have no reversal |
| Ledger.CreatedValid | backend/app/services/payments.py:550-609 | a created payment keeps the history, number and total invariant |
| Ledger.CreatedMeans | backend/app/services/payments.py:562-609 | a payment books one normal row of exactly the amount with the next number of its sub-project, consecutive document versions and a voucher each; the totals of its sub-project and of the main project rise by the amount, all other rows stay |
| Ledger.AdmitMeans | backend/app/services/payments.py:550-561 | a payment is admitted exactly for an unlocked sub-project with a payment phase and a main project, within the budget or confirmed with a reason |
| Ledger.ReversedValid | backend/app/services/payments.py:647-688 | a reversal keeps the history, number and total invariant |
| Ledger.ReversedMeans | backend/app/services/payments.py:655-688 | a reversal books one row of the negated amount that names the payment; both totals fall by it, documents and all other rows stay |
| Ledger.AdmitReversalMeans | backend/app/services/payments.py:647-660 | a payment can be reversed exactly if it is a normal one of the sub-project and no reversal names it |
| Ledger.RunTotals | backend/app/services/payments.py:779-790 | over every run of payments, reversals and project edits: each sub-project total is the sum of its unreversed normal payments and not negative, each main total is the sum over its sub-projects, payment numbers are distinct |
| Ledger.RunWithinBudget | backend/app/services/payments.py:871-895 | over every run without a confirmed over-budget payment and without a budget cut below its old value, no sub-project spends more than its budget |
| PaymentServices.PaymentService.CreateVoucherDocuments | backend/app/services/payments.py:897-945 | one file and one document per upload with consecutive versions after the highest of the group; the saved keys are exactly those before the first save or flush that raises, and the call raises exactly when one does |
| PaymentServices.PaymentService.DeleteSavedContents | backend/app/services/payments.py:1005-1010 | goes on after a delete that raises: of the given keys exactly those whose delete raises stay, and no other file goes |
| PaymentServices.PaymentService.Record | backend/app/services/payments.py:588-609 | the writes between the vouchers and the commit: rows appended, both totals recomputed from the rows |
| PaymentServices.PaymentService.CreatePayment | backend/app/services/payments.py:533-613 | on success exactly one row of the rounded amount, with its documents in files of their own, and the two totals raised by it; success exactly for an allowed caller, a positive amount, fitting uploads, a payable sub-project and no step that raises; on any failure no row changes and the file store is as before, except for the saved keys whose delete raises |
| PaymentServices.PaymentService.ReversePayment | backend/app/services/payments.py:634-694 | on success exactly one row of the negated amount and the two totals lowered by it; success exactly for an allowed caller, a remark, a reversible payment and no step that raises; on failure nothing changes |
| Documents.RunLatest | backend/app/services/documents.py:434-799 | over every run of uploads, deletes, reclassifications and soft deletes: versions positive and distinct in a group, at most one live latest document per single-instance group and it has the highest live version; without soft deletes every single-instance group with a live document has one |
| Documents.RunValid | backend/app/services/documents.py:434-799 | the same from any valid table |
| Documents.UploadedMeans | backend/app/services/documents.py:434-482 | an upload adds one live latest document with the next version of its group; the latest flags of the group go, but a voucher, a supplier quote or an acceptance report of a step changes no other row |
| Documents.DeletedMeans | backend/app/services/documents.py:510-534 | a delete marks one document and makes the highest live sibling the latest, except in the multi-instance types; no other row changes |
| Documents.MovedMeans | backend/app/services/documents.py:715-757 | a move gives the next version of the new type, takes the latest flag from its group and gives that of the old group to the highest live sibling; no other row changes |
| Documents.SoftDeleteUncovers | backend/app/services/documents.py:787-799 | a soft delete leaves a group with live documents and no latest one exactly when the group of that phase had a live document that was not latest |
| Documents.SoftDeleteUncoversRun | backend/app/services/documents.py:434-799 | two uploads into any single-instance group and a soft delete of its phase, from the empty table, leave a live document and no latest one |
| Documents.MoveDemotesSiblings | backend/app/services/documents.py:748-751 | reclassifying takes the latest flag from every document of the new group, multi-instance types included, where an upload leaves it alone |
| Documents.MovedInSteps | backend/app/services/documents.py:736-757 | promoting a sibling, clearing the new group and assigning the document, one after the other, is the move |
| Documents.DeleteCovered | backend/app/services/documents.py:510-534 | after a delete every single-instance group with a live document still has a latest one |
| DocumentServices.DocumentStore.ListGroup | backend/app/services/documents.py:315-329 | the loop lists exactly the group, highest version first |
| DocumentServices.DocumentStore.Upload | backend/app/services/documents.py:434-482 | in place on document objects: succeeds exactly when save and commit do; then one live latest document with the next version of its group is there and one file is added; otherwise the rows are the old ones, and so are the files unless the delete of the saved one raises |
| DocumentServices.DocumentStore.DeleteDocument | backend/app/services/documents.py:494-538 | succeeds exactly for a live document when every check and the commit pass, and then marks it and promotes the highest live sibling; exactly one outcome for every input, in the order of the checks |
| DocumentServices.DocumentStore.ConfirmDocumentType | backend/app/services/documents.py:610-636 | succeeds exactly for a live latest document of another type, a caller who sees it and a commit that passes, and then moves it; any failure leaves the table |
| DocumentServices.DocumentStore.MoveAt | backend/app/services/documents.py:715-757 | the in-place loops over two groups do the move |
| DocumentServices.DocumentStore.SoftDeletePhaseDocuments | backend/app/services/documents.py:787-799 | succeeds exactly when the phase exists and the commit works; marks exactly the latest documents of the phase, those already deleted included, and returns them |
| DocumentLocks.RunValid | backend/app/services/documents.py:220-231 | in every interleaving of uploads and reclassifications of distinct documents under the group locks, versions stay positive and distinct per group |
| DocumentLocks.ActionIsAtomic | backend/app/services/documents.py:434-444 | each interleaved action either leaves the committed rows alone or places one row with the version that follows the table at that moment |
| DocumentLocks.NoWaitCycle | backend/app/services/documents.py:715-722 | taking the locks in sorted type order, no reachable state has a cycle of waiting transactions |
| DocumentLocks.SomeoneCanGoOn | backend/app/services/documents.py:715-722 | while a transaction is running, some transaction can acquire, read or commit |
| Snapshots.UuidRoundTrip | backend/app/services/archives.py:936-937 | a printed UUID parses back to itself |
| Snapshots.DateRoundTrip | backend/app/services/archives.py:957-958 | a printed date parses back to itself, for every valid date up to year 9999 |
| Snapshots.DateTimeRoundTrip | backend/app/services/archives.py:945-946 | a printed date-time parses back to itself, with or without microseconds and offset |
| Snapshots.AmountRoundTrip | backend/app/services/archives.py:864-884 | a printed amount parses back to itself, negative ones included |
| ArchiveRows.MainRoundTrip | backend/app/services/archives.py:887-902 | a main project printed column by column and read back is the row without its project type |
| ArchiveRows.SubRoundTrip | backend/app/services/archives.py:905-923 | a sub-project printed column by column and read back is the row without its workflow version |
| ArchiveRows.StatusRoundTrip | backend/app/services/archives.py:868-884 | every status is read back from its text; a main project never reads as terminated |
| Archive.InExactlyOneTable | backend/app/services/archives.py:643-738 | a stored main project is in exactly one of the live and the archive table |
| Archive.ArchivedMoves | backend/app/services/archives.py:643-738 | a run moves exactly the projects that have been closed for at least 730 days and have no open sub-project, each with its sub-projects, every row into an archive row with its columns and a snapshot that reads back |
| Archive.InstantIncreases | backend/app/services/archives.py:435-449 | a point in time is later exactly when its date and time of day are, in one zone; years, months and leap days included |
| Archive.InstantMeans | backend/app/services/archives.py:435-449 | the same local time is as many minutes earlier as its zone is east of UTC, and a day later the next day; a time without a zone is in UTC |
| Archive.ArchivedValid | backend/app/services/archives.py:643-738 | an archive run keeps the invariant and conserves the bag of main projects and the bag of sub-projects |
| Archive.ArchivedCounts | backend/app/services/archives.py:653-718 | the live tables shrink by exactly the reported numbers |
| Archive.RestoreSucceeds | backend/app/services/archives.py:740-789 | in a valid state a restore succeeds exactly when the archive row exists and no project number is taken; reading the snapshots never fails |
| Archive.RestoreMeans | backend/app/services/archives.py:740-789 | in a valid state a restore succeeds exactly when the row exists and no live number is that of the project or of an archived sub-project of it; the project and its sub-projects are then live as their snapshots say, and exactly their archive rows are gone |
| Archive.RestoredValid | backend/app/services/archives.py:776-789 | a restore keeps the invariant, unique live numbers included, and conserves both bags |
| Archive.SubFollowsMain | backend/app/services/archives.py:740-789 | a sub-project is live exactly when its main project is |
| Archive.SameSubs | backend/app/services/archives.py:740-789 | a main project that is live in two states with the same stored sub-projects has the same live ones in both |
| Archive.NoClash | backend/app/services/archives.py:754-775 | right after an archive run no live number clashes with a project it archived |
| Archive.ArchiveThenRestore | backend/app/services/archives.py:643-789 | archive then restore succeeds and gives back the main row and exactly its sub-projects, every column but the project type and the workflow version |
| Archive.EmptyValid | backend/app/services/archives.py:405-424 | empty tables are a valid start of a run |
| Archive.RunConserves | backend/app/services/archives.py:643-789 | over every run of archives, restores and openings, what is stored is what was there and what was opened |
| Archive.RunKeepsProjectsWhole | backend/app/services/archives.py:643-789 | over every run each main project is in exactly one table and its sub-projects are all with it |
| ArchiveServices.ArchiveRepository.Rollback | backend/app/services/archives.py:578-588 | puts back the five tables of the begin, or changes nothing without one |
| ArchiveServices.ArchiveRepository.DeleteProjectGraph | backend/app/services/archives.py:563-573 | removes the listed projects and their sub-projects, or raises and removes nothing |
| ArchiveServices.ArchiveService.AddMainArchives | backend/app/services/archives.py:675-690 | the loop appends one archive row per project, in order, with its name, status, closing time, snapshot and times |
| ArchiveServices.ArchiveService.AddSubArchives | backend/app/services/archives.py:691-707 | the loop appends one archive row per sub-project, in order, with its name, status, closing time, snapshot and times |
| ArchiveServices.ArchiveService.ArchiveEligibleProjects | backend/app/services/archives.py:643-738 | succeeds exactly when no query, delete or commit raises; a failed run leaves all five tables as they were; a successful one moves exactly the projects closed for 730 days without open sub-projects, and before minus after is the reported count |
| ArchiveServices.ArchiveService.RestoreMainProject | backend/app/services/archives.py:740-789 | succeeds exactly for an administrator, an existing archive row with free numbers and no step of the store that raises, and then brings back the project and its sub-projects; which error otherwise, in which order; all or nothing |
| ProjectGraph.CascadeStops | backend/app/services/archives.py:303-391 | no cascaded row is itself referred to by a cascade or a restriction, so one level of cascading is complete |
| ProjectGraph.DoomedIsLeast | backend/app/services/archives.py:303-391 | the removed rows are the least set that contains the main projects and everything bound to it by references |
| ProjectGraph.KindStep | backend/app/services/archives.py:323-391 | a table can be cleared without a blocked reference once every table that refers to it is cleared |
| ProjectGraph.DocumentStep | backend/app/services/archives.py:338-339 | deleting the documents is not blocked once the vouchers are gone, and takes exactly their search entries along |
| ProjectGraph.ReversalStep | backend/app/services/archives.py:330-336 | the first payment pass is not blocked, because nothing refers to a reversal |
| ProjectGraph.PaymentStep | backend/app/services/archives.py:337 | the second payment pass is not blocked, because all reversals of removed payments are gone |
| ProjectGraph.OnePassBlocked | backend/app/services/archives.py:330-337 | one pass over the payments would be blocked exactly when one of them has been reversed |
| ProjectGraph.MainStep | backend/app/services/archives.py:391 | deleting the main projects is not blocked and completes the removal, whether or not there were sub-projects |
| ProjectGraph.PurgedRefersToNoneGone | backend/app/services/archives.py:303-391 | no row that is left refers to a removed row by any column |
| ProjectGraph.PurgedConsistent | backend/app/services/archives.py:303-391 | the store that is left is consistent again |
| ProjectStores.ProjectStore.Delete | backend/app/services/archives.py:329-337 | one DELETE: aborted exactly when a restriction is violated, otherwise with its cascades |
| ProjectStores.ProjectStore.DeletePayments | backend/app/services/archives.py:323-337 | the voucher statement and the two payment statements, with their guards |
| ProjectStores.ProjectStore.DeletePhases | backend/app/services/archives.py:347-360 | the step, task and phase statements, with their guards |
| ProjectStores.ProjectStore.DeleteSubProjects | backend/app/services/archives.py:361-390 | the six statements on the sub-projects |
| ProjectStores.ProjectStore.DeleteProjectGraph | backend/app/services/archives.py:303-391 | on a consistent store no statement is blocked, and what is left is the store without the projects and all that depends on them |
| Schedules.NextRunUnique | backend/app/services/custom_reports.py:751-805 | there is only one next run |
| Schedules.FiresMeans | backend/app/services/custom_reports.py:766-821 | a schedule fires at its local time on every day, on the weekday counted from Monday as 1, or on the day of the month or the last day of a shorter month |
| Schedules.MonthlyCandidate | backend/app/services/custom_reports.py:808-821 | the firing of a month, the day clamped to its length; an error exactly for a day below 1 |
| Schedules.CalculateNextRunAt | backend/app/services/custom_reports.py:751-805 | the result is the least time after the given one at which the schedule fires, for every date, frequency and fixed offset; an error exactly without a time of day or for a monthly day below 1 |
| Schedules.DailyRun | backend/app/services/custom_reports.py:766-770 | today or tomorrow is the first firing |
| Schedules.WeeklyRun | backend/app/services/custom_reports.py:771-781 | the weekday arithmetic modulo 7 finds the first firing, whatever number the weekday setting holds |
| Schedules.MonthlyRun | backend/app/services/custom_reports.py:783-805 | this month or the next is the first firing, across year ends and short months |
| Schedules.MonthDayIncreases | backend/app/services/custom_reports.py:808-821 | clamped firings are later in later months |
| Calendar.MonthStartNext | backend/app/services/custom_reports.py:818 | months follow one another without a gap, also across year ends and leap years |
| Calendar.NextDayMeans | backend/app/services/custom_reports.py:771-818 | ordinals and weekdays go on by one from each day to the next on the calendar, from Monday, the first of January of the year 1 |
| Calendar.OrdinalIncreases | backend/app/services/custom_reports.py:771-818 | ordinals are in the order of the dates |
| ReportRuns.ReportService.NextRunAtForReport | backend/app/services/custom_reports.py:733-748 | the next run is computed from one second after the finish; an error exactly for a schedule that has none |
| ReportRuns.ReportService.ExecuteScheduledRun | backend/app/services/custom_reports.py:643-690 | an attempt completes exactly when its steps work and the schedule has a next run, and has then rescheduled the report from its finish; a failure may come before or after that |
| ReportRuns.ReportService.MarkScheduledRunFailed | backend/app/services/custom_reports.py:692-714 | a run is marked as failed exactly when the schedule has a next run and the steps after it work, and the report is then rescheduled from that moment |
| ReportRuns.ReportService.RunScheduledReport | backend/app/services/custom_reports.py:516-564 | raises exactly in the stated cases; otherwise the run ends with the first attempt of at most max(1, max_attempts) that completes, or as failed after all of them, and its report is rescheduled past the finish plus one second |
| ReportRuns.ReportService.ListDueScheduledReports | backend/app/services/custom_reports.py:273-284 | exactly the due reports, each once, earliest first |
| ReportRuns.ReportService.RunDueScheduledReports | backend/app/services/custom_reports.py:491-514 | the due reports are handled earliest first, each with its own finished run, up to the first one that raises; other reports are untouched; the counts are the numbers of completed and failed runs |
| Sequences.UniqueMeans | backend/app/services/handover_requests.py:765-769 | keeping first occurrences gives the same members, each once |
| Sequences.SortSorted | backend/app/services/archives.py:435-449 | sorting by an order gives a list in that order |
| Sequences.CollectUnique | backend/app/services/notifications.py:1160-1168 | the loop over a seen list keeps the first occurrences |
| Handover.ChainMeans | backend/app/services/handover_requests.py:600-631 | the recursive chain condition means: givers differ from receivers, each receiver is the next giver, the last receiver is the holder |
| Handover.ApplyValid | backend/app/services/handover_requests.py:376-588 | every call keeps chains, leaders and request conditions; a forced request had waited seven days, an approved one was accepted and reviewed |
| Handover.RunKeepsChain | backend/app/services/handover_requests.py:590-695 | over every run the records of a project form a chain that ends at its manager, who holds the one leader row |
| Handover.ApplyProgress | backend/app/services/handover_requests.py:450-588 | a call moves a request only along the protocol, never changes a finished one and keeps its parties |
| Handover.RunFinishedStays | backend/app/services/handover_requests.py:450-588 | over every run a finished request never changes |
| Handover.TransferValid | backend/app/services/handover_requests.py:590-648 | the transfer loop keeps the invariant over all of its projects |
| Handover.TransferMeans | backend/app/services/handover_requests.py:590-648 | a transfer succeeds exactly when all projects are active, managed by the giver and listed once; then each has the receiver as manager and leader, the giver as member, and one record, and nothing else changes |
| Handover.SubmitMeans | backend/app/services/handover_requests.py:376-448 | a project leader proposes exactly own active projects to another active leader; the request is pending and linked once to each project |
| Handover.AnswerMeans | backend/app/services/handover_requests.py:450-484 | only the candidate of a pending request answers: accepting makes it wait for review, refusing ends it, no project changes |
| Handover.DecideMeans | backend/app/services/handover_requests.py:486-539 | only an administrator or the manager of the department of all projects decides a request under review: approving transfers every linked project, rejecting changes no project |
| Handover.ForceMeans | backend/app/services/handover_requests.py:541-588 | only an administrator forces a request, unanswered for seven days, and every linked project is transferred |
| Handover.RunAccounted | backend/app/services/handover_requests.py:590-648 | over every run the handover records are exactly the projects of the approved and forced requests, once per request |
| HandoverServices.HandoverRequestService.UpsertMembers | backend/app/services/handover_requests.py:662-695 | demotes the old leader row and adds or promotes the new one |
| HandoverServices.HandoverRequestService.ApplyTransferLoop | backend/app/services/handover_requests.py:590-648 | the loop is the transfer of all projects, or stops with the error of the first bad one |
| HandoverServices.HandoverRequestService.SubmitRequest | backend/app/services/handover_requests.py:376-448 | exactly one outcome for every input; on success one pending request linked once to each of the projects |
| HandoverServices.HandoverRequestService.AnswerCandidate | backend/app/services/handover_requests.py:450-484 | exactly one outcome for every input; accepted it waits for review, refused it is rejected by the candidate; a failure changes nothing |
| HandoverServices.HandoverRequestService.Decide | backend/app/services/handover_requests.py:486-539 | succeeds exactly when the decision may be made; approved, every linked project has the receiver as manager; rejected, no project, member or record changes; a failed approval undoes the projects already transferred |
| HandoverServices.HandoverRequestService.ForceRequest | backend/app/services/handover_requests.py:541-588 | succeeds exactly for an administrator after seven days without an answer; every linked project is transferred; a failed transfer undoes everything |
| DedupKeys.KeyInjective | backend/app/services/notifications.py:1035-1042 | equal keys of scenarios without a colon have the same scenario, receiver, source and day, colons in the source or not, for every year |
| DedupKeys.KeyInjectiveInScenario | backend/app/services/notifications.py:1035-1042 | within one scenario this needs no condition on the scenario |
| DedupKeys.ColonCollides | backend/app/services/notifications.py:1035-1042 | with a colon in a scenario two different notifications share a key |
| Notifications.SendStores | backend/app/services/notifications.py:758-820 | afterwards a key is stored exactly if it was before or its receiver was addressed with in-app notifications on |
| Notifications.SendMeans | backend/app/services/notifications.py:758-832 | a call adds one notification, in the mode of the preference and in real time by default, for each receiver with in-app notifications on and no stored key, and one message over each channel that a receiver without stored key has on |
| Notifications.ResendAddsNothing | backend/app/services/notifications.py:758-832 | repeating a call on the same day stores nothing and messages exactly the receivers with in-app off, an external channel on and no stored notification with that key |
| Notifications.LocalDayIsUtcRange | backend/app/services/notifications.py:526-533 | for a fixed offset, the local-date filter and the UTC range filter select the same times |
| Notifications.PendingMeans | backend/app/services/notifications.py:617-633 | the pending list holds exactly the rows that match the window, each once |
| Notifications.DigestHoldsAll | backend/app/services/notifications.py:1122-1152 | grouping by scenario and sorting keeps every item exactly once |
| Notifications.DigestShape | backend/app/services/notifications.py:1122-1152 | a digest has one group per scenario, in order, with exactly the notifications of that scenario, oldest first, and their number |
| Notifications.CountsSumToTotal | backend/app/services/notifications.py:1122-1152 | the group counts of a digest sum to its total |
| DigestRuns.RunTakes | backend/app/services/notifications.py:895-962 | a run puts every pending notification into exactly one digest, except those whose receiver already has one for that day, which end in none |
| DigestRuns.NothingPending | backend/app/services/notifications.py:902-956 | after a run nothing is pending in its window |
| DigestRuns.DigestsAreOwn | backend/app/services/notifications.py:916-950 | the digests of a run are of its day, and each holds only pending notifications of its own receiver |
| DigestRuns.RunReducesWaiting | backend/app/services/notifications.py:951-962 | a run takes as many notifications out of the waiting ones as it reports |
| DigestRuns.SentValid | backend/app/services/notifications.py:758-820 | a send keeps the keys distinct and leaves the digests alone |
| DigestRuns.GeneratedValid | backend/app/services/notifications.py:895-962 | a digest run keeps the keys distinct and every notification in at most one digest |
| DigestRuns.SuppressedBySame | backend/app/services/notifications.py:778-812 | a send is suppressed only by a notification with the same scenario, receiver, source and day |
| DigestRuns.RunValid | backend/app/services/notifications.py:758-962 | over every run of sends and digests no two notifications share a key and every notification is in at most one digest |
| DigestRuns.BatchTakes | backend/app/services/notifications.py:985-1001 | digest runs for disjoint lists of receivers: what is pending in one of the windows is marked and in exactly one more digest, unless its receiver had one of that day before the batch; all other notifications and memberships stay |
| DigestRuns.RunDigestsOnce | backend/app/services/notifications.py:758-962 | over every run a notification that was marked as sent is in exactly one digest, unless it was marked when its receiver already had a digest of that day; one that is not marked is in none |
| DigestRuns.LateNotificationDropped | backend/app/services/notifications.py:919-956 | from the empty table, a notification on each side of the move of a receiver from one time zone to another leaves the second one marked as sent and in no digest |
| NotificationServices.NotificationService.Send | backend/app/services/notifications.py:758-832 | the loops add exactly the notifications and send exactly the messages that the preferences of the receivers ask for |
| NotificationServices.NotificationService.SendExternalChannels | backend/app/services/notifications.py:1089-1120 | the two loops send to every enabled channel of every receiver without a stored notification |
| NotificationServices.NotificationService.GroupByReceiver | backend/app/services/notifications.py:916-918 | the dictionary of lists: receivers in order of first use, each with exactly its notifications |
| NotificationServices.NotificationService.GenerateDailyDigest | backend/app/services/notifications.py:895-962 | the loops give the digested table, every digest with the items of its own receiver, and report both numbers |
| NotificationServices.NotificationService.GroupDueReceivers | backend/app/services/notifications.py:973-983 | exactly the receivers for whom it is nine are grouped, one group for each zone and yesterday, and are counted |
| NotificationServices.NotificationService.GenerateForDueTimezones | backend/app/services/notifications.py:964-1007 | the batch is one digest run per group of receivers for whom it is between nine and ten; each notification of their local yesterday that waits is marked and in one more digest, unless its receiver already had one of that day, and nothing else is marked or put into a digest; zones, receivers and digested notifications are reported exactly; no due receiver has a pending notification of yesterday left |
| Deliveries.ApplyValid | backend/app/services/notification_deliveries.py:259-294 | an attempt keeps: retry time exactly in the open states, attempts within the limit, at most one alert per administrator and delivery, alerts only for dead letters |
| Deliveries.AttemptMeans | backend/app/services/notification_deliveries.py:223-288 | an accepted attempt delivers; a refused one is a dead letter that every administrator hears of when no attempt is left, and otherwise scheduled again after the pause; a finished delivery stays |
| Deliveries.PauseMeans | backend/app/services/notification_deliveries.py:290-294 | the n-th pause is the n-th delay, or the last one when there are no more |
| Deliveries.RunValid | backend/app/services/notification_deliveries.py:195-294 | the same over every run |
| Deliveries.RunKeepsTerminal | backend/app/services/notification_deliveries.py:223-233 | over every run a delivered or dead delivery never changes |
| Deliveries.TriesFinish | backend/app/services/notification_deliveries.py:223-288 | however its attempts end, a delivery is finished after at most max(1, max_attempts) of them, and is delivered exactly when one of those was accepted |
| Deliveries.AttemptReducesTotal | backend/app/services/notification_deliveries.py:259-294 | each attempt on an open delivery lowers the total of remaining attempts |
| Deliveries.RunIsBounded | backend/app/services/notification_deliveries.py:195-294 | the effective attempts of a run are bounded by what remained at its start |
| Deliveries.NothingRemains | backend/app/services/notification_deliveries.py:259-294 | nothing remains exactly when every delivery is finished |
| Deliveries.NotificationDeliveryService.MarkFailedAttempt | backend/app/services/notification_deliveries.py:270-288 | the assignments give the failed row, and the loop over the administrators the alerts of a dead letter |
| Deliveries.NotificationDeliveryService.AttemptDelivery | backend/app/services/notification_deliveries.py:223-268 | one attempt with exactly the stated columns and alerts, or nothing on a finished delivery |
| Deliveries.NotificationDeliveryService.EnqueueAndAttempt | backend/app/services/notification_deliveries.py:177-193 | a new pending delivery, due at once, and its first attempt |
| Deliveries.NotificationDeliveryService.ListDueDeliveries | backend/app/services/notification_deliveries.py:130-146 | the first due deliveries in order of retry time and creation, each once, up to the limit; one is left out only for as many that are due no later |
| Deliveries.NotificationDeliveryService.ProcessDue | backend/app/services/notification_deliveries.py:195-221 | the due deliveries are listed as `list_due_deliveries` does on the old table and each is attempted once, in order, the others not; the batch is a run of attempts, so the invariant and the single alerts hold after it, and each attempt uses up a remaining one; the counters are the numbers of each outcome and sum to processed |
| SheetTitles.CandidatesDiffer | backend/app/services/database_exports.py:422-430 | different suffixes give different titles, however the base was cut |
| SheetTitles.SearchIsBounded | backend/app/services/database_exports.py:426-428 | a finite set of used titles cannot hold all candidates |
| SheetTitles.SheetNamer.SheetTitle | backend/app/services/database_exports.py:422-430 | the title is the start of the name, or that start with an underscore and the first free number, cut no further than 31 characters require; with fewer than 10^29 titles in use it has at most 31 characters |
| SheetTitles.RenderTitles | backend/app/services/database_exports.py:411-413 | all titles of a workbook are different and at most 31 characters long; each is the first 31 characters of its name, or these cut for an underscore and the first free number; names whose first 31 characters differ keep them |
| RateLimit.RateLimitStore.Increment | backend/app/core/middleware.py:87-99 | the new entry of the key, other keys untouched |
| RateLimit.RateLimitStore.Dispatch | backend/app/core/middleware.py:127-150 | a request is accepted exactly when the count of its window is within the limit |
| RateLimit.EntryFollowsOwnRequests | backend/app/core/middleware.py:87-99 | in any interleaved run of requests the entry of a key is that of its own requests alone |
| RateLimit.AnsweredByOwnTrace | backend/app/core/middleware.py:127-150 | in any interleaved run a request is accepted exactly as in the trace of its own key |
| RateLimit.WindowBound | backend/app/core/middleware.py:87-99 | in a window exactly the first `limit` requests are accepted |
| RateLimit.MinuteBound | backend/app/core/middleware.py:87-150 | in any half-open minute at most 2*limit - 1 requests are accepted, none for a limit below 1 |
| RateLimit.RunMinuteBound | backend/app/core/middleware.py:87-150 | in any interleaved run of many keys, no key gets more than that through in any half-open minute |
| RateLimit.MinuteBoundIsReached | backend/app/core/middleware.py:87-150 | for every limit a trace reaches that bound |
| OAuth.OwnerMeans | backend/app/services/oauth.py:338-366 | in a two-way unique table, owner by account and account by owner agree |
| OAuth.UpsertUnique | backend/app/services/oauth.py:385-427 | an upsert keeps both uniqueness conditions |
| OAuth.UpsertMeans | backend/app/services/oauth.py:385-427 | refused exactly when somebody else owns the account; otherwise the user has it afterwards and nobody else is affected |
| OAuth.UnboundMeans | backend/app/services/oauth.py:429-439 | removes exactly the row of the user and provider |
| OAuth.LoginKeepsOwner | backend/app/services/oauth.py:619-624 | a login never takes an account from its owner, even with a stale lookup, and the next login finds the same user |
| OAuth.LoginMeans | backend/app/services/oauth.py:619-682 | an unbound account logs in exactly as the first user with its verified address, letter case aside, a bound one exactly as its user, in both cases if the status permits it and nobody else has the account; the account is then that of the user, all other bindings stay |
| OAuth.BindMeans | backend/app/services/oauth.py:629-645 | a bind succeeds exactly for a permitted user and an account that nobody else has |
| OAuth.RunUnique | backend/app/services/oauth.py:619-657 | over every run of logins, binds and unbinds accounts and users stay matched one to one per provider |
| OAuth.BindingRepository.UpsertBinding | backend/app/services/oauth.py:385-427 | the in-place edit or append; a conflict changes nothing |
| OAuth.BindingRepository.DeleteByUserProvider | backend/app/services/oauth.py:429-439 | removes the row and tells whether there was one |
| OAuth.StateStore.PopState | backend/app/services/oauth.py:163-179 | the payload exactly if the state was stored and has not expired; the state is gone either way |
| OAuth.RedeemedOnce | backend/app/services/oauth.py:152-179 | over every run a state is redeemed at most as often as it was stored |
| Partitions.AddMonthsIsFirstDay | backend/app/services/audit.py:237-241 | month arithmetic with roll-over is addition on month numbers |
| Partitions.BuildMonthlyPartitionSpecs | backend/app/services/audit.py:166-179 | the loop gives one partition per month of the window, none for a negative window |
| Partitions.PartitionHoldsItsMonth | backend/app/services/audit.py:166-179 | a date is in the partition of a month exactly when it is in that month, and the name of the partition is made of its year and month |
| Partitions.SpecsAreContiguous | backend/app/services/audit.py:166-179 | each partition ends where the next one starts |
| Partitions.SpecsCoverWindow | backend/app/services/audit.py:166-179 | every date of the window is in exactly one partition, no other date in any |
| Partitions.NameMeansRange | backend/app/services/audit.py:173-177 | the same name always means the same month, in every run |
| Partitions.RunsCreate | backend/app/services/audit_partitions.py:59-92 | after any runs the partition of a month exists exactly when it did before or the month is in the window of a run |
| Partitions.RunsLeaveNoGap | backend/app/services/audit_partitions.py:71-92 | runs on later and later dates, from no partitions, leave one for every month up to the last window exactly when consecutive runs are at most months_ahead + 1 months apart |
| Partitions.PartitionRepository.EnsurePartitions | backend/app/services/audit_partitions.py:59-68 | reports as created exactly the missing ones, in order, and adds all |
| Partitions.PartitionRepository.EnsureFuturePartitions | backend/app/services/audit_partitions.py:83-92 | afterwards exactly the old partitions and those of the months of the window exist; the missing ones are reported as created, in order |
| Partitions.BuildModifiedFields | backend/app/services/audit.py:192-202 | the loop records exactly the fields that differ |
| Partitions.DifferenceConnects | backend/app/services/audit.py:192-202 | the recorded changes turn either state into the other, field by field, null read as absent; none are recorded exactly when the states agree |

## Left out

- Role, visibility and status checks on callers, file validators, and audit-log records: they appear as an input such as `visible` or `mayDelete`, or not at all.
- Notification texts and the payloads of single notifications; a digest item keeps identifier, source and creation time.
- Concurrency of deletes, and of payment vouchers against uploads in the same group: these paths take no advisory lock, so only sequential properties are stated for them.
- DocumentLocks.RunValid: follows type and version only; the latest flags are not claimed under concurrency, because a session may hold older copies of the other rows. Lock keys are the groups themselves, so a collision of the hashed keys is not modelled.
- DocumentServices.DocumentStore.Upload: starts after the checks on the caller, the file and the scope; a name that the storage refuses is a save that raises.
- ArchiveServices.ArchiveService.ArchiveEligibleProjects: a failure while the audit entry is queued comes after the commit and is not modelled; the batch number, its creator and its constant status are left out.
- ArchiveServices.ArchiveService.RestoreMainProject: all queries of a restore raise together or not at all; the audit entry after the commit is left out.
- Archive.RunConserves: other edits of live rows between archive and restore are not commands of a run; payments, documents and the other rows that an archive deletes are in `ProjectGraph` and do not come back.
- Snapshots.UuidRoundTrip: braces and `urn:` prefixes, which the UUID parser also accepts, are not modelled; no printed snapshot has them. The same holds for the other ISO 8601 forms of dates.
- ProjectStores.ProjectStore.DeleteProjectGraph: is claimed for consistent stores, in which a task, document or search entry names a phase of its own sub-project and a reversal names a normal payment of its own; the schema does not enforce either.
- Foreign keys to users, departments and other tables that the delete does not touch.
- Schedules.CalculateNextRunAt: daylight saving and the time-zone database are not modelled, nor the overflow past year 9999.
- The query compiler, the renderer and the storage of reports, apart from that they may raise.
- Direct handovers by an administrator, batch handovers and member edits in the sub-project service; they write the same tables.
- HandoverServices.HandoverRequestService.SubmitRequest: comments, reasons and the notifications of the protocol are left out.
- NotificationServices.NotificationService.Send: hands messages to an outbox; the delivery service behind it is modelled separately in `Deliveries`. Marking as read, paging and the preference editor are left out.
- DedupKeys.KeyInjective: the year is printed without padding; keys are not cut to the width of the column.
- RateLimit.RateLimitStore.Dispatch: a store that raises lets the request pass; only the in-memory store is modelled, which never does.
- SheetTitles.RenderTitles: titles differ as strings; what a spreadsheet library does with case or forbidden characters is not modelled.
- OAuth.LoginKeepsOwner: the provider's answers are an input, and case folding of e-mail addresses is a function given by the caller.
- Partitions.PartitionRepository.EnsurePartitions: the name pattern that the SQL form checks for four-digit years is left out.
- `int()` on digits outside ASCII and on underscores between digits, which a generated payment number never has.
- Main-project status changes, acceptance steps, dashboard counts, departments, API keys, lockout, file cleanup and document classification: branches without a property that spans operations.
- Web framework wiring, settings, SQL and Redis clients, migrations, schemas, seeds and the frontend.
