# JobScout, modelled and verified in Dafny

JobScout collects job vacancies, scores them against a candidate profile, and drives each application through prepare,
approve, submit and outcome. This project models the logic on which its promises rest and proves those promises for every
input, every run and, where calls or processes compete, every interleaving.

How the modules fit together:

- `Statuses`, `Entities`, `Basics`, `Ordering`: the two transition tables, the records, string order and sorting.
- `Workflow`: every service call as one atomic step on the whole store, and runs of such steps. `WorkflowInvariants` proves
  what each step keeps, `WorkflowRuns` draws the consequences for whole runs.
- `Store`, `Services`: the store as a class over maps, whose operations fail as a schedule says, and the services as they
  are written: reads, writes and checks in sequence inside a transaction that commits or rolls back. A transactional
  service answers Unavailable iff an operation failed, and then nothing has changed; otherwise it is exactly its atomic step.
  So the results about runs hold for the imperative code.
- `Atomicity`: the calls that write before they check, with and without a rollback, and PATCH, which has no transaction.
- `Histories`: runs from the empty store that end in each of the cases where the code does less than one might expect.
- `Interleaving`: the same calls one store call at a time, with stale copies and no rollback.
- `Normalization`, `ContentHash`: canonical texts and lists, and the injective byte format in front of SHA-256.
- `Scoring`, `ResumeSelection`: rounding, monotonicity, order independence, and the lexicographic choice of a resume.
- `StatusLaws`, `TextLaws`, `ScoreLaws`, `SelectionLaws`, `ImportLaws`: what the calls write, what texts become, when each
  score takes which value, whom a vacancy's words select and what an import stores, each written out from the inputs and
  without the functions that compute it.
- `Pipeline`: the import with these parts put in; stored rows are traced back to postings.
- `Search`: the nested page and item loops and their counters.
- `Migrations`: discovery, one run of `Up`, and racing, crashing runners on one database.

Findings where the code does less than one might expect, each with its exact condition:

- Importing a posting again, after whatever other steps leave its rows standing, is a no-op iff the vacancy carries no
  duplicate link and its status lies outside intake or is what filter and score say (`WorkflowRuns.ReimportIsNoOpIff`); on a
  linked vacancy the second import clears the link (`Histories.ThirdImportClearsTheLink`).
- `Validate` accepts negative weights. Every profile, vacancy and company scores a total in [0, 100] iff there are none;
  with one, a candidate that is weak exactly there scores above 100 (`Scoring.TotalsStayInRangeIffWeightsNonNegative`).
- A successful `Up` means that every migration is applied iff no two files share a version
  (`Migrations.SuccessMeansAppliedIffVersionsDiffer`).
- Without transactions a write from a stale copy breaks the application table exactly when the stored row no longer allows
  the pending status, does not have it already, and no other active application makes the store refuse
  (`Interleaving.TableIsBrokenIff`); a cancelled application comes back iff an active status is pending and no other
  application of the pair is active (`Interleaving.RevivedIff`, with the history `Histories.StaleApprovalHistory`). Active
  applications stay unique even so.
- PATCH reports an error although the vacancy has changed iff the change is allowed and proper, the first read and the write
  succeed, and one of the three reads after them fails (`Atomicity.PatchErrsAfterWritingIff`, with the history
  `Atomicity.PatchFailsAfterWriting`).
- The in-memory store's transaction wrapper does not roll back. There a refused submission or outcome leaves its status and
  timestamp behind, against the audit log, iff the application's table allows what the vacancy's table refuses
  (`Atomicity.InMemorySubmitIsTornIff`, `Atomicity.InMemoryOutcomeIsTornIff`, with the history
  `Histories.TornSubmissionHistory`).
- The selector finds its words inside longer ones: a text about algorithms names Go (`SelectionLaws.AlgorithmsNameGo`).

Assumptions. Strings are sequences of runes, and string order is their code point order. The HTML entity table and the
Unicode tables are parameters constrained by `Normalization.Lawful` (`Normalization.Ascii` satisfies it). SHA-256 is a
parameter; only the theorems that say so assume it collision free. New identifiers are unused, clock readings are positive,
and integer round-half-up stands for `math.Round` on float64, with which it agrees while weighted sums stay below 2^40.
Transactions have the semantics of the Postgres store (snapshot, run, commit or discard), and a commit
that answers with an error has not happened; `Migrations` alone also covers a commit whose answer is lost. An import looks for
duplicates outside its transaction (internal/app/app.go:456), which makes no difference to calls that run one after the other.
Where the two stores differ, the in-memory store is followed: in how an existing company is merged, and in keeping one match
per vacancy, where Postgres keeps one per vacancy and profile (migrations/0001_init.sql:125).

## Model

| member | source | states |
|---|---|---|
| VacancyStatuses.TransitionsClimb | internal/core/types.go:52-136 | a rank strictly increases along every proper edge, and no edge leads from outside intake back into it |
| VacancyStatuses.ReachableAfterSubmission | internal/core/types.go:52-136 | whatever the table lets follow SUBMITTED or a later status is again past submission and outside intake |
| VacancyStatuses.AllRoadsLeadToArchived | internal/core/types.go:52-136 | archiving is possible from every status and final, and the only way on from exactly DUPLICATE, FILTERED_OUT, OFFER and REJECTED |
| VacancyStatuses.TransitionsByRank | internal/core/types.go:52-136 | the whole table by ranks: which steps up are allowed, status group by status group, and that ARCHIVED is always open |
| ApplicationStatuses.SwitchesFollowTable | internal/core/application.go:66-129 | the hand-written switches agree with the table: terminal means no edge, and cancel, approve and submit accept exactly the statuses with the matching edge |
| ApplicationStatuses.TransitionsByStage | internal/core/application.go:66-99 | the whole table by stages: one stage at a time, HR contact may be skipped, cancelled until submitted, rejected after that |
| ApplicationStatuses.TablesAgreeOnOutcomes | internal/core/application.go:66-99 | whatever follows a submission in the application table, the vacancy table allows between the statuses of the same names |
| WorkflowInvariants.StepKeepsInv | internal/app/applications.go:71-333 | every service step keeps keys and references intact, statuses shaped, active and submitted applications unique, applications coupled to vacancies, and the audit log replayable |
| WorkflowInvariants.NoEarlierSubmission | internal/app/applications.go:215-237 | if the vacancy table still allows SUBMITTED for an active application, no other application of the same vacancy and profile was ever submitted |
| WorkflowInvariants.SubmitKeepsInv | internal/app/applications.go:204-261 | marking submitted keeps the whole invariant, in particular at most one submission per vacancy and profile |
| WorkflowInvariants.OutcomeKeepsInv | internal/app/applications.go:263-333 | recording an outcome keeps the whole invariant, in particular the coupling to the vacancy |
| WorkflowInvariants.ImportKeepsInv | internal/app/app.go:347-450 | an import keeps the whole invariant: unique vacancies and companies, one match each, links of depth one, status preservation |
| WorkflowRuns.NeverSubmittedTwice | internal/app/applications.go:204-261 | over any run, an application submitted now and one of the same vacancy and profile submitted at any later time are the same application |
| StatusLaws.VacanciesAccompany | internal/app/applications.go:510-523 | in every reachable store, status by status: the vacancy of an HR_CONTACT application is HR_CONTACT, INTERVIEW, OFFER, REJECTED or ARCHIVED, that of an OFFER one OFFER or ARCHIVED, and so on |
| WorkflowRuns.AuditLogReplays | internal/app/applications.go:132-150 | folding an application's audit events through the status machine gives exactly its stored status |
| WorkflowRuns.OneEventPerChange | internal/app/applications.go:132-150 | a step either changes no application and appends nothing, or changes one and appends the one event that names the change |
| WorkflowRuns.RepeatedApproveChangesNothing | internal/app/applications.go:127-129 | approving again returns the same view and changes nothing |
| WorkflowRuns.RepeatedCancelChangesNothing | internal/app/applications.go:169-171 | cancelling again returns the same view and changes nothing |
| WorkflowRuns.RepeatedSubmitChangesNothing | internal/app/applications.go:216-218 | marking submitted again returns the same view and changes nothing |
| WorkflowRuns.RepeatedOutcomeChangesNothing | internal/app/applications.go:285-288 | recording the same outcome again, with whatever reason and notes, returns the same view and changes nothing |
| WorkflowRuns.TimestampsStayOrdered | internal/core/application.go:131-147 | with a clock that never runs backwards, PreparedAt <= ApprovedAt <= SubmittedAt <= ResponseReceivedAt in every store of the run |
| WorkflowRuns.ActiveApplicationIsUnique | internal/store/memory/memory.go:305-315 | in every reachable store the search for the active application has one possible answer, in any map order |
| WorkflowRuns.ViewsNeverFail | internal/app/applications.go:439-471 | in every reachable store each application's resume, vacancy, company and match exist |
| WorkflowRuns.WhenPrepareSucceeds | internal/app/applications.go:335-437 | exactly when preparing creates an application, hands back the active one, or is refused, and with which error; it never meets the unique index |
| WorkflowRuns.WhenApprovalSucceeds | internal/app/applications.go:88-155 | approval succeeds exactly where the table leads to MANUAL_ACTION_REQUIRED through at most APPROVED, or it is already there |
| WorkflowRuns.WhenCancellationSucceeds | internal/app/applications.go:157-202 | cancellation succeeds exactly where the table allows CANCELLED next, or it has already happened |
| WorkflowRuns.WhenSubmissionSucceeds | internal/app/applications.go:204-261 | exactly when marking submitted succeeds: both tables must allow it |
| WorkflowRuns.WhenOutcomeSucceeds | internal/app/applications.go:263-333 | exactly when an outcome is recorded: the application table must allow it and the vacancy table the status of the same name, or it is already there |
| StatusLaws.OutcomeLaw | internal/app/applications.go:290-333 | all that a new outcome writes: status and answer time, reason and notes where given, one audit event, and the status of the same name at the vacancy; nothing else |
| StatusLaws.SubmissionLaw | internal/app/applications.go:219-261 | all that a new submission writes: status and time, one audit event, SUBMITTED at the vacancy; nothing else |
| StatusLaws.ApprovalLaw | internal/app/applications.go:99-155 | all that an approval writes; an APPROVED row keeps the approval time it has |
| StatusLaws.CancellationLaw | internal/app/applications.go:169-202 | all that a cancellation writes |
| WorkflowRuns.VacancyStatusLaw | internal/app/app.go:403-414 | every change of a vacancy's status by any step is an edge of the table or stays among the intake statuses |
| WorkflowRuns.NoReturnToIntake | internal/core/types.go:52-136 | past intake a vacancy never returns, and the gain in rank over the run bounds the number of further status changes |
| WorkflowRuns.LinksHaveDepthOne | internal/app/app.go:452-465 | a link comes with a reason, its target exists, is another vacancy and carries no link, and the linked vacancy is DUPLICATE or ARCHIVED |
| WorkflowRuns.LinkedVacanciesHaveNoSubmission | internal/app/app.go:452-465 | in every reachable store a linked vacancy has no application that was ever submitted |
| WorkflowRuns.LinkedVacanciesBlockSubmission | internal/app/applications.go:228-237 | marking an application of a linked vacancy submitted is refused and changes nothing |
| WorkflowRuns.ImportIdentity | internal/app/app.go:416-427 | over any later run, the one vacancy of a source and external ID keeps the ID and creation time of its first import, and its match keeps its ID |
| WorkflowRuns.CompanyIdentity | internal/store/memory/memory.go:85-103 | over any run, one company per normalised name, and its blacklist flag is never cleared |
| WorkflowRuns.ReimportIsNoOpIff | internal/app/app.go:403-427 | importing the same posting again at the same clock reading, after any other steps that leave its rows standing but for the status, changes nothing iff the vacancy carries no link and its status lies outside intake or is what filter and score say |
| StatusLaws.ReimportLaw | internal/app/app.go:533-543 | a posting that is already stored keeps its ID and loses its link; a status among the five intake ones is judged afresh, any other stays |
| ImportLaws.ReimportStatus | internal/app/app.go:403-414 | with the real filter and score: FILTERED_OUT, RECOMMENDED from the review threshold on, NORMALIZED, or the status outside intake that it had |
| WorkflowRuns.ReimportIsNoOpIffUnlinked | internal/app/app.go:403-427 | after any other steps that leave the rows untouched, importing again changes nothing iff the vacancy carries no link |
| WorkflowRuns.ReimportAtOnce | internal/app/app.go:403-427 | the same for a second import that follows at once |
| Histories.ThirdImportClearsTheLink | internal/app/app.go:452-465 | from the empty store: import a posting, import the same content under another external ID, which is linked, and import that once more, which clears the link |
| Histories.RealDuplicatesLoseTheirLinks | internal/app/app.go:452-465 | with the real hash this history starts from any posting |
| Stores.Store.Rollback | internal/store/postgres/postgres.go:773-784 | discarding a transaction restores every map and the log |
| Stores.Store.ListResumes | internal/store/memory/memory.go:285-303 | each of the profile's resumes once, or of all without a profile, oldest first and then by ID; Unavailable iff the operation failed |
| Stores.ListingIsUnique | internal/store/memory/memory.go:296-302 | with distinct IDs there is one such listing, whatever the map order and the sort |
| Ordering.LessIsLexicographic | internal/store/memory/memory.go:296-302 | string order: the first difference decides, and a proper prefix comes first |
| Stores.Store.FindVacancyBySourceExternalId | internal/store/memory/memory.go:116-126 | some vacancy with that source and external ID, or there is none |
| Stores.Store.FindVacancyByContentHash | internal/store/memory/memory.go:128-138 | some unlinked vacancy with that hash, or there is none |
| Stores.Store.FindActiveApplication | internal/store/memory/memory.go:305-315 | some active application of the vacancy and profile, or there is none |
| Stores.Store.GetOrCreateCompany | internal/store/memory/memory.go:85-103 | the merged company of that name, or the new one; nothing else changes |
| Stores.Store.UpdateVacancyStatus | internal/store/memory/memory.go:151-163 | status and link of one vacancy, nothing else |
| Stores.Store.UpsertApplication | internal/store/memory/memory.go:348-375 | refused iff another active application of the pair exists, otherwise exactly this row is written |
| Services.App.PrepareApplication | internal/app/applications.go:71-86 | exactly the specified step, unless an operation of the store failed; then, and only then, Unavailable; every refusal leaves the store as it was; the resume is the selector's choice among the caller's resumes |
| Services.App.ApproveApplication | internal/app/applications.go:88-155 | exactly the specified step, unless an operation of the store failed; then, and only then, Unavailable; every refusal leaves the store as it was, with every single write, also a rolled back one, an edge of the application table |
| Services.App.CancelApplication | internal/app/applications.go:157-202 | exactly the specified step, unless an operation of the store failed; then, and only then, Unavailable; every refusal leaves the store as it was |
| Services.App.MarkApplicationSubmitted | internal/app/applications.go:204-261 | exactly the specified step, unless an operation of the store failed; then, and only then, Unavailable; every refusal leaves the store as it was, although the application is written before the vacancy is checked |
| Services.App.UpdateApplicationOutcome | internal/app/applications.go:263-333 | exactly the specified step, unless an operation of the store failed; then, and only then, Unavailable; every refusal leaves the store as it was, although the application is written before the vacancy is checked; a changed application's vacancy then has the status of the same name |
| Services.App.SaveResume | internal/app/resumes.go:81-83 | the resume is stored; if and only if the operation failed, nothing changed |
| Services.App.UpdateVacancyStatus | internal/app/app.go:159-193 | for every schedule of failures, exactly the state and answer that the failing operation determines |
| Services.App.ImportVacancyFromRaw | internal/app/app.go:334-450 | exactly the specified import, with fresh identifiers and a possible answer of the duplicate search; iff an operation failed, an error and nothing changed; a stored posting in intake is judged afresh, outside intake it keeps its status |
| Services.App.EndTransaction | internal/store/postgres/postgres.go:773-784 | commit or discard: a refused call, and one whose commit fails, leave the store as it was |
| Services.App.MoveSaved | internal/app/applications.go:228-251 | after the application write, exactly what the call without a rollback does, whatever it then refuses |
| Atomicity.SubmitIsRolledBack | internal/store/postgres/postgres.go:773-784 | marking submitted is its body with a rollback of every refusal |
| Atomicity.OutcomeIsRolledBack | internal/store/postgres/postgres.go:773-784 | recording an outcome is its body with a rollback of every refusal |
| Atomicity.InMemorySubmitIsTornIff | internal/store/memory/memory.go:67-69 | without a rollback a refused submission changes the store iff the application awaits manual action and the vacancy table refuses SUBMITTED; the timestamp stays and the log no longer replays |
| Atomicity.InMemoryOutcomeIsTornIff | internal/store/memory/memory.go:67-69 | without a rollback a refused outcome changes the store iff the application table allows it and the vacancy table refuses the status of the same name; the log no longer replays |
| Atomicity.ArchivingTearsInMemorySubmit | internal/app/applications.go:219-234 | a history: archive the vacancy, then mark the application submitted |
| Histories.TornSubmissionHistory | internal/app/applications.go:219-234 | from the empty store to an approved application whose vacancy is archived and whose in-memory submission is refused and kept |
| Atomicity.PatchWithoutFaults | internal/app/app.go:178-193 | without a failing operation PATCH is its atomic step |
| Atomicity.PatchErrsAfterWritingIff | internal/app/app.go:178-193 | exactly when PATCH reports an error although the vacancy has changed |
| Atomicity.PatchFailsAfterWriting | internal/app/app.go:189-192 | a history: one import, then a PATCH whose third operation fails |
| Interleaving.RunKeepsSafe | internal/store/memory/memory.go:348-375 | however many calls interleave and wherever they stop, active applications stay unique, and no application disappears or changes vacancy or profile |
| Interleaving.ActiveAnswerIsUnique | internal/store/memory/memory.go:305-315 | after any interleaving from any serially reachable store, the search for the active application has one possible answer |
| Interleaving.PrepareWinsIffNoneActive | internal/app/applications.go:347-400 | of competing prepare calls that all passed the read check, one creates an application iff none is active when it writes |
| Interleaving.FreshCopyWritesAnEdge | internal/app/applications.go:99-130 | a write from a copy that is not stale follows the application table and is never refused |
| Interleaving.PendingIsAnEdgeIff | internal/core/application.go:66-99 | whatever other calls did to the row, the pending write is an edge of the table iff the stored status still allows it, status by status |
| Interleaving.TableIsBrokenIff | internal/store/memory/memory.go:348-375 | exactly when a write breaks the application table |
| Interleaving.RevivedIff | internal/store/memory/memory.go:365-371 | exactly when a write brings a cancelled or rejected application back |
| Interleaving.RevivalIsRefusedIffAnotherIsActive | internal/store/memory/memory.go:365-371 | a write of an active row from whatever stale copy is refused iff another application of the pair is active |
| Interleaving.StaleApprovalRevives | internal/app/applications.go:94-113 | a history in which a cancelled application becomes APPROVED, against the table |
| Interleaving.AloneIsSerial | internal/app/applications.go:88-333 | a call nobody interferes with writes exactly the application rows of its serial step |
| Interleaving.PrepareAloneIsSerial | internal/app/applications.go:347-400 | a prepare call nobody interferes with leaves exactly the application rows of its serial step |
| Histories.StaleApprovalHistory | internal/app/applications.go:94-113 | from the empty store to an application that awaits approval, and two interleaved calls that cancel it and then make it APPROVED |
| Normalization.NormalizeTextIdempotent | internal/core/normalize.go:31-47 | normalising a normalised text changes nothing |
| Normalization.NormalFormsAreTidyTexts | internal/core/normalize.go:31-47 | the normal forms are exactly the texts of kept lower-case characters with single inner blanks |
| TextLaws.TagBecomesBlank | internal/core/normalize.go:15 | the leftmost tag becomes one blank, and the text after it is treated in the same way |
| TextLaws.UnchangedIffTagFree | internal/core/normalize.go:15 | exactly the texts without a complete tag are left alone by tag stripping |
| TextLaws.NoTagsAreLeft | internal/core/normalize.go:15 | no complete tag is left after stripping |
| TextLaws.TagIsABlank | internal/core/normalize.go:31-47 | for NormalizeText and StripHTML a tag is worth a blank, also one written with escapes |
| TextLaws.TagInPlainText | internal/core/normalize.go:99-104 | in particular in every text without an ampersand |
| TextLaws.EscapesAreResolved | internal/core/normalize.go:32 | a text is normalised as its unescaped form, if no escape is left in that |
| TextLaws.SeparatorSplits | internal/core/normalize.go:35-46 | in a text without tags and escapes, every character that is, lowered, no letter, digit or one of + # . / - _ separates: both sides are normalised on their own, with one blank between them |
| TextLaws.WordIsLowered | internal/core/normalize.go:34-46 | and a run of the other characters is one word and is lowered, character by character |
| TextLaws.SpaceSplitsHTML | internal/core/normalize.go:99-104 | in such a text StripHTML separates at white space only |
| TextLaws.WordStaysInHTML | internal/core/normalize.go:99-104 | in such a text StripHTML leaves every word as it is |
| TextLaws.SkillFamilies | internal/core/normalize.go:17-55 | which normalised texts name each aliased skill, both ways; every other text names itself |
| Normalization.NormalizeSkillIdempotent | internal/core/normalize.go:49-55 | normalising a skill twice is normalising it once, despite the aliases |
| Normalization.NormalizeStringList | internal/core/normalize.go:57-76 | the loop with its seen map and the sort yield the strictly sorted list of the distinct non-empty normalised items |
| Normalization.NormalizedListIsCanonical | internal/core/normalize.go:57-76 | two lists normalise to the same list iff their sets of non-empty normalised items are equal |
| Normalization.NormalizedListIdempotent | internal/core/normalize.go:57-76 | normalising a normalised list changes nothing |
| ContentHash.WriteParts | internal/core/normalize.go:132-137 | the loop feeds the hash exactly the NUL-terminated parts |
| ContentHash.AtoiOfItoa | internal/core/normalize.go:107-115 | the decimal text of a salary determines it |
| ContentHash.DecodeInvertsEncode | internal/core/normalize.go:106-139 | a decoder recovers all sixteen components from the bytes |
| ContentHash.SerializationIsInjective | internal/core/normalize.go:106-139 | two postings give the same bytes iff all sixteen normalised components agree |
| ContentHash.ContentHashIdentifiesContent | internal/core/normalize.go:141-172 | with a collision free hash, equal content hashes mean equal normalised content, the canonical URL aside, and conversely |
| Scoring.RoundNearest | internal/core/scoring.go:79-82 | the rounded quotient is a nearest integer, halves rounded up |
| Scoring.AverageIsBetween | internal/core/scoring.go:79-82 | the weighted average lies between any bounds of the component scores |
| Scoring.AverageIsMonotone | internal/core/scoring.go:79-82 | raising components never lowers the average |
| Scoring.TotalsStayInRangeIffWeightsNonNegative | internal/core/scoring.go:26-82 | for weights that Validate accepts, every profile, vacancy and company scores a total in [0, 100] iff no weight is negative |
| Scoring.ScoreSkills | internal/core/scoring.go:98-148 | for every map iteration order the same score; matched and missing skills partition the required skills that are not excluded |
| Scoring.SkillsScoreMonotone | internal/core/scoring.go:98-148 | more offered skills never lower the skill score |
| Scoring.ScoreDomain | internal/core/scoring.go:234-301 | the running score with its penalties, its blacklisting midway and its final clamp is the closed form of the reference definition |
| Scoring.TotalScoreInRange | internal/core/scoring.go:37-82 | the total lies in [0, 100] for every profile, vacancy and company |
| Scoring.MoreSkillsNeverHurt | internal/core/scoring.go:37-76 | a vacancy with more skills has no lower total and no lower recommendation |
| Scoring.SkillOrderIsIrrelevant | internal/core/scoring.go:98-148 | order and repetition of the vacancy's skills do not change the verdict |
| ScoreLaws.RoleLaw | internal/core/scoring.go:84-96 | 100 iff no role is desired or a desired one, normalised, is the normalised title or stands in the joined titles; otherwise 0 |
| ScoreLaws.SkillsLaw | internal/core/scoring.go:98-148 | the percentage of the profile's entries that the vacancy asks for, primary entries counted twice, excluded and empty ones not at all; 100 if none count |
| ScoreLaws.ExperienceLaw | internal/core/scoring.go:150-163 | the score for every grade word and number of years: the words in their order of precedence, the years each seniority needs |
| ScoreLaws.MoreYearsNeverHurt | internal/core/scoring.go:303-314 | more years never lower the experience score |
| ScoreLaws.GradeLaw | internal/core/scoring.go:165-177 | 100 iff no grade is desired or a desired one is, or stands in, the vacancy's grade; otherwise 30 |
| ScoreLaws.LocationLaw | internal/core/scoring.go:179-200 | each of 100, 80, 60 and 0 exactly under its condition on remote work, desired places and relocation |
| ScoreLaws.SalaryLaw | internal/core/scoring.go:202-232 | each of 100, 70, 50, 40, 20 and 0 exactly under its condition on minimum, currency and offered range |
| ScoreLaws.HigherPayNeverHurts | internal/core/scoring.go:202-232 | raising either end of the offered range never lowers the salary score |
| ScoreLaws.DomainLaw | internal/core/scoring.go:234-301 | 100 without constraints, 0 for a blacklisted company, else 100 less 30, 20 and 30 for employment, languages and permits that share nothing |
| ScoreLaws.TotalIsNearest | internal/core/scoring.go:79-82 | the total is the integer nearest to the weighted sum of the seven components over 100, halves away from zero |
| ScoreLaws.FittingTitleAddsItsWeight | internal/core/scoring.go:37-96 | a vacancy whose title fits scores exactly the role weight above the same vacancy under a title that does not |
| ScoreLaws.ContainsMeansOccurs | internal/core/scoring.go:90-94 | the search for a part of a text finds exactly the parts of that text |
| ResumeSelection.OverlapCount | internal/core/resume.go:206-225 | the counted overlap is the size of the intersection of the normalised skill sets |
| ResumeSelection.Select | internal/core/resume.go:124-163 | the named resume, or the best active resume of the searched role: most shared skills, then oldest, then smallest ID; or the right error |
| ResumeSelection.BestIsUnique | internal/core/resume.go:138-162 | with distinct IDs there is at most one best resume |
| ResumeSelection.SelectionIgnoresOrder | internal/core/resume.go:124-163 | two listings of the same resumes, in any order and with any repetitions, give the same selection |
| SelectionLaws.SelectionLaw | internal/core/resume.go:124-191 | without a named resume: an active one of the role that the vacancy's texts name, analyst words before Python words before Go words; if there is none, an active general one, else an error |
| SelectionLaws.NoneIsBetter | internal/core/resume.go:138-162 | no active resume of the same role shares more skills with the vacancy, none that shares as many is older, and none as old has a smaller ID |
| SelectionLaws.WordInWholeText | internal/core/resume.go:165-179 | a word without blanks is found in the joined search text iff it is found in one of the titles, long texts, skills or reasons |
| SelectionLaws.BlobIsWholeText | internal/core/resume.go:227-235 | normalising the joined text once more only squeezes the blanks that empty parts leave |
| SelectionLaws.AlgorithmsNameGo | internal/core/resume.go:181-188 | words are found inside longer ones: a text about algorithms names Go |
| Pipeline.StoredRowsAreTraced | internal/app/app.go:347-450 | in every reachable store a vacancy's text and hash come from one posting, and its match is the verdict on exactly that text |
| Pipeline.StoredTotalsAreInRange | internal/app/app.go:401-450 | every stored total lies in [0, 100] and agrees with the stored recommendation |
| Pipeline.FirstImportIsDuplicateIffContentSeen | internal/app/app.go:452-465 | a new posting is linked iff some unlinked vacancy came from a posting with the same normalised content |
| Pipeline.FirstImportStatus | internal/app/app.go:403-411 | a new posting becomes DUPLICATE, FILTERED_OUT, RECOMMENDED from the review threshold on, or NORMALIZED |
| ImportLaws.StoredColumns | internal/app/app.go:372-399 | in every reachable store a vacancy's columns are those of one posting: texts as given, title normalised, long texts without tags, lists canonical |
| ImportLaws.CompanyLaw | internal/app/app.go:350-359 | the company an import leaves bears the posting's name, else the host's, else a placeholder, and is the one found by the normal form of that name |
| ImportLaws.TagsDoNotChangeTheHash | internal/core/normalize.go:141-172 | a description with a tag has the hash of the same description with a blank in its place |
| Search.CountersAreConserved | internal/app/app.go:302-325 | imported plus errors is the number of items visited; duplicates plus filtered, and filtered plus recommended, never exceed imported |
| Search.CountersCount | internal/app/app.go:302-325 | each counter is the number of visited items of its kind |
| Search.AtMostMaxPages | internal/app/app.go:288-332 | at most the configured number of pages is requested |
| Search.PagesLaw | internal/app/app.go:288-332 | every requested page but the last has items and announces more, the last does not unless the limit is reached, and the items visited are those of the requested pages in order |
| Search.RunHeadhunterSource | internal/app/app.go:288-332 | exactly the specified pages are requested and items visited; the store goes through exactly the imports whose outcomes are counted; imports are lost iff an operation failed; an error is returned iff the last page failed |
| Migrations.ParseName | internal/migrate/migrate.go:82-95 | a recognised file name is version, underscore, name and `.sql`, cut at the first underscore |
| Migrations.ParseNameIsComplete | internal/migrate/migrate.go:82-95 | every such name is recognised and taken apart again, down migrations aside |
| Migrations.Discover | internal/migrate/migrate.go:69-101 | exactly what the names of the directory's files say, directories aside, in version order; a missing directory has none |
| Migrations.EverySortGivesFiles | internal/migrate/migrate.go:97-99 | with distinct versions every sort, stable or not, gives the same list |
| Migrations.FilesIgnoreOrder | internal/migrate/migrate.go:69-101 | with distinct versions the list does not depend on the order of the directory entries |
| Migrations.CommitIsNext | internal/migrate/migrate.go:103-121 | among racing runners, the row about to be committed is always the next file |
| Migrations.RunsCommitPrefixes | internal/migrate/migrate.go:19-40 | for distinct versions, any number of runners and any failures: the committed migrations are a growing prefix of the sorted files, and a runner that succeeds leaves nothing unapplied |
| Migrations.LaterUpIsNoOp | internal/migrate/migrate.go:31-39 | once everything is applied, no runner that starts later executes a body |
| Migrations.SuccessMeansAppliedIffVersionsDiffer | internal/migrate/migrate.go:31-38 | in all runs from a fresh database success means that every file is applied iff no two files share a version |
| Migrations.Database.AppliedVersions | internal/migrate/migrate.go:52-67 | exactly the committed versions, or a failure |
| Migrations.Database.ApplyOne | internal/migrate/migrate.go:103-121 | body and version row are committed together or not at all; without a failing operation it succeeds iff the version is not taken |
| Migrations.Database.Up | internal/migrate/migrate.go:19-40 | whatever `Up` does to the database is a run of one runner; success means no operation failed, and without a failing operation the result is exactly the specified one |
| Migrations.UpSucceedsIff | internal/migrate/migrate.go:19-40 | without a failing operation `Up` succeeds iff the directory is readable and no two pending files share a version |
| Migrations.UpAppliesPending | internal/migrate/migrate.go:31-38 | without a failing operation `Up` only adds, only pending files of the directory, and when it succeeds nothing is pending any more |

## Left out

- Stores.Store.UpsertApplication: the timestamps, trimming and zero-time defaults that the store fills in itself are not modelled.
- Stores.Store.FindVacancyByContentHash: any unlinked match may be returned, as in the in-memory store; that Postgres returns the oldest is not used.
- Services.App.SaveResume: validation, parsing, skill normalisation and the final read are not modelled; the stored resume is a parameter.
- Services.App.EndTransaction: a commit that happens although its answer is lost is not modelled.
- Services.App.PrepareApplication: the match's positive reasons, which feed the inferred role, are a parameter of the call.
- Interleaving.RunKeepsSafe: writes become visible one by one, as in the in-memory store; uncommitted rows of concurrent Postgres transactions, and audit events and vacancies under interleaving, are not modelled.
- Migrations.RunsCommitPrefixes: a body has no effect of its own beside its version row; competing runners wait on the primary key only.
- Scoring.MoreSkillsNeverHurt: the reason texts are not modelled; they depend on map order.
- Reading the caller's profile (internal/app/app.go:116-125): `caller` is a parameter, None when no profile is configured; a database failure of that read is not part of the schedule.
- HTTP handlers, Telegram, configuration, logging and process lifecycle: input, output and presentation.
- SQL text and row scanning of the Postgres store: only its transaction wrapper, unique keys and conflict result are kept.
- The HeadHunter client, manual imports, and building the search query: network code and text assembly.
- Hard filters and currency comparison: abstract predicates.
- Cover letters, warnings, audit metadata, matching reasons and `dedupeAndTrim`: text assembly.
- Parsing of status names: a request carries a status, or none for an unknown name.
- Location and URL canonicalisation, resume text parsing, profile and source management: only easy claims.
- Fields that nothing branches on: `UpdatedAt` of applications and companies, application method, scoring version.
