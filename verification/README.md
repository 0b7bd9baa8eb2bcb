# Verified model of the Beldium back end

A Dafny model of four parts of the back end that decide what happens to other people's data, and proofs of
what they promise over every run:

- **The legacy-data merge** (`migration/merge_engine.py`). A list of table maps is run in order; each old row is
  given its new foreign keys, looked up by natural key, and then skipped, matched or inserted.
- **One-time codes** (`accounts/services.py`). Codes with a lifetime and an attempt cap, and two budgets per user
  and purpose that are counted over a sliding window and attributed to the creation time of a code.
- **The logistics review, its expiry monitor and its transport operations** (`logistics/`). Status, section
  verdicts, versioned evidence, information requests, conditions, service restrictions and movements.
- **The compliance onboarding workflow** (`compliance/`). The transition table, document verdicts and the
  condition-and-evidence protocol.

Each part has a value model (`*Model.dfy`, `OneTimeCodes.dfy`) in which a request is a function from state to state or
to a refusal, theorems over all runs of those functions, and a class that updates its fields step by step as the
source does (`MergeEngine`, `OneTimeCodeBook`, `LogisticsDesk`, `ComplianceDesk`). Every method of a class is proved
to leave exactly the state, and to give exactly the reply, of its function. What the functions themselves do is pinned
by specifications that use none of their helpers (`MergeMeaning`, `LogisticsAnswers`, `ComplianceAnswers` and the replies
and effects of the code machine): a request is granted if and only if a condition on the fields holds, leaves exactly
the stated file, and is refused with a code whose reason holds. The code store, the company file and the
application file also carry the history of the requests they have handled, and their `Valid()` says that they hold
what that history leaves; a valid file is therefore a reachable one (`CompanyFile.IsReachable`,
`ApplicationFile.IsReachable`), and the theorems over all runs hold of every object. A refused request changes
nothing: the views run in a transaction that is rolled back on an error reply (logistics/views.py:31-36,
compliance/views.py:70-76), and the methods that write before their last refusal put the old records back.

| files | contents |
|---|---|
| `Common.dfy`, `Rounding.dfy` | small datatypes; the half-to-even percentage behind the completeness gates |
| `MergeModel`, `MergeBasics` | one row, one map and one run as functions; the index is exact |
| `MergeIdempotence`, `MergeIdMaps` | a second run inserts nothing; when exactly it maps as the first did |
| `MergeStaging`, `MergeSecondRun` | runs with one source row for each map; when exactly a second run can insert |
| `MergeMeaning`, `MergeIntegrity` | what an outcome says of the cells of the rows; conservation, collisions, what an added row and its foreign keys hold |
| `MergeRenaming`, `MergePreview`, `MergeExamples` | a run is equivariant in the new ids; the preview beside the merge; counterexamples and the shipped list |
| `MergeEngine` | class `Merger` |
| `OneTimeCodes`, `OneTimeCodeBook` | the code machine, its wall-clock bounds and their exactness, its replies; class `CodeStore` |
| `LogisticsModel`, `LogisticsVersions`, `LogisticsInvariant` | the requests; version chains; the joint invariant and its preservation |
| `LogisticsMonitor`, `LogisticsHistory` | the monitor's declarative specification; what a request may touch and what stays on record |
| `LogisticsTheorems`, `LogisticsMineral`, `LogisticsProvenance` | the promises; the sign-off of the mineral domain; the request that earned each verdict, clearance and approval |
| `LogisticsAnswers` | when each request is granted, what it leaves and what its refusals mean, in the file's own fields |
| `LogisticsDesk` | class `CompanyFile` and the monitor over all companies |
| `ComplianceModel`, `ComplianceTheorems`, `ComplianceDesk` | the workflow; its promises; class `ApplicationFile` |
| `ComplianceAnswers`, `ComplianceProvenance` | the same for the workflow's requests; the request behind each verdict |

## Where the code and its documentation differ

The model follows the code. Two documented claims are false as stated, and two readings that the code suggests are too
strong; each has a concrete input on which it fails, and the exact condition under which it holds.

- "Running `merge.py` a second time must insert nothing" (migration/README.md:110). The index is loaded without an
  ORDER BY and the first row read wins, so twin keys can be read in another order the next time. A second run inserts
  nothing whenever each table in which some row needs a parent comes back in stored order or had unique natural keys at
  the start (`MergeIdempotence.SecondRunInsertsNothing`); other tables may be read in any order, so the shipped list is
  covered although its two maps for `mining_documentrecord` compare `file` differently (migration/mapping.py:245 and
  277). Unique keys in these tables are also necessary, for every list in which such a table has at most one required
  parent of its own, the shipped list among them (`MergeExamples.ShippedMapsAreAFamily`): no source rows, no order of
  reading and no new ids make a second run insert if and only if no two rows of such a table share a key
  (`MergeSecondRun.SecondRunNeverInsertsExactly`; one run that does insert is `MergeExamples.SecondRunCanInsert`). A
  second run that inserts nothing may still fail to map a key the first one mapped; `MergeIdMaps.SecondRunMapsSame` says
  when.
- "What this reports missing is what merge.py inserts" (migration/find_missing.py:3-5). The preview reloads its index
  from the untouched target for every map. It agrees with the merge exactly when it reports no row missing or duplicate
  that has a key of a row which an earlier map of the same target reports missing (`MergePreview.PreviewIsExact`,
  `MergeExamples.PreviewCanDisagree`). The shipped list has two maps for `organisations_organisation` and two for
  `mining_documentrecord`, so the condition matters there.
- The failure budget reads as ten guesses an hour (accounts/services.py:17-26). Failures are attributed to the creation
  time of their code, so the bound of ten holds in wall-clock time exactly up to 50 minutes and a microsecond
  (`OneTimeCodes.BudgetHoldsExactly`), and the least bound for an hour is fifteen (`OneTimeCodes.HourBoundIsLeast`).
- A sign-off is only given on data and verified evidence (logistics/views.py:224-228). That a passed section rests on
  them holds in every reachable file for every domain but the mineral one (`LogisticsTheorems.SignOffsRest`). There it
  is kept by every request except an accepted edit that declares a mineral service behind a pass given as not
  applicable (`LogisticsMineral.MineralRestsExactly`), and what mends it is a definite list of requests
  (`LogisticsMineral.MineralMendsExactly`), so after any run it holds unless such an edit has been made and none of these
  since (`LogisticsMineral.MineralRestsOverRuns`). `LogisticsMineral.MineralVerdictCanBeStale` is a run that ends there.

## Assumptions

- Requests are serialised, and every time in one request is one instant. The code stores a creation time a moment after
  the time the lifetime is counted from, which only shortens the lifetime.
- Merge: column builders, defaults and normalizers are deterministic; a primary key normalizes injectively; the database
  answers an insert with an id or an error, given by an oracle per map and row. Theorems about second runs ask that
  source keys are distinct among the maps of one target, that no column has two foreign keys, that no foreign key that
  may become null is part of a natural key, and that no insert of the first run fails. Theorems about previews ask for
  distinct source keys, and that no insert fails and new ids are new. `SecondRunNeverInsertsExactly` asks of the maps
  that required foreign keys are part of each natural key and refer to tables merged earlier, and that the maps of one
  needed table compare alike; and of the needed tables that other key columns hold no ids, that the parents of a row
  with a usable key have one too, and that a source row can have a usable key which no row of the table has.
- Logistics and compliance: the applicant's account state and the date are inputs of each request; dates never go back.

## Model

| member | source | states |
|---|---|---|
| MergeIdempotence.SecondRunInsertsNothing | migration/merge_engine.py:240-325 | A second run (merge or preview, any answers, tables read in any order) on the merged database inserts and reports nothing, leaves the database alone, and on settled tables maps ids only as the first run did; only a table in which some row needs a parent has to be settled, that is come back in stored order or have had unique keys under one scheme at the start |
| MergeSecondRun.SecondRunNeverInsertsExactly | migration/merge_engine.py:199-319 | For any list of maps of any depth in which a needed table (one that rows must find a parent in) has at most one required parent: no source rows, no new ids, no contents of the tables nobody needs and no order of reading in either run make the second run insert iff no two rows of a needed table share a natural key |
| MergeSecondRun.UniqueParentsSuffice | migration/README.md:110 | When they share none, nothing is inserted whatever ids the database answers with |
| MergeExamples.ShippedMapsAreAFamily | migration/mapping.py:106-327 | The shipped list, with any normalizers that leave an absent value of a needed table blank, meets the conditions on the maps |
| MergeIdMaps.SecondRunMapsSame | migration/merge_engine.py:282-303 | With all targets settled, the second run ends with the id maps of the first iff every row the first run matched or inserted is, by its keys, one row of the merged table |
| MergeIdempotence.MergeKeepsKeysUnique | migration/merge_engine.py:282-319 | Natural keys of a target whose maps share one scheme are unique after the merge if they were unique at the start |
| MergeExamples.SecondRunCanInsert | migration/README.md:110 | With twin keys in the target and another read order, the second run inserts a row again |
| MergePreview.PreviewIsExact | migration/find_missing.py:3-5 | Whatever the key schemes: if the preview reports no row missing or duplicate that has a key of a row an earlier map of its target reports missing, it equals the merge line by line and id by id, each placeholder standing for the fresh id; if it does, some line reports another kind of outcome |
| MergePreview.PreviewOfDistinctTargets | migration/merge_engine.py:282-319 | With pairwise distinct targets the preview always agrees |
| MergeExamples.PreviewCanDisagree | migration/find_missing.py:3-5 | Two maps of one target and one organisation in both sources give a conflict |
| MergeRenaming.RenamedRun | migration/merge_engine.py:240-319 | A merge whose new ids are renamed goes through the renamed states at every row |
| MergeIntegrity.AddedRowsAreSourceRows | migration/merge_engine.py:262-318 | Every row the merge added is some source row of that table as remapped when its turn came, and the log line of that source row is the insertion of its id |
| MergeIntegrity.ForeignKeysPointAtParents | migration/merge_engine.py:266-280 | A foreign key of an added row that is not null is an existing row, the one the old parent was matched to or became; it is null iff the source cell was null, or it may become null and the old parent was neither matched nor inserted |
| MergeIntegrity.ParentIsUnique | migration/merge_engine.py:296-318 | An old row is matched to, or becomes, one row only |
| MergeIntegrity.SkippedIffParentSkipped | migration/merge_engine.py:266-280 | A row is skipped for a foreign key exactly when the parent of a required one was itself neither matched nor inserted |
| MergeIntegrity.UnresolvedIffOrphan | migration/merge_engine.py:266-280 | Remapping fails exactly when some required, non-null foreign key names an unmapped parent |
| MergeIntegrity.MergeConserves | migration/README.md:105 | Existing rows stay in place, and each table grows by its number of inserted lines |
| MergeIntegrity.OneOutcomePerRow | migration/merge_engine.py:245-247 | The log holds exactly one line per source row, in source order |
| MergeIntegrity.InsertedRowsDoNotCollide | migration/merge_engine.py:282-319 | In a target whose maps share one key scheme no inserted row shares a usable natural key with any other row |
| MergeMeaning.OutcomeMeaning | migration/merge_engine.py:192-319 | Each outcome, in cells and normalizers only: unresolved iff the row cannot be remapped; no natural key iff each has a column that normalizes to nothing; inserted or failed iff some key identifies the row and no stored row agrees with it on every column of any key (the same id, or texts that normalize to one non-empty word); matched with, or held back between, the rows that are the first to agree with it on some key; flagged iff the first key is usable and nobody agrees on it |
| MergeMeaning.UniqueKeysMean | migration/merge_engine.py:192-197 | Unique natural keys mean that rows which agree on some key have one id |
| MergeBasics.IndexIsExact | migration/merge_engine.py:199-213 | The loaded index holds exactly the usable keys of the table, each with a row that has it |
| MergeEngine.Merger.Validate | migration/merge_engine.py:181-186 | Accepts exactly the lists in which every foreign key is a listed column and refers to the target of an earlier map |
| MergeEngine.Merger.LoadIndex | migration/merge_engine.py:199-213 | The loops compute the index of the table |
| MergeEngine.Merger.RemapForeignKeys | migration/merge_engine.py:266-280 | The loop computes the remapped row, or stops where it stays unresolved |
| MergeEngine.Merger.MergeRow | migration/merge_engine.py:259-319 | One source row takes database, id maps, index and log to the next state, and the summary counts stay those of the log |
| MergeEngine.Merger.MergeTable | migration/merge_engine.py:240-319 | A whole map carries the state of the run to the next map |
| MergeEngine.Merger.Run | migration/merge_engine.py:321-325 | A refused list changes nothing; an accepted one ends in the final state of the run, with summary counts that equal the log's |
| OneTimeCodes.GuessBounds | accounts/services.py:42-55 | Over any run, wrong guesses on live codes in any interval of window length are at most the failure budget plus one code's attempts, and at most the failure budget in intervals shorter by a code's lifetime |
| OneTimeCodes.ShippedGuessBounds | accounts/services.py:14-26 | With the shipped constants: ten in any 50 minutes, fifteen in any 60 |
| OneTimeCodes.BudgetHoldsExactly | accounts/services.py:17-26 | Ten bounds every interval of a given length iff the length is at most 50 minutes and one microsecond |
| OneTimeCodes.HourBoundIsLeast | accounts/services.py:17-26 | A number bounds the guesses in every hour iff it is at least fifteen |
| OneTimeCodes.IssueBound | accounts/services.py:47-49 | Over any run at most the issue budget of codes is created in any interval as long as the window |
| OneTimeCodes.OneLiveCode | accounts/services.py:121-172 | At every moment only the newest code can be unconsumed, it has attempts left, no code exceeds its cap, and each succeeds at most once |
| OneTimeCodes.RightAnswer | accounts/services.py:147-172 | In every reachable book a submission succeeds iff the budget is open and it matches an unconsumed, unexpired code for the target; then nothing is left unconsumed |
| OneTimeCodes.GrantedCode | accounts/services.py:121-144 | In every reachable book a code is granted iff fewer than the budget were created in the closed window, and then exactly that code verifies |
| OneTimeCodes.SubmissionLeaves | accounts/services.py:147-172 | In every reachable book a submission changes at most the newest code, and only if it is open for the target: used up by the right secret, by being too late, or by the last wrong guess it allows; an earlier wrong guess is counted |
| OneTimeCodes.IssueLeaves | accounts/services.py:121-144 | A granted request uses up every open code and adds one that lives for the lifetime with no failures; any other changes nothing |
| OneTimeCodeBook.SubmissionReplies | accounts/services.py:147-311 | In every flow a submission is accepted iff the flow is open, the failure budget is not spent and the secret is that of an unconsumed, unexpired code for the target; told to wait iff signed in and over the budget; unavailable iff the change of address is closed |
| OneTimeCodeBook.IssueReplies | accounts/services.py:121-263 | A request for a code is refused only to a signed-in caller over the issue budget, and for a closed change of address |
| OneTimeCodeBook.AnonymousLearnsNothing | accounts/services.py:277-285 | In the flows reachable without signing in, two whole runs of the same requests against any two accounts, existing or not, get the same replies iff the same submissions succeed, and always when none submits a secret that was issued |
| OneTimeCodeBook.CodeStore.AttemptBudgetSpent | accounts/services.py:52-55 | The count of failures on recent codes decides as the specification does |
| OneTimeCodeBook.CodeStore.IssueBudgetSpent | accounts/services.py:47-49 | The count of recent codes decides as the specification does |
| OneTimeCodeBook.CodeStore.FindLive | accounts/services.py:206-208 | Finds the newest unconsumed code bound to the target |
| OneTimeCodeBook.CodeStore.Issue | accounts/services.py:188-251 | Consumes every open code and adds one, or refuses by family; the store stays what its history of requests leaves |
| OneTimeCodeBook.CodeStore.Verify | accounts/services.py:202-311 | Consumes, counts or refuses step by step; the store stays what its history of requests leaves |
| LogisticsInvariant.ReachableKept | logistics/views.py:132-331 | Every reachable file obeys all invariants together, at any date from its last request on |
| LogisticsTheorems.ApprovedIsCleared | logistics/services.py:120-139 | In every reachable approved file the applicable sections are passed and filled, each required checklist type has a current verified document, every other current document is verified or a first checklist addition, all conditions are cleared, all requests closed, and the fleet is there |
| LogisticsTheorems.ApproveExactly | logistics/views.py:308-329 | Full approval is granted iff the file is at a decision, complete, fully verified and in date, with all conditions cleared and all restrictions resolved |
| LogisticsTheorems.ApproveConditionallyExactly | logistics/views.py:308-347 | Conditional approval is granted iff under review, complete and fully verified, sections passed or needing attention, every scope declared, and some condition outstanding |
| LogisticsTheorems.SubmitExactly | logistics/views.py:197-206 | Submission succeeds iff editable, complete, nothing outstanding, nothing refuted or lapsed |
| LogisticsTheorems.WaitingIsRecorded | logistics/services.py:36-51 | An unclosed request implies awaiting information; a refuted current document implies awaiting information, conditionally approved or rejected |
| LogisticsTheorems.ParkedFileCanBeReleased | logistics/views.py:562-584 | A file parked on requests can be handed back by withdrawals, one each, iff no current document is refuted |
| LogisticsTheorems.VersionChains | logistics/views.py:246-265 | Per document type the versions are exactly 1..n, exactly the n-th is current, and domain, scope, vehicle, driver and condition never change, across both upload paths |
| LogisticsVersions.AddVersionKeepsChains | logistics/views.py:608-625 | An upload that retains the identity of the current version keeps the chains |
| LogisticsTheorems.SignOffsRest | logistics/views.py:224-231 | A passed section outside the mineral domain has data, evidence where the checklist asks for some, and only verified current evidence, first checklist additions apart |
| LogisticsTheorems.MineralServiceIsReviewed | logistics/services.py:58-62 | A declared mineral service keeps the mineral domain applicable, and passed and filled in an approved file |
| LogisticsMineral.MineralRestsExactly | logistics/views.py:218-231 | Any request leaves a well-founded mineral sign-off well founded, except exactly an accepted edit that declares a mineral service while the section is not applicable and its pass lacks data or settled evidence |
| LogisticsMineral.MineralMendsExactly | logistics/views.py:149-275 | A request turns an unfounded mineral sign-off into a well-founded one iff it is accepted and edits the services to none that is mineral, saves or reviews the section, uploads evidence that reopens it, refuses a mineral document, or verifies the last unsettled one of a section with data |
| LogisticsMineral.MineralRestsOverRuns | logistics/services.py:58-62 | After any run the mineral sign-off rests on data and evidence iff no such edit has been made without one of the mending requests since |
| LogisticsMineral.MineralSignOffRests | logistics/views.py:224-231 | Over runs without such an edit an applicable, passed mineral section has data and only verified current evidence, first checklist additions apart |
| LogisticsMineral.MineralVerdictCanBeStale | logistics/services.py:58-62 | There is a reachable file with an applicable, passed mineral section that holds no data |
| LogisticsTheorems.OneAutomaticRestriction | logistics/services.py:167-171 | Over any run no two automatic restrictions carry one document, and a resolved one stays behind a version that is no longer current |
| LogisticsHistory.RestrictionsOnlyGrow | logistics/views.py:666-685 | Restrictions are only added and resolved, never rewritten or reopened |
| LogisticsHistory.VerdictsAreFinal | logistics/views.py:462-485 | No document is lost, rewritten, brought back or judged twice |
| LogisticsHistory.RequestFrame | logistics/views.py:132-331 | Each request touches only its own part of the file |
| LogisticsHistory.MovementsOnlyAdvance | logistics/views.py:364-373 | Over any run a movement never goes back a stage, an arrived one can only be delivered, delivered and cancelled are final |
| LogisticsProvenance.ApprovalHasDecision | logistics/views.py:308-329 | Behind every approved file stands one decision on a file that met every gate, and no other status since |
| LogisticsProvenance.VerifiedHasReview | logistics/views.py:462-485 | Every verified document of a run was verified by a review while it was current, unreviewed and in date |
| LogisticsProvenance.ClearedHasEvidence | logistics/views.py:632-645 | Every cleared condition of a run was cleared when current documents answered it, all verified and in date |
| LogisticsProvenance.ClosedHasReason | logistics/views.py:539-584 | Every closed request of a run was withdrawn, or closed on a last response that was current, verified and in date throughout |
| LogisticsHistory.ResolvedOnEvidence | logistics/views.py:666-681 | A restriction is resolved only after its condition is cleared, or its document replaced by a verified one in date |
| LogisticsTheorems.ConditionsBindOperations | logistics/views.py:338-347 | An outstanding scoped condition keeps a restriction that cannot be resolved, and no transport request or movement of that service passes |
| LogisticsMonitor.MonitorIsDeclarative | logistics/services.py:150-184 | A run leaves exactly the old events and the due ones, and adds exactly one restriction for each expired, current, scoped document without an active one |
| LogisticsMonitor.MonitorTwice | logistics/services.py:150-184 | A second run on the same day changes nothing |
| LogisticsTheorems.ExpiryStopsOperations | logistics/services.py:167-171 | After the monitor has seen an expired document its service takes no transport request and no assignment |
| LogisticsTheorems.AssignmentsAreExclusive | logistics/views.py:376-404 | No two active movements share a vehicle or a driver; a scheduled one has neither |
| LogisticsTheorems.OneMovementPerOrder | logistics/views.py:742-770 | A transport request has a movement, and one only, iff it was accepted |
| LogisticsAnswers.EditExactly | logistics/views.py:72-76 | An edit is taken iff the file is with the company, and the mineral domain applies iff a service mentions the word, in either case |
| LogisticsAnswers.SaveVehicleExactly | logistics/views.py:86-107 | A vehicle is saved iff the file is with the company, and no other vehicle changes |
| LogisticsAnswers.SaveDriverExactly | logistics/serializers.py:181-186 | A driver is saved iff the file is with the company and a dedicated vehicle is an active one of the company |
| LogisticsAnswers.SaveSectionExactly | logistics/views.py:149-162 | Section data is stored iff the file is with the company and there is some, and then waits for a new verdict |
| LogisticsAnswers.SubmitRefusals | logistics/services.py:115-121 | A refused submission is not with the company or not complete, and says which |
| LogisticsAnswers.StartReviewExactly | logistics/views.py:186-193 | A review starts from a submitted file only |
| LogisticsAnswers.UploadExactly | logistics/views.py:237-275 | An upload is taken iff its links exist, it keeps the identity of the current version, and, unless it is the first of a checklist type, the status admits it; it supersedes only the current version and reopens the section and an approved file |
| LogisticsAnswers.UploadRefusals | logistics/views.py:249-259 | Each code of a refused upload names a reason that holds |
| LogisticsAnswers.EvidenceExactly | logistics/views.py:598-628 | Condition evidence is taken iff the condition is open, the status admits it and the identity is kept |
| LogisticsAnswers.ReviewSectionExactly | logistics/views.py:210-234 | A verdict on a section is stored as given; not applicable only for an undeclared mineral domain; passed only on data and verified evidence in date |
| LogisticsAnswers.ReviewSectionRefusals | logistics/views.py:213-227 | Each code of a refused verdict on a section names a reason that holds |
| LogisticsAnswers.DecideExactly | logistics/views.py:308-347 | Every decision: granted iff its gates hold, and then status, conditions and the restrictions they bring are exactly those decided |
| LogisticsAnswers.RejectExactly | logistics/views.py:318-327 | A rejection asks only for an open decision without conditions, and changes nothing but the status |
| LogisticsAnswers.DecisionRefusals | logistics/services.py:115-139 | Each code of a refused decision names a gate that fails |
| LogisticsAnswers.ReviewDocumentExactly | logistics/views.py:462-487 | A verdict falls on a current, unreviewed document only, verified only in date; a refusal marks the section and parks the file unless conditionally approved, a verification hands it back iff nothing waits |
| LogisticsAnswers.AskExactly | logistics/views.py:277-291 | A request for information adds an open one and parks the file |
| LogisticsAnswers.RespondExactly | logistics/views.py:518-536 | A response needs an open request and current evidence that is not refuted |
| LogisticsAnswers.ReviewResponseExactly | logistics/views.py:539-560 | A response is accepted iff its last evidence is current, verified and in date; a rejected one reopens the request |
| LogisticsAnswers.WithdrawExactly | logistics/views.py:562-584 | A request is withdrawn iff it is not closed, and the file goes back to the desk iff nothing else waits |
| LogisticsAnswers.ClearExactly | logistics/views.py:632-647 | A condition is cleared iff current documents answer it, all verified and in date |
| LogisticsAnswers.RaiseConditionExactly | logistics/views.py:338-347 | A condition on a declared service brings an unresolved restriction on it |
| LogisticsAnswers.RestrictExactly | logistics/views.py:656-662 | A restriction on a declared service applies from the moment it is made |
| LogisticsAnswers.ResolveExactly | logistics/views.py:666-685 | A restriction is resolved iff its condition is cleared and the current version of its document's type is verified and in date |
| LogisticsAnswers.MonitorExactly | logistics/services.py:150-184 | A run leaves exactly the old events and those owed on the records' own dates, each asset date under its own field, and exactly the restrictions that are needed |
| LogisticsAnswers.AcceptExactly | logistics/views.py:742-770 | A transport request is accepted iff new or blocked and of an unrestricted service, and gets a movement if it has none |
| LogisticsAnswers.DeclineExactly | logistics/views.py:774-785 | A transport request is declined iff new or blocked |
| LogisticsAnswers.AssignExactly | logistics/views.py:376-412 | An assignment is granted iff the service is unrestricted, a given vehicle is active, insured, roadworthy and free, a given driver is active, licensed, medically cleared, free and dedicated to no other given vehicle; it writes what is given and turns scheduled into assigned |
| LogisticsAnswers.AssignRefusals | logistics/views.py:376-412 | Each code of a refused assignment names a reason that holds |
| LogisticsAnswers.MoveExactly | logistics/views.py:364-373 | A movement takes exactly the fifteen listed steps |
| LogisticsDesk.CompanyFile.Handle | logistics/views.py:28-36 | A file that holds what its history leaves answers each request, dates never going back, as the specification does, and still holds what its longer history leaves |
| LogisticsDesk.CompanyFile.UploadDocument | logistics/views.py:237-272 | The step-by-step upload leaves exactly the specified file and reply |
| LogisticsDesk.CompanyFile.Decide | logistics/views.py:308-329 | The decision, with conditions written before the last refusal, leaves the specified file, the old one when refused |
| LogisticsDesk.CompanyFile.ReviewDocument | logistics/views.py:462-485 | Verdict, section and status are updated as specified |
| LogisticsDesk.CompanyFile.ReviewSection | logistics/views.py:210-232 | The verdict is written, or refused for the specified gap |
| LogisticsDesk.CompanyFile.UploadEvidence | logistics/views.py:598-628 | Condition evidence is added on the chain of its type as specified |
| LogisticsDesk.CompanyFile.Resolve | logistics/views.py:666-685 | The restriction is resolved, or refused, as specified |
| LogisticsDesk.CompanyFile.Assign | logistics/views.py:799-825 | The guards are tried in order and one movement changes as specified |
| LogisticsDesk.CompanyFile.Monitor | logistics/services.py:156-183 | The nested loops leave the specified file, and the count returned is the growth of the events |
| LogisticsDesk.MonitorEach | logistics/services.py:150-184 | Every company is monitored once, and the total is the sum of the growths |
| LogisticsDesk.MonitorExpiries | logistics/services.py:150-184 | The same, and every file still holds what its history, longer by the run, leaves |
| ComplianceTheorems.RejectionShows | compliance/views.py:516-533 | A rejected document implies action required or rejected |
| ComplianceTheorems.OrganisationMirrors | compliance/workflow.py:29-42 | Past draft the organisation's verification, date, reason and submission time are functions of the application |
| ComplianceTheorems.VerifiedIsComplete | compliance/views.py:473-486 | A verified file has cleared conditions, a complete form, accepted required documents, and no other documents than accepted ones and later logistics supplements |
| ComplianceTheorems.VerifiedIsFinal | compliance/workflow.py:21 | Whatever follows, a verified file never changes, but for later supplements to the logistics checklist, which never touch an accepted document |
| ComplianceTheorems.VerificationHasDecision | compliance/views.py:465-495 | Behind every verified file stands one decision on a complete file with accepted documents and cleared conditions, and only late supplements since |
| ComplianceTheorems.VerifyExactly | compliance/views.py:465-486 | Verification is granted iff in review, complete, every document accepted, every condition cleared, and free-form requirements converted |
| ComplianceTheorems.ApproveConditionallyExactly | compliance/views.py:465-486 | Conditional approval is granted iff under review or action required, complete, every document accepted, and some condition outstanding |
| ComplianceTheorems.TableIsExact | compliance/workflow.py:9-27 | On a complete, accepted and cleared file some request leads to another status iff the table lists it |
| ComplianceTheorems.TableIsLive | compliance/workflow.py:9-22 | A complete file can take every entry of the table |
| ComplianceTheorems.ConditionProtocol | compliance/views.py:554-590 | The status of a condition is exactly a reading of its evidence |
| ComplianceProvenance.DocumentHasRequest | compliance/views.py:316-350 | Every document of a run is as one request left it, unchanged since: asked for, filed, or given just that verdict while filed under review |
| ComplianceProvenance.EvidenceHasVerdict | compliance/views.py:573-590 | Every piece of evidence that no longer waits got just its verdict from one request, while it was the last piece of an answered condition |
| ComplianceProvenance.ClearedHasAcceptance | compliance/views.py:573-590 | Every cleared condition of a run was cleared by an acceptance of its last piece of evidence |
| ComplianceAnswers.SaveFieldExactly | compliance/views.py:109-133 | A part of the form is filled or emptied iff the file is with the applicant, and no other part changes |
| ComplianceAnswers.PersonnelExactly | compliance/views.py:275-313 | People are added and removed until verification |
| ComplianceAnswers.UploadExactly | compliance/views.py:322-350 | An upload is taken iff it has a file, its type is on the checklist or was asked for, and a verified application gets only open supplements of the logistics checklist |
| ComplianceAnswers.SubmitExactly | compliance/views.py:430-456 | Submission succeeds iff editable, from a reachable applicant, with no rejected document, and writes status, time and the organisation's record |
| ComplianceAnswers.DecideExactly | compliance/views.py:465-495 | Every decision: granted iff its gates hold, and the whole of what it writes, the organisation's record included |
| ComplianceAnswers.DecisionRefusals | compliance/views.py:465-486 | Each code of a refused decision names a gate that fails |
| ComplianceAnswers.RequestExactly | compliance/views.py:499-512 | A request for a document is taken iff in review, keeps a file that is there and makes the file wait for the applicant |
| ComplianceAnswers.ReviewDocumentExactly | compliance/views.py:516-533 | The verdict stored is the verdict given, on a filed document only, and a refusal makes the file wait for the applicant |
| ComplianceAnswers.AddConditionExactly | compliance/views.py:538-550 | A condition is added iff in review, and is pending |
| ComplianceAnswers.AnswerConditionExactly | compliance/views.py:554-569 | Evidence is taken iff the condition is pending or unanswered, and then waits |
| ComplianceAnswers.ReviewAnswerExactly | compliance/views.py:573-590 | The verdict stored is the verdict given, on a waiting piece only, and clears the condition iff convincing |
| ComplianceTheorems.ClearedStaysCleared | compliance/views.py:573-590 | Conditions are never withdrawn and a cleared one never changes |
| ComplianceTheorems.ProgressExact | compliance/serializers.py:450-491 | One hundred percent means every section, for the list of seven and the list of eight |
| ComplianceDesk.ApplicationFile.Handle | compliance/views.py:70-76 | A file that holds what its history leaves answers each request as the specification does and still holds what its longer history leaves |
| ComplianceDesk.ApplicationFile.Decide | compliance/views.py:465-495 | Checks, notes, transition and new conditions leave the specified application, the old one when refused |
| ComplianceDesk.ApplicationFile.Transition | compliance/workflow.py:29-42 | Application and organisation are updated field by field as specified |
| Rounding.FullPercent | logistics/services.py:104 | The rounded percentage is 100 iff at most one check in 200 is missing |
| Rounding.GateIsExact | compliance/serializers.py:489-491 | For 1 to 199 checks the gate opens iff every check holds |
| Rounding.GateBreaks | logistics/services.py:88-108 | The gate is exact for every list of n checks iff n is below 200 |

## Left out

- Who may call: roles, grants, the assignment of a case to a desk member, and the visibility of documents. The theorems hold whoever makes the requests.
- Interleavings inside a request, row locks and the budget checks that sit outside their transaction.
- HTTP, ORM, SQL, file storage and inspection, email, SMS, background jobs, audit rows, notifications and reference tokens.
- The schema checks of the merge's `validate`; only the parents-before-children and listed-column rules are modelled.
- Concrete column builders, defaults and normalizers of the merge, and its printed reports.
- MergeSecondRun.SecondRunNeverInsertsExactly: leaves out lists in which a needed table itself has two or more required parents; the shipped list has no such table.
- MergeEngine.Merger.Run: the database is a map of row lists; savepoints and the log file are not modelled.
- Editing of movements, deliveries and transport requests by plain create and update, which leave status, vehicle and driver writable; deliveries as a whole.
- Logistics records that exist before the application does, other than vehicles, drivers and manual restrictions.
- Text comparison without regard to case is modelled for ASCII letters.
- The bridge that carries Quality desk verdicts back to compliance documents (`quality/bridge.py`) changes them without a transition; a Quality file is covered as long as that bridge is not used.
- Changing the sector of an application after it was filed.
- Other places that set an organisation's verification (`mining/views.py`).
- `export/`, `marketplace/`, `finance/`, `ecosystem/` and `careers/`, which would add shorter machines of the same kinds.
