# Casegraph, modelled and proved in Dafny

Casegraph stores evidence about cases without ever overwriting it. External claims are recorded with
their evidence, compared with earlier claims, reviewed and corrected by humans, and judged by
versioned rules whose evaluations are remembered. Around that store stand a calendar, text and CSV
extractors, a content-addressed blob store and a migration runner. This project models these parts
and proves what they promise in every reachable state.

`dafny verify dfyconfig.toml` checks the whole project with Dafny 4.11.

## Structure

| file | part of Casegraph |
|---|---|
| Wrappers, Digits, Texts, Ordering | options and results, numerals, text slicing and UTF-8, orders and ordered listings |
| Records, Values | the records of the store, known and unknown values, normalisation of texts |
| Rules | the rule evaluator: candidates, precedence of verdicts, recorded inputs |
| Verdicts | what every verdict and explanation means, in terms of the values found |
| Evidence | the tables, their queries, and what each transaction does to them |
| Operations | the operations as steps, and what is assumed of identifiers and the clock |
| Links, States, Evaluations | what every operation keeps: support and contradictions; current states and facts; stored evaluations and workflows |
| History | every step keeps the invariant; histories, that is runs from the empty store with all their states |
| Promises | what one operation, or two related states, promise |
| Outcomes | when each operation is accepted, how it is refused, and all it stores |
| Guarantees, Origins, Answers | the main results: what holds in every history, where everything in a state comes from, what evaluations answer |
| Witnesses | concrete runs in which the store does less than a reader may expect |
| Repository | the repository and rule service as classes whose methods meet the transactions above |
| Temporal, IsoDates | civil dates, ordinals, date arithmetic, ISO texts |
| Csv, CsvTexts, CsvExtraction, TextExtraction, Decimals | the extractors; every text as a written table |
| ArtifactPaths, BlobStore, ArtifactStore | the blob store: names, interleaved writers, one caller |
| Ingestion, IngestionOutcomes, SharedArchive | versions of artifacts and the bytes behind them, when an ingestion is accepted, for one caller and for many at once |
| Migrations | the migration runner for any list numbered 1 to n |

State that the source changes in place is a class (`Repository.SqliteEvidenceRepository`,
`Repository.RuleWorkflowService`, `Ingestion.ArtifactRepository`, `Ingestion.CasegraphService`,
`ArtifactStore.FilesystemArtifactStore`, `Migrations.Connection`), and each method is proved equal to
a function on the state. Lemmas about runs are about those functions. Loops of the source
(`parse_csv`, `extract_csv`, `extract_text`, the evaluator, the comparison with prior claims,
`verify_existing`, `migrate_to`) are methods with the same loops.

## Assumptions

- Each transaction is one atomic step: it happens completely or not at all. An evaluation lists the
  claims of its case, reads their states and evidence, and concludes in one recording transaction;
  each of the three is a step of its own, and any operations may come between them (`Concludes`).
  `EvaluateOp` is the evaluation that nothing comes between.
- Identifiers that the store inserts with `INSERT OR IGNORE` under a generated name (support edges and
  state changes of reviews and corrections) are fresh, and state changes are strictly later than all
  earlier ones. These are the predicates `Admissible` and `Afterwards`. Every other identifier may be
  repeated: its table then refuses the operation, and the model has that branch, also for the rows that
  are written and never read (provenance, observations, reviews, rules, audit events).
- A strict clock is needed for what depends on which change of state comes last. Without it the state
  follows the greatest pair of time and identifier (`States.LatestIsGreatest`), and operations still only
  append (`History.StepAppends`).
- SHA-256 and canonical JSON do not collide where they name database rows: an identifier derived by
  hashing is modelled by what is hashed, and the inputs of an evaluation stand for their digest.
- The digest of the blob store is any function to 64 lowercase hexadecimal digits. Freedom from
  collisions is assumed only where a lemma says so, and only among the byte strings of the run.
- Process numbers of running processes are distinct, renaming a file is atomic, and checking a file in
  place is one step.

## Where the code does less than a reader may expect

The code is followed as it is. In these cases the exact condition is proved.

- A claim can be verified by a review once in its life, because its fact row is unique. An external
  claim that was verified and then contradicted, rejected or superseded is never verified again
  (`Guarantees.SpentForever`, `Promises.VerifiableExactly`, `Witnesses.VerificationRefused`).
- Correcting a claim entered by a human that has no fact does not retire its evaluations for good:
  rejecting the corrected claim and verifying the original brings them back
  (`Guarantees.RetiredExactly`, `Witnesses.CorrectionUndone`).
- The affected derivations of a correction are found through evidence, and claims entered by a human
  have none: their evaluations are never reported (`Guarantees.AffectedIsExact`,
  `Witnesses.OverlookedEvaluation`).
- A correction compares the corrected claim with no other claim, and a recording compares with live
  priors only. Claims are related exactly as far as recordings compared them, so a corrected claim may
  differ from a live claim on its key without a contradiction (`Guarantees.RelatedExactly`,
  `Guarantees.SettledExactly`, `Guarantees.CorrectedIsUnrelated`, `Witnesses.MissedContradiction`).
- An evaluation that read its inputs before a correction can still be answered with what the
  correction retired; one that reads afterwards cannot (`Guarantees.EarlyReadsAnswerExactly`,
  `Guarantees.LateReadsAvoidRetired`, `Witnesses.StaleAnswer`).
- A text span is the first occurrence of the value in its line and may cover the key
  (`TextExtraction.SpanAfterColon`, `TextExtraction.SpanMayCoverTheKey`).
- A last CSV field loses a final CR before a bare line feed, quoted or not, and records of empty
  fields are dropped (`Csv.LineFeedRoundTrip`, `Csv.CrlfRoundTrip`, `Csv.LineFeedLosesReturn`,
  `Csv.EmptyRecordIsDropped`).
- `parse_iso` accepts numbers with a leading plus sign (`IsoDates.RenderAfterParse`, `IsoDates.PlusIsAccepted`).
- Decimals of scale 0 and the coefficient -2^63 can be held but not read (`Decimals.DecimalRoundTrip`,
  `Decimals.UnreadableDecimals`).
- Dates read from JSON are not validated. Arithmetic on such a value is that of the day its parts add up
  to (`Temporal.DenotedIsCivil`, `Temporal.CheckedAddDaysIsWalk`, `Temporal.InvalidDateIsAnotherDay`).

## Model

| member | source | states |
|---|---|---|
| Guarantees.CorrectionRetiresEvaluations | crates/casegraph-infrastructure/src/sqlite_repository.rs:463-555 | Once a claim is corrected that was recorded externally, or that a review ever verified, no evaluation stored before that used it is the answer to any question in any later state of any run. |
| Guarantees.RetiredExactly | crates/casegraph-infrastructure/src/sqlite_repository.rs:463-555 | That condition is exact: an evaluation that is the current answer comes back after the correction, a rejection of the corrected claim and a verification of the original if and only if the original had left no fact. |
| Guarantees.SpentForever | crates/casegraph-infrastructure/src/sqlite_repository.rs:1226-1244 | A claim that once lost its verification after leaving a fact is not verified in any later state. |
| Promises.VerifiableExactly | crates/casegraph-infrastructure/src/sqlite_repository.rs:431-461 | A review verifies a claim exactly when the claim has left no fact and no row the review inserts has an identifier already there. |
| Promises.RetiredStaysRetired | crates/casegraph-infrastructure/src/sqlite_repository.rs:500-519 | Where a spent claim fed an evaluation, no later state answers with it. |
| Promises.UndoneAnswers | crates/casegraph-application/src/service.rs:265-284 | Undoing a correction of a claim without a fact brings remembered answers back unchanged. |
| Promises.RecordSettles | crates/casegraph-infrastructure/src/sqlite_repository.rs:283-357 | Recording a claim relates it to each comparable live prior, by corroboration if the values are equal and by contradiction otherwise. |
| Promises.AnswersUseCurrentInputs | crates/casegraph-infrastructure/src/sqlite_repository.rs:723-738 | Whatever a question is answered with is stored, has exactly the inputs that are current now in recorded order, and, when it was stored before, is returned without any change. |
| Guarantees.AnswersAreFresh | crates/casegraph-infrastructure/src/sqlite_repository.rs:716-738 | A remembered answer equals what a fresh evaluation would produce (inputs, verdict, explanation, obligation, due date, work), up to identifiers, times and correlation. |
| Answers.AnswersFollowClaims | crates/casegraph-application/src/rules.rs:76-258 | In every history what is answered, from memory or not, is decided by the claims of the case that are verified at that moment, exactly for each verdict; a satisfied rule gives the obligation, the work and the due date its definition states for the one anchor date. |
| Answers.InputsAreClaims | crates/casegraph-application/src/rules.rs:85-137 | The inputs are exactly the verified claims of the case on the key of some condition or on the anchor, each with its whole support in order. |
| Guarantees.AnswersUseTheirReads | crates/casegraph-application/src/rules.rs:76-258 | When other operations come between the reads of an evaluation and its conclusion, the answer rests on exactly the inputs that were current when it read, less claims it had not listed, and is what a fresh judgement of these says, up to identifiers, times and correlation. |
| Guarantees.LateReadsAvoidRetired | crates/casegraph-application/src/rules.rs:76-258 | An evaluation that reads after a correction is never answered with one the correction has retired, whatever comes between its reads and its conclusion. |
| Guarantees.EarlyReadsAnswerExactly | crates/casegraph-infrastructure/src/sqlite_repository.rs:716-738 | A stored evaluation is the answer to a question whose judgement succeeds if and only if it is of the same case and rule version and its inputs are those the question read, whenever it read them. |
| Guarantees.EarlyReadsKeepTheirAnswer | crates/casegraph-infrastructure/src/sqlite_repository.rs:716-738 | What would have answered when a question read its inputs does answer it, even if a correction commits in between. |
| Guarantees.ConclusionsAreLossless | crates/casegraph-infrastructure/src/sqlite_repository.rs:739-838 | The answer to such a question joins back without loss in every later state. |
| Witnesses.StaleAnswer | crates/casegraph-application/src/rules.rs:76-258 | A concrete run in which a question that read before a correction is answered after it with the retired evaluation. |
| Promises.AskingAgain | crates/casegraph-infrastructure/src/sqlite_repository.rs:723-738 | Asking the same question twice changes nothing and gives the identical answer. |
| Promises.RememberedAnswers | crates/casegraph-infrastructure/src/sqlite_repository.rs:723-738 | A stored evaluation of the current inputs is the only possible answer. |
| Guarantees.WorkflowsAreLossless | crates/casegraph-infrastructure/src/sqlite_repository.rs:739-838 | In every later state the rows of an evaluation join to exactly what was answered; obligation, deadline and task exist together, exactly for a satisfied verdict, and refer to each other. |
| Guarantees.ContradictionsAreSound | crates/casegraph-infrastructure/src/sqlite_repository.rs:306-357 | In every reachable state each contradiction joins once, smaller identifier first, two claims on the same key with unequal known values, with edges both ways; corroborations join equal values. |
| Guarantees.EveryPriorIsSettled | crates/casegraph-infrastructure/src/sqlite_repository.rs:253-357 | For each recorded claim and each earlier live claim with a known value on its key, all later states have exactly one of a corroboration and a contradiction, decided by equality of the values. |
| Guarantees.SettledExactly | crates/casegraph-infrastructure/src/sqlite_repository.rs:253-357 | For a recorded claim and any claim there before it, all later states relate the two (by corroboration or contradiction) if and only if the earlier one was live on the same key and both values are known. |
| Guarantees.RelatedExactly | crates/casegraph-infrastructure/src/sqlite_repository.rs:231-555 | In every reachable state two claims are related if and only if some operation of the run compared them: an accepted recording of one while the other was live on its key, both values known. |
| Guarantees.StepRelates | crates/casegraph-infrastructure/src/sqlite_repository.rs:231-555 | One operation of any kind adds exactly the relations of the pairs it compares and removes none. |
| Guarantees.CorrectedIsUnrelated | crates/casegraph-infrastructure/src/sqlite_repository.rs:463-555 | In every state after a correction the corrected claim is related to no claim that was there before. |
| Witnesses.MissedContradiction | crates/casegraph-infrastructure/src/sqlite_repository.rs:463-555 | A concrete run after which two live claims on one key have different known values and stand in no contradiction. |
| Promises.RecordReturns | crates/casegraph-infrastructure/src/sqlite_repository.rs:278-363 | The returned contradictions and corroborated claims are exactly those with the live priors, both position by position in the order the priors were created. |
| Guarantees.AffectedIsExact | crates/casegraph-infrastructure/src/sqlite_repository.rs:1899-1921 | The derivations a correction reports, found through evidence joins, are the sorted evaluations whose inputs contain the claim if the claim is external; for other claims the list is empty, which is right if and only if nothing uses the claim. |
| Origins.CorrectionsReportExactly | crates/casegraph-infrastructure/src/sqlite_repository.rs:463-555 | In every history an accepted correction returns, and stores for good, its own identifiers and exactly the sorted evaluations that use an external original; for another original an empty list. |
| Guarantees.HumanInputsAreOverlooked | crates/casegraph-infrastructure/src/sqlite_repository.rs:1899-1921 | In every state every evaluation that uses a claim which is not external is missing from the report. |
| Witnesses.OverlookedEvaluation | crates/casegraph-infrastructure/src/sqlite_repository.rs:473-476 | A concrete run from the empty store after which the report differs from the evaluations that use the claim. |
| Witnesses.CorrectionUndone | crates/casegraph-infrastructure/src/sqlite_repository.rs:463-555 | A concrete run in which a correction is undone and the answer that used the corrected claim is back. |
| Witnesses.VerificationRefused | crates/casegraph-infrastructure/src/sqlite_repository.rs:431-461 | A concrete run in which a claim is verified, rejected and then refused a second verification, although all names are new. |
| Promises.UndoneStates | crates/casegraph-application/src/service.rs:265-284 | A correction, the rejection of the corrected claim and the verification of the original restore every earlier claim's state. |
| Origins.EverythingHasAnOrigin | crates/casegraph-infrastructure/src/sqlite_repository.rs:56-666 | In every reachable state the cases, claims, facts, rule versions and corrections are exactly those that earlier operations stored which found what they need, each with the requested content; nothing else in the tables stops an operation. |
| Origins.RuleKeysAreUnique | crates/casegraph-infrastructure/src/sqlite_repository.rs:615-666 | In every reachable state a package has at most one rule version of a key. |
| Outcomes.RecordingExactly | crates/casegraph-infrastructure/src/sqlite_repository.rs:231-386 | A claim is recorded exactly when its case is known and no row it inserts is there, whatever earlier claims say; the error of each refusal; the stored claim. |
| Outcomes.RecordingAnswers | crates/casegraph-infrastructure/src/sqlite_repository.rs:278-363 | The answer has one contradiction row for each live claim on the key with another known value and one identifier for each with the same, in the order in which those were created. |
| Outcomes.RecordingLinks | crates/casegraph-infrastructure/src/sqlite_repository.rs:278-357 | The edges and contradictions of a recording, whatever names it is given; only the support edge is left out when its name is taken. |
| Outcomes.RecordingSupports | crates/casegraph-infrastructure/src/sqlite_repository.rs:253-277 | The support of a recorded claim is the evidence it was recorded with. |
| Outcomes.ReviewingExactly | crates/casegraph-infrastructure/src/sqlite_repository.rs:431-461 | When a review is accepted, for every decision, the error of each refusal, and the fact of a verification with the value of the claim. |
| Outcomes.ReviewingChanges | crates/casegraph-infrastructure/src/sqlite_repository.rs:431-461 | The state change of a review, left out exactly when its name is taken. |
| Outcomes.CorrectingExactly | crates/casegraph-infrastructure/src/sqlite_repository.rs:463-555 | When a correction is accepted, the error of each refusal, and the stored claim on the key of the original. |
| Outcomes.CorrectingChanges | crates/casegraph-infrastructure/src/sqlite_repository.rs:500-540 | The two state changes and the edge of a correction, each left out exactly when its name is taken. |
| Outcomes.RegisteringExactly | crates/casegraph-infrastructure/src/sqlite_repository.rs:615-666 | A rule version is registered exactly when its rows are new and its package has no rule of its key. |
| Outcomes.OpeningExactly | crates/casegraph-infrastructure/src/sqlite_repository.rs:56-85 | A case is opened exactly when its identifier and that of its audit event are new. |
| Outcomes.MaterializingExactly | crates/casegraph-application/src/rules.rs:173-246 | Everything an evaluation causes, word for word from the rule and the request, or a refusal exactly when the due date leaves its range. |
| Outcomes.ConcludingExactly | crates/casegraph-infrastructure/src/sqlite_repository.rs:716-858 | An evaluation is refused as invalid, remembered, stored as a whole or refused as a conflict under conditions that exclude each other and leave nothing out. |
| Outcomes.EvaluatingExactly | crates/casegraph-application/src/rules.rs:76-258 | The service finds no rule exactly without the version, and otherwise concludes from the current inputs under the same conditions. |
| History.StepKeepsInv | crates/casegraph-infrastructure/src/sqlite_repository.rs:231-858 | Every operation, accepted or refused, keeps the whole invariant of links, facts and evaluations, and loses nothing later states rely on. |
| History.LaterContinues | crates/casegraph-infrastructure/src/sqlite_repository.rs:231-858 | In every history each later state keeps the invariant and the claims, links, rule versions, evaluations with their workflows, and lost verifications of every earlier one. |
| History.ReachableIsValid | crates/casegraph-infrastructure/src/sqlite_repository.rs:231-858 | The invariant holds after every run from the empty store. |
| History.StepAppends | crates/casegraph-infrastructure/src/sqlite_repository.rs:56-858 | Every operation only adds rows, accepted or refused, whatever identifiers and times it is given: state changes at the end of the log, everything else under new keys. |
| History.LogOnlyGrows | crates/casegraph-infrastructure/src/sqlite_repository.rs:56-858 | The same between any two states of a history. |
| States.RecordStates | crates/casegraph-infrastructure/src/sqlite_repository.rs:338-356 | Recording a claim contradicts exactly itself and the live priors it conflicts with; all other states stay. |
| States.ReviewStates | crates/casegraph-application/src/service.rs:265-284 | A review gives its claim the decided state and changes no other. |
| States.CorrectionStates | crates/casegraph-infrastructure/src/sqlite_repository.rs:500-519 | A correction supersedes the original, verifies the corrected claim, and changes no other state. |
| States.LatestOfLater | crates/casegraph-infrastructure/src/sqlite_repository.rs:682-690 | Changes at a later time decide the current state of the claims they concern and of no others. |
| States.LatestIsGreatest | crates/casegraph-infrastructure/src/sqlite_repository.rs:682-690 | Without any assumption on the clock, the current state is that of the change with the greatest pair of time and identifier. |
| States.RecordKeepsFacts | crates/casegraph-infrastructure/src/sqlite_repository.rs:338-356 | A verified external claim has a fact with its value: recording a claim keeps this. |
| States.ReviewKeepsFacts | crates/casegraph-infrastructure/src/sqlite_repository.rs:431-461 | A review keeps it, and removes no fact. |
| States.CorrectionKeepsFacts | crates/casegraph-infrastructure/src/sqlite_repository.rs:463-555 | A correction keeps it. |
| Links.RecordKeepsLinks | crates/casegraph-infrastructure/src/sqlite_repository.rs:231-386 | Recording keeps every external claim supported by exactly one evidence record of its own, contradictions sound, and edges and changes well-formed. |
| Links.RecordChanges | crates/casegraph-infrastructure/src/sqlite_repository.rs:338-356 | The appended state changes are exactly the pairs of the new contradictions. |
| Links.CorrectionKeepsLinks | crates/casegraph-infrastructure/src/sqlite_repository.rs:520-540 | A correction adds no support: the corrected claim has none and the others keep theirs. |
| Evaluations.StoredIsLoaded | crates/casegraph-infrastructure/src/sqlite_repository.rs:1723-1778 | A newly stored materialisation joins back without loss, and every one stored before still joins to what it was. |
| Evaluations.EvaluateKeepsEvaluations | crates/casegraph-infrastructure/src/sqlite_repository.rs:716-858 | Evaluating keeps every stored evaluation reproducible from its recorded inputs and touches no claim. |
| Evaluations.ConcludeKeepsEvaluations | crates/casegraph-infrastructure/src/sqlite_repository.rs:716-858 | Concluding from inputs read in any earlier state keeps it too. |
| Evaluations.DeadlineIsExact | crates/casegraph-application/src/rules.rs:190-226 | A satisfied rule has one anchor date, and its due date is the stated number of calendar days after the day that date stands for; the evaluation is refused exactly when the interval or the date leaves its range. |
| Evaluations.EvaluationsStay | crates/casegraph-infrastructure/src/sqlite_repository.rs:231-555 | Operations that store no evaluation leave every stored one reproducible and its workflow unchanged. |
| Rules.Collect | crates/casegraph-application/src/rules.rs:85-171 | The evaluator's loops, sort and de-duplication yield the strictly sorted relevant verified claims, and the verdict, explanation and anchors of that set alone. |
| Rules.SortingRecords | crates/casegraph-application/src/rules.rs:129-137 | Sorting and removing adjacent repeats records each input exactly once, whatever order and repetition it was collected in. |
| Rules.Recorded | crates/casegraph-application/src/rules.rs:129-137 | The recorded inputs are strictly sorted by subject, predicate and claim, and are exactly the given set. |
| Rules.CandidatesDecide | crates/casegraph-application/src/rules.rs:90-115 | The two counts of a condition decide whether it is missing, failed or disagreed upon. |
| Rules.RecordedInputsSuffice | crates/casegraph-application/src/rules.rs:90-171 | Evaluating again on only the recorded inputs gives the same inputs, hence the same judgement. |
| Rules.ConditionOrderIsIrrelevant | crates/casegraph-application/src/rules.rs:90-171 | Reordering or repeating conditions changes neither inputs nor verdict nor anchors. |
| Verdicts.VerdictsExactly | crates/casegraph-application/src/rules.rs:139-171 | Satisfied exactly when on the key of every condition only the expected value is found and the anchor has one date; not satisfied exactly when there is at most one date, every condition holds or is refuted and one is refuted; indeterminate otherwise. |
| Verdicts.ExplanationsExactly | crates/casegraph-application/src/rules.rs:139-171 | Which explanation is given, exactly, in the order of precedence of the evaluator; the lists in it are the attributes of exactly the missing, or the refuted, conditions in the order of the rule. |
| Rules.RecordedOrder | crates/casegraph-application/src/rules.rs:129-137 | Of two recorded inputs the first that differs of subject, predicate and claim decides the order. |
| Ordering.ListedIsUnique | crates/casegraph-infrastructure/src/sqlite_repository.rs:682-700 | A set has one listing in a given order, so ordered queries do not depend on how rows are stored. |
| Repository.RelatePriors | crates/casegraph-infrastructure/src/sqlite_repository.rs:278-357 | The loop over prior claims relates the new claim to each exactly as relating it to all at once. |
| Repository.SqliteEvidenceRepository.RecordClaim | crates/casegraph-infrastructure/src/sqlite_repository.rs:231-386 | The transaction's new tables and result are those of the specification, and the invariant is kept. |
| Repository.SqliteEvidenceRepository.ReviewClaim | crates/casegraph-infrastructure/src/sqlite_repository.rs:431-461 | Same for a review: the state change and the fact are stored together or not at all. |
| Repository.SqliteEvidenceRepository.CorrectClaim | crates/casegraph-infrastructure/src/sqlite_repository.rs:463-555 | Same for a correction. |
| Repository.SqliteEvidenceRepository.CreateCase | crates/casegraph-infrastructure/src/sqlite_repository.rs:56-85 | Same for opening a case. |
| Repository.SqliteEvidenceRepository.RegisterRule | crates/casegraph-infrastructure/src/sqlite_repository.rs:615-666 | Same for registering a rule version; a package and key are registered once. |
| Repository.SqliteEvidenceRepository.ListClaims | crates/casegraph-infrastructure/src/sqlite_repository.rs:393-411 | Exactly the claims of the case, each once, in order of creation. |
| Repository.SqliteEvidenceRepository.ListGroundedClaims | crates/casegraph-infrastructure/src/sqlite_repository.rs:676-714 | Exactly the claims of the case, each once, in order of creation, with current state and sorted evidence. |
| Repository.SqliteEvidenceRepository.LoadWorkflow | crates/casegraph-infrastructure/src/sqlite_repository.rs:1723-1778 | The joined rows are the evaluation's own. |
| Repository.SqliteEvidenceRepository.RecordEvaluation | crates/casegraph-infrastructure/src/sqlite_repository.rs:716-858 | Returns the remembered materialisation, or stores all rows, or is refused and stores none. |
| Repository.DerivedEdgeIsNew | crates/casegraph-infrastructure/src/sqlite_repository.rs:1118-1171 | No edge of a new claim is dropped by the insertion that ignores rows already there. |
| Repository.ContradictionIsNew | crates/casegraph-infrastructure/src/sqlite_repository.rs:306-325 | No contradiction of a new claim is dropped, and loading it by its identifier finds it alone. |
| Repository.ChangesAreNew | crates/casegraph-infrastructure/src/sqlite_repository.rs:338-356 | No state change of a new contradiction is dropped. |
| Repository.Consequences | crates/casegraph-application/src/rules.rs:190-246 | The loop-free second half of the evaluation turns recorded inputs and their judgement into the specified materialisation or refusal. |
| Repository.RuleWorkflowService.CollectInputs | crates/casegraph-application/src/rules.rs:76-171 | The first half of an evaluation, on claims listed in any earlier state: the inputs it records and its judgement are those of what is read now. |
| Repository.RuleWorkflowService.ConcludeRule | crates/casegraph-application/src/rules.rs:173-258 | The second half, on what was read in any earlier state: tables and answer are those of the specified conclusion, and the invariant is kept. |
| Repository.RuleWorkflowService.EvaluateRule | crates/casegraph-application/src/rules.rs:76-258 | The service's evaluation, when nothing comes between its parts, is the specified one: tables and answer. |
| Temporal.CivilRoundTrip | crates/casegraph-domain/src/temporal.rs:178-205 | Every valid Gregorian date, of any year of the integer type, is recovered from its ordinal. |
| Temporal.DaysRoundTrip | crates/casegraph-domain/src/temporal.rs:178-205 | Every ordinal between the first and last such date names a valid date of that ordinal. |
| Temporal.WideDaysRoundTrip | crates/casegraph-domain/src/temporal.rs:178-205 | The same for all ordinals when years are unbounded. |
| Temporal.WalkOrdinal | crates/casegraph-domain/src/temporal.rs:164-186 | Walking n single days of the calendar, forward or backward, moves the ordinal by n. |
| Temporal.CheckedAddDaysIsWalk | crates/casegraph-domain/src/temporal.rs:81-87 | For every date value, validated or not, adding n days is n single steps of the naive calendar from the day the value stands for, and fails exactly when the result leaves years 1 to 9999. |
| Temporal.DenotedIsCivil | crates/casegraph-domain/src/temporal.rs:178-205 | Every date value stands for one day of the calendar: itself exactly when it is valid. |
| Temporal.InvalidDateIsAnotherDay | crates/casegraph-domain/src/temporal.rs:178-205 | A concrete date value that no calendar has, and the day it stands for. |
| Temporal.AdditionsCompose | crates/casegraph-domain/src/temporal.rs:81-87 | Additions compose: two accepted additions are one addition of the sum. |
| Temporal.WalksCompose | crates/casegraph-domain/src/temporal.rs:81-87 | Walks of any length and sign compose. |
| Temporal.OrderIsOrdinalOrder | crates/casegraph-domain/src/temporal.rs:38-43 | The derived order of dates is the order of their ordinals. |
| Temporal.New | crates/casegraph-domain/src/temporal.rs:47-56 | A date is built exactly for valid days of years 1 to 9999, unchanged. |
| IsoDates.ParseAfterRender | crates/casegraph-domain/src/temporal.rs:59-78 | Every date is read back from its ISO text. |
| IsoDates.RenderAfterParse | crates/casegraph-domain/src/temporal.rs:59-78 | An accepted text is the ISO text of its date if and only if it consists of digits and hyphens only (a leading plus sign is accepted too). |
| IsoDates.ParseIsoExactly | crates/casegraph-domain/src/temporal.rs:59-78 | Exactly the texts of three integers of 4, 2 and 2 characters with hyphens between that name a day of years 1 to 9999 are read as that day. |
| IsoDates.PlusIsAccepted | crates/casegraph-domain/src/temporal.rs:63-71 | A concrete text with a plus sign that is read as a date. |
| Csv.ParseCsv | crates/casegraph-infrastructure/src/extractors.rs:209-248 | The one-pass reader computes the specified parse. |
| Csv.FailsOnOddQuotes | crates/casegraph-infrastructure/src/extractors.rs:215-242 | Parsing fails exactly when the text has an odd number of quote characters, escaped or not. |
| Csv.CrlfRoundTrip | crates/casegraph-infrastructure/src/extractors.rs:209-248 | Reading undoes writing after section 2 of RFC 4180 with CRLF, whichever fields are quoted that need not be, exactly on lists whose records all have a non-empty field; what is read otherwise is stated too. |
| Csv.LineFeedRoundTrip | crates/casegraph-infrastructure/src/extractors.rs:221-234 | With bare line feeds it does so, whichever fields are quoted, exactly when moreover no last field ends in CR. |
| Csv.UnbrokenRoundTrip | crates/casegraph-infrastructure/src/extractors.rs:236-247 | A last record without a line break is read in full, except that one of a single empty field is dropped; the whole is read back exactly when the records before it are and it is not such a record. |
| CsvTexts.ParsedExactly | crates/casegraph-infrastructure/src/extractors.rs:209-248 | What every text is read as: refused with an odd number of quotes, else it is a written table, and its records are those written, less a carriage return at the end of each line and lines without content. |
| CsvTexts.EveryTextIsWritten | crates/casegraph-infrastructure/src/extractors.rs:215-235 | Every text with an even number of quotes is the writing of some table, with quoted and bare parts in its fields. |
| Csv.LineFeedLosesReturn | crates/casegraph-infrastructure/src/extractors.rs:223-227 | A concrete quoted field that loses its CR. |
| Csv.EmptyRecordIsDropped | crates/casegraph-infrastructure/src/extractors.rs:221-234 | A concrete list of one empty record that is read as no records. |
| CsvExtraction.ExtractCsv | crates/casegraph-infrastructure/src/extractors.rs:158-207 | The nested loops compute the specified cells. |
| CsvExtraction.CellsExactly | crates/casegraph-infrastructure/src/extractors.rs:158-207 | Extraction succeeds exactly on tables without blank headers, of even width and with readable cells, and lists exactly the non-empty cells below the header, once each, by row and column. |
| CsvExtraction.NoTable | crates/casegraph-infrastructure/src/extractors.rs:158-162 | A text without records has no cells; one that cannot be read as records is refused. |
| CsvExtraction.CellsDetermineTable | crates/casegraph-infrastructure/src/extractors.rs:158-207 | Two tables of as many rows under one header that give the same cells are the same table. |
| TextExtraction.ExtractText | crates/casegraph-infrastructure/src/extractors.rs:49-114 | The line scanner with its running byte offset computes the specified fields. |
| TextExtraction.SpansAreExact | crates/casegraph-infrastructure/src/extractors.rs:49-114 | Each span slices the bytes of the text to exactly the value's bytes, within one line; spans are disjoint and increasing; the paragraph is one plus the line feeds before the span. |
| TextExtraction.FieldsArePairs | crates/casegraph-infrastructure/src/extractors.rs:52-66 | Every field comes from a line with a key and a value. |
| TextExtraction.PairsAreFields | crates/casegraph-infrastructure/src/extractors.rs:52-66 | Every line with a key and a value gives its field, with the line's number. |
| TextExtraction.PairsExactly | crates/casegraph-infrastructure/src/extractors.rs:52-57 | A line gives a key and a value exactly if it consists of a key without a colon, a colon and a value, both without whitespace at their ends, with whitespace around them. |
| TextExtraction.RefusedExactly | crates/casegraph-infrastructure/src/extractors.rs:49-114 | A text is accepted exactly if no line refuses it, by its number or by a value that cannot be held; otherwise the error is that of the first line that does. |
| Texts.TrimCuts | crates/casegraph-infrastructure/src/extractors.rs:54-55 | Trimming cuts whitespace off both ends and leaves none there. |
| Texts.Utf8CharExactly | crates/casegraph-infrastructure/src/extractors.rs:58-66 | Byte offsets count the bytes of UTF-8: those of each character give its code point back as section 3 of RFC 3629 defines. |
| TextExtraction.SpanAfterColon | crates/casegraph-infrastructure/src/extractors.rs:58 | A span lies in the value part of its line if and only if the value does not occur earlier in the line. |
| TextExtraction.SpanMayCoverTheKey | crates/casegraph-infrastructure/src/extractors.rs:58 | A concrete line whose span covers its key. |
| Decimals.LiteralIsExact | crates/casegraph-infrastructure/src/extractors.rs:319-366 | A literal denotes its digits over the power of ten of its fraction, and is accepted exactly within 18 fraction digits and 63-bit magnitude. |
| Decimals.OnlyLiteralsAreNumbers | crates/casegraph-infrastructure/src/extractors.rs:319-366 | Nothing but such literals is read as a decimal. |
| Decimals.DecimalRoundTrip | crates/casegraph-infrastructure/src/extractors.rs:319-366 | The rendered form of a decimal reads back to it if and only if its scale is 1 to 18 and its coefficient within 63 bits either way. |
| Decimals.UnreadableDecimals | crates/casegraph-infrastructure/src/extractors.rs:319-366 | A concrete decimal of scale 0 and one of the least coefficient that do not read back. |
| Decimals.CommasAreIrrelevant | crates/casegraph-infrastructure/src/extractors.rs:303-317 | A comma anywhere after the dollar sign does not change the amount. |
| Decimals.UsdRoundTrip | crates/casegraph-infrastructure/src/extractors.rs:303-317 | Amounts written with grouping commas read back, under the same exact condition. |
| Values.NormalizeRendered | crates/casegraph-infrastructure/src/extractors.rs:268-301 | Dates, dollar amounts and decimals keep kind and exact value through rendering and normalisation; no earlier reading captures them. |
| Values.NormalizeExactly | crates/casegraph-infrastructure/src/extractors.rs:268-301 | Every reading of a text, each for exactly the texts of its form: unknown, truth values in any casing, dates, amounts, 64-bit integers, decimals, refusal of those out of bounds, and the unchanged text for everything else. |
| Values.NormalizeInteger | crates/casegraph-infrastructure/src/extractors.rs:268-301 | Every 64-bit integer keeps kind and value through rendering and normalisation. |
| Values.WhitespaceIsIrrelevant | crates/casegraph-infrastructure/src/extractors.rs:268-301 | Whitespace around a text of one of the forms does not change its reading. |
| BlobStore.StepKeepsInv | crates/casegraph-infrastructure/src/artifact_store.rs:78-138 | Any step of any of the concurrent calls keeps every blob complete under its digest, temporary files apart, and reported successes in place. |
| BlobStore.BlobsStayIntact | crates/casegraph-infrastructure/src/artifact_store.rs:78-138 | The same after any interleaving with partial writes, failures and crashes; no blob is removed. |
| BlobStore.CommittedBlobsNeverChange | crates/casegraph-infrastructure/src/artifact_store.rs:78-138 | A committed blob never changes in any later state, if the byte strings put in the run do not collide. |
| BlobStore.SuccessIsDurable | crates/casegraph-infrastructure/src/artifact_store.rs:78-138 | Once a call reported success its bytes are in place in every later state. |
| BlobStore.TemporariesApart | crates/casegraph-infrastructure/src/artifact_store.rs:105-106 | No two calls in progress share a temporary file. |
| ArtifactPaths.KeysRoundTrip | crates/casegraph-infrastructure/src/artifact_store.rs:156-176 | The key parser accepts exactly the keys the writer makes, and recovers their hash. |
| ArtifactPaths.TemporaryIsNoBlob | crates/casegraph-infrastructure/src/artifact_store.rs:105-106 | No temporary path is ever a blob's path. |
| ArtifactPaths.TemporariesAreDistinct | crates/casegraph-infrastructure/src/artifact_store.rs:105-106 | Temporary paths agree only for the same hash, process and sequence number. |
| ArtifactStore.FilesystemArtifactStore.VerifyExisting | crates/casegraph-infrastructure/src/artifact_store.rs:45-74 | The buffered check accepts exactly content with the expected digest and returns its length. |
| ArtifactStore.FilesystemArtifactStore.PutBytes | crates/casegraph-infrastructure/src/artifact_store.rs:78-138 | The files and the result after a put, for each fault of the file system. |
| ArtifactStore.FilesystemArtifactStore.ReadBytes | crates/casegraph-infrastructure/src/artifact_store.rs:140-153 | The result of a read, with its three ways to fail. |
| ArtifactStore.AlteredBlobsAreRefused | crates/casegraph-infrastructure/src/artifact_store.rs:45-74 | A blob is readable exactly when unaltered as its digest tells; a put of its bytes fails exactly when it is not, or has another length, and leaves the file alone. |
| ArtifactStore.ReadAfterPut | crates/casegraph-infrastructure/src/artifact_store.rs:78-153 | What a successful put stored is what its key reads. |
| IngestionOutcomes.PutsExactly | crates/casegraph-infrastructure/src/artifact_store.rs:78-138 | When a put succeeds, whether it says the blob was there, and the files after it. |
| ArtifactStore.LoneCallIsPut | crates/casegraph-infrastructure/src/artifact_store.rs:78-138 | Without interleaving the steps of the concurrent model do what the put of one caller does, for every fault of the file system and however the content is split into writes. |
| Ingestion.ArtifactRepository.IngestBundle | crates/casegraph-infrastructure/src/sqlite_repository.rs:92-191 | The transaction computes the specified tables and result. |
| Ingestion.VersionsAreFirstOccurrences | crates/casegraph-infrastructure/src/sqlite_repository.rs:92-191 | In every run the versions of a case and source key are numbered 1 to n without gaps and are the accepted contents with repeats removed, first occurrences kept. |
| Ingestion.RepeatReturnsOriginal | crates/casegraph-infrastructure/src/sqlite_repository.rs:107-121 | A repeat returns the version stored first and stores none. |
| Ingestion.NewContentIsAppended | crates/casegraph-infrastructure/src/sqlite_repository.rs:122-141 | New content becomes the next version, numbered one more than there were. |
| IngestionOutcomes.IngestingExactly | crates/casegraph-infrastructure/src/sqlite_repository.rs:92-191 | An ingestion is accepted exactly when its case is known, its source can be inserted or found and no row it inserts is there; the error of each refusal. |
| IngestionOutcomes.IngestedExactly | crates/casegraph-infrastructure/src/sqlite_repository.rs:103-168 | The disposition is a duplicate exactly if the content is stored, a new version exactly if only the artifact is known, a new artifact otherwise; the version returned and stored in each case. |
| IngestionOutcomes.RowsRecorded | crates/casegraph-infrastructure/src/sqlite_repository.rs:92-191 | The artifact row refers to the source inserted or found, and the version is associated with that source. |
| IngestionOutcomes.SourcesExactly | crates/casegraph-infrastructure/src/sqlite_repository.rs:879-918 | A source is inserted or found, and refused exactly when its name is taken and no source is the same. |
| Ingestion.OtherKeysUnchanged | crates/casegraph-infrastructure/src/sqlite_repository.rs:92-191 | An ingestion changes no other case's or source key's versions. |
| Ingestion.CasegraphService.IngestRequest | crates/casegraph-application/src/service.rs:71-141 | Size limit, case check, store, then repository: state and result as specified. |
| Ingestion.CasegraphService.ReadArtifactVersion | crates/casegraph-application/src/service.rs:437-443 | Reads a version through its storage key. |
| Ingestion.IngestKeepsArchive | crates/casegraph-application/src/service.rs:71-141 | Any ingestion, refused or not, keeps every stored version and its bytes; an accepted one returns a version of the ingested bytes. |
| IngestionOutcomes.IngestingBytesExactly | crates/casegraph-application/src/service.rs:71-141 | Bytes are ingested exactly when they are within the limit, the store takes them (they are there unaltered, or no fault and no stale temporary file stops the write) and the transaction accepts them. |
| IngestionOutcomes.ReadingExactly | crates/casegraph-application/src/service.rs:437-443 | A version is read exactly when it is stored and its blob has the digest that names it. |
| Ingestion.VersionsReadTheSame | crates/casegraph-application/src/service.rs:437-443 | A stored version reads the same after any number of later ingestions. |
| Ingestion.IngestedBytesReadBack | crates/casegraph-application/src/service.rs:71-141 | In every later state the version an ingestion returned reads as exactly the bytes ingested. |
| SharedArchive.SharedRunKeeps | crates/casegraph-application/src/service.rs:71-141 | Any interleaving of file operations, crashes and ingestion transactions of many callers keeps every stored version and its bytes. |
| SharedArchive.InterleavedBytesReadBack | crates/casegraph-application/src/service.rs:71-141 | The version a caller's transaction returned reads as exactly that caller's bytes after any further interleaving. |
| Migrations.Connection.MigrateTo | crates/casegraph-infrastructure/src/migrations.rs:119-171 | The loop over the migrations computes the specified history and outcome. |
| Migrations.MigrateExactly | crates/casegraph-infrastructure/src/migrations.rs:119-171 | One call on a faithful history, completely: which versions are applied and which of the outcomes is returned. |
| Migrations.HistoriesArePrefixes | crates/casegraph-infrastructure/src/migrations.rs:119-171 | After every sequence of calls, failed ones included, the history is a prefix 1 to k with matching checksums. |
| Migrations.DetoursDoNotMatter | crates/casegraph-infrastructure/src/migrations.rs:119-171 | Whatever calls came before, refused and failed ones included, a final faultless call to a target not below the history gives what that call alone gives. |
| Migrations.RepetitionIsIdle | crates/casegraph-infrastructure/src/migrations.rs:119-171 | A second call to the same target changes nothing. |
| Migrations.UpgradesContinue | crates/casegraph-infrastructure/src/migrations.rs:119-171 | A longer list of migrations continues from what a shorter one applied. |
| Migrations.AlteredHistoryIsRefused | crates/casegraph-infrastructure/src/migrations.rs:145-160 | A call that gets to checking fails on a checksum if and only if some applied row was altered, names the first such row, and has applied nothing. |

## Left out

- HTTP routes, command line, configuration, diagnostics and demonstration code: thin adapters.
- SQL text, rusqlite, serde and the inside of SHA-256: tables are maps, sets and sequences.
- `extract_json`: it rests on an external JSON library.
- `query` and the reasoning gateway: selections and short branch chains over what is modelled.
- The assurance validator and the unused tables (entities, events, actions, pipeline runs).
- Codecs between enumerations and texts, text length bounds, error messages and audit payloads.
- Explanations are modelled by their variable parts (the lists of predicates), not by their English texts.
- The contents of what no modelled decision reads: provenance, observations, reviews and audit events
  (only their identifiers are modelled), subject identifiers, original texts, confidences, temporal
  values of claims, titles and effective dates of rules.
- The check of `record_external_claim` that the artifact version exists in the case, which only adds a refusal.
- Status columns that no modelled operation changes (case, obligation and task status).
- Overflow of 64-bit byte offsets and lengths: offsets are unbounded; 32-bit paragraph, row and column
  numbers and the 32-bit deadline interval are modelled.
- The number of source rows: a source without a revision is never recognised as repeated, as NULL differs
  from NULL in its unique index.
- The subject text `row:n` of a CSV cell: the cell carries the row number instead.
- Path canonicalisation, directory creation, and failures of `remove_file`: removal succeeds.
- In the interleaved ingestions of `SharedArchive`, the size limit and the case check before a put: they
  only keep calls from starting.
- The lock around the database connection: transactions of one store do not overlap.
- Loss of data by the operating system after a successful flush. Blobs altered from outside are covered
  by `ArtifactStore.AlteredBlobsAreRefused` only.
- The order of state changes of equal time, which the source takes from hashed identifiers: the text
  standing for such an identifier is nominal, and no result depends on it.
