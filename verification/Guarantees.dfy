/** What the evidence store guarantees in every history, that is after any run of operations from the
    empty store. A history is given by its states; `states[i]` is the state before `ops[i]`. */
module Guarantees {
  import opened Wrappers
  import opened Ordering
  import opened Values
  import opened Records
  import opened Rules
  import opened Evidence
  import opened Operations
  import opened Links
  import opened States
  import opened Evaluations
  import opened History
  import opened Promises

  /** Operation `i` of a history. */
  ghost predicate Happens(states: seq<Tables>, ops: seq<Op>, i: nat, op: Op) {
    IsHistory(states, ops) && i < |ops| && ops[i] == op
  }

  /** Operation `i` of a history, not refused: refused operations change nothing. */
  ghost predicate Succeeds(states: seq<Tables>, ops: seq<Op>, i: nat, op: Op) {
    Happens(states, ops, i, op) && states[i + 1] != states[i]
  }

  /** An operation that changed the tables was accepted. */
  lemma SuccessIsAccepted(states: seq<Tables>, ops: seq<Op>, i: nat, op: Op)
    requires Succeeds(states, ops, i, op)
    ensures |states| == |ops| + 1 && ClaimsKeyed(states[i])
    ensures op.Record? ==> RecordAccepted(states[i], op.claim)
    ensures op.CorrectOp? ==> CorrectionAccepted(states[i], op.correction)
  {
    assert IsStep(states[i], ops[i], states[i + 1]);
    hide IsHistory, ClaimsKeyed, RecordClaim, CorrectClaim, ReviewClaim, Evaluate, CreateCase, RegisterRule, Admissible;
    RefusedUnchanged(states[i], op);
  }

  /** The states before and after an operation and in any later moment. */
  lemma AfterOperation(states: seq<Tables>, ops: seq<Op>, i: nat, j: nat, op: Op)
    requires Happens(states, ops, i, op) && i < j < |states|
    ensures Inv(states[i]) && Admissible(states[i], op) && states[i + 1] == Step(states[i], op)
    ensures Inv(states[i + 1]) && Inv(states[j]) && Continues(states[i], states[i + 1])
      && Continues(states[i + 1], states[j])
  {
    hide Inv, Step, Admissible, ClaimsKeyed, Continues;
    LaterContinues(states, ops, i, i + 1);
    LaterContinues(states, ops, i + 1, j);
    assert IsStep(states[i], ops[i], states[i + 1]);
  }

  // ---- Contradictions and corroborations ----

  /** In every reachable state each contradiction row joins, once and with the smaller identifier
      first, two claims on the same key with unequal known values, with edges both ways. */
  lemma ContradictionsAreSound(states: seq<Tables>, ops: seq<Op>, i: nat)
    requires IsHistory(states, ops) && i < |states|
    ensures ContradictionsOk(states[i]) && RelationsOk(states[i])
  {
    ReachableIsValid(states, ops, i);
    hide ContradictionsOk, RelationsOk, IsHistory;
  }

  /** Every prior that was live on the key of a recorded claim, with a known value, stands in exactly
      one of a corroboration and a contradiction with it, by equality of the values. */
  ghost predicate PriorsSettled(t: Tables, u: Tables, q: ClaimRequest) {
    forall p | IsLivePrior(t, p, q) && q.value.Known? && t.claims[p].value.Known? ::
      && (Corroborating(u, q.claim, p) <==> t.claims[p].value == q.value)
      && (Contradictory(u, q.claim, p) <==> t.claims[p].value != q.value)
  }

  /** For every claim recorded in a history, all its priors are settled in all later states. */
  lemma EveryPriorIsSettled(states: seq<Tables>, ops: seq<Op>, i: nat, j: nat, q: ClaimRequest)
    requires IsHistory(states, ops) && i < |ops| && i < j < |states| && ops[i] == Record(q)
    requires q.claim in states[i + 1].claims
    requires q.claim !in states[i].claims
    ensures PriorsSettled(states[i], states[j], q)
  {
    hide FactsOk, EvaluationsOk, CurrentState, RecordAccepted, Admissible, Corroborating, Contradictory, Continues,
      RecordClaim, IsStep,
      EdgesOk, SupportOk, ContradictionsOk, RelationsOk, ChangesOk;
    SuccessIsAccepted(states, ops, i, Record(q));
    AfterOperation(states, ops, i, j, Record(q));
    hide IsHistory, ClaimsOk, Step;
    forall p | IsLivePrior(states[i], p, q) && q.value.Known? && states[i].claims[p].value.Known?
      ensures Corroborating(states[j], q.claim, p) <==> states[i].claims[p].value == q.value
      ensures Contradictory(states[j], q.claim, p) <==> states[i].claims[p].value != q.value
    {
      PriorIsSettled(states[i], states[j], q, p);
    }
  }

  lemma PriorIsSettled(t: Tables, u: Tables, q: ClaimRequest, p: Id)
    requires LinksOk(t) && LinksOk(u) && Admissible(t, Record(q)) && RecordAccepted(t, q)
      && Continues(Step(t, Record(q)), u)
    requires IsLivePrior(t, p, q) && q.value.Known? && t.claims[p].value.Known?
    ensures Corroborating(u, q.claim, p) <==> t.claims[p].value == q.value
    ensures Contradictory(u, q.claim, p) <==> t.claims[p].value != q.value
  {
    LiveMeansPrior(t, p, q);
    hide LivePriors, IsLivePrior, RecordClaim, RecordAccepted, Admissible, Corroborating, Contradictory;
    var s := RecordClaim(t, q).0;
    RecordSettles(t, q, p);
    RecordFrame(t, q);
    assert s.edges <= u.edges && s.contradictions <= u.contradictions && u.claims[q.claim] == s.claims[q.claim]
      && u.claims[p] == s.claims[p];
    hide Continues, LinksOk;
    SettledStays(s, u, q.claim, p);
    NeverBoth(u, q.claim, p);
  }

  /** What one operation does to the relation of two claims: only an accepted recording that compares
      them relates them, and nothing ever unrelates them. */
  lemma StepRelates(t: Tables, op: Op, a: Id, b: Id)
    requires Inv(t) && Admissible(t, op)
    ensures ClaimsKeyed(t)
    ensures Related(Step(t, op), a, b) <==> Related(t, a, b) || ComparedBy(t, op, a, b)
  {
    assert LinksOk(t) && ClaimsKeyed(t) && EdgesOk(t);
    RefusedUnchanged(t, op);
    hide Inv, LinksOk, EdgesOk, RecordClaim, CorrectClaim, ReviewClaim, Evaluate, CreateCase, RegisterRule, Admissible,
      Related, Compares;
    match op
    case Record(q) => if RecordAccepted(t, q) { RecordRelates(t, q, a, b); }
    case CorrectOp(q) => if CorrectionAccepted(t, q) { CorrectionRelates(t, q, a, b); }
    case _ => OtherStepRelates(t, op, a, b);
  }

  lemma OtherStepRelates(t: Tables, op: Op, a: Id, b: Id)
    requires Inv(t) && ClaimsKeyed(t) && Admissible(t, op) && !op.Record? && !op.CorrectOp?
    ensures Related(Step(t, op), a, b) <==> Related(t, a, b)
  {
    hide Inv, RecordClaim, CorrectClaim, Related, Admissible;
    OtherStepKeepsLinks(t, op);
    hide Step;
    SameLinksRelate(t, Step(t, op), a, b);
  }

  lemma OtherStepKeepsLinks(t: Tables, op: Op)
    requires Inv(t) && ClaimsKeyed(t) && Admissible(t, op) && !op.Record? && !op.CorrectOp?
    ensures Step(t, op).edges == t.edges && Step(t, op).contradictions == t.contradictions
  {
    hide Inv, ClaimsKeyed, RecordClaim, CorrectClaim, ReviewClaim, Evaluate, Conclude, WithReview, CreateCase,
      RegisterRule, InputOk;
    match op
    case EvaluateOp(q) => EvaluateKeepsLinks(t, q);
    case ConcludeOp(inputs, q) => ConcludeKeepsLinks(t, inputs, q);
    case Review(q) => ReviewIsWithReview(t, q); ReviewKeepsEdges(t, q);
    case OpenCase(caseId, audit) => CaseKeepsLinks(t, caseId, audit);
    case Register(v, rule, audit) => RuleKeepsLinks(t, v, rule, audit);
  }

  lemma EvaluateKeepsLinks(t: Tables, q: EvaluationRequest)
    requires Inv(t)
    ensures ClaimsKeyed(t) && Evaluate(t, q).0.edges == t.edges && Evaluate(t, q).0.contradictions == t.contradictions
  {
    assert ClaimsKeyed(t);
    hide Inv, ClaimsKeyed, Evaluate, EvaluationsOk, LoadWorkflow;
    EvaluateKeepsEvaluations(t, q);
  }

  lemma ConcludeKeepsLinks(t: Tables, inputs: set<RuleInput>, q: EvaluationRequest)
    requires Inv(t) && InputsFit(t, inputs, q)
    ensures Conclude(t, inputs, q).0.edges == t.edges && Conclude(t, inputs, q).0.contradictions == t.contradictions
  {
    hide Conclude, EvaluationsOk, LoadWorkflow, InputOk, LinksOk, FactsOk;
    ConcludeKeepsEvaluations(t, inputs, q);
  }

  lemma CaseKeepsLinks(t: Tables, caseId: Id, audit: Id)
    ensures var u := CreateCase(t, caseId, audit).0; u.edges == t.edges && u.contradictions == t.contradictions
  {
  }

  lemma RuleKeepsLinks(t: Tables, v: RuleVersion, rule: Id, audit: Id)
    ensures var u := RegisterRule(t, v, rule, audit).0; u.edges == t.edges && u.contradictions == t.contradictions
  {
  }

  lemma ReviewKeepsEdges(t: Tables, q: ReviewRequest)
    ensures q.claim in t.claims && q.decision != Correct ==>
      WithReview(t, q).edges == t.edges && WithReview(t, q).contradictions == t.contradictions
  {
  }

  /** An operation of the history, before state `j`, compared the claims. */
  ghost predicate ComparedBefore(states: seq<Tables>, ops: seq<Op>, j: nat, a: Id, b: Id)
    requires j <= |ops| && |ops| < |states|
  {
    exists i :: 0 <= i < j && ComparedBy(states[i], ops[i], a, b)
  }

  lemma ComparedNext(states: seq<Tables>, ops: seq<Op>, j: nat, a: Id, b: Id)
    requires 0 < j <= |ops| && |ops| < |states|
    ensures ComparedBefore(states, ops, j, a, b) <==>
      ComparedBefore(states, ops, j - 1, a, b) || ComparedBy(states[j - 1], ops[j - 1], a, b)
  {
    hide ComparedBy;
  }

  /** Exactly the comparisons of a history relate claims: two claims stand in a contradiction or a
      corroboration if and only if one of them was recorded while the other was live on its key, both
      with known values. So a corrected claim is compared with no earlier claim, and a rejected or
      superseded claim with no later one. */
  lemma {:induction false} RelatedExactly(states: seq<Tables>, ops: seq<Op>, j: nat, a: Id, b: Id)
    requires IsHistory(states, ops) && j < |states|
    ensures Related(states[j], a, b) <==> ComparedBefore(states, ops, j, a, b)
  {
    hide Related, ComparedBy, Step, Admissible, Inv, ClaimsKeyed;
    if j == 0 {
      NothingIsRelated(a, b);
    } else {
      RelatedExactly(states, ops, j - 1, a, b);
      ComparedNext(states, ops, j, a, b);
      hide ComparedBefore;
      ReachableIsValid(states, ops, j - 1);
      assert IsStep(states[j - 1], ops[j - 1], states[j]);
      StepRelates(states[j - 1], ops[j - 1], a, b);
    }
  }

  lemma NothingIsRelated(a: Id, b: Id)
    ensures !Related(EMPTY, a, b)
  {
  }

  /** Two claims that are there keep their relation, or its absence, in all later states. */
  lemma {:induction false} KnownPairsStay(states: seq<Tables>, ops: seq<Op>, i: nat, j: nat, a: Id, b: Id)
    requires IsHistory(states, ops) && i <= j < |states| && a in states[i].claims && b in states[i].claims
    ensures Related(states[j], a, b) <==> Related(states[i], a, b)
    decreases j
  {
    hide Related, Step, Admissible, Inv, ClaimsKeyed, IsLivePrior;
    if i < j {
      KnownPairsStay(states, ops, i, j - 1, a, b);
      ReachableIsValid(states, ops, j - 1);
      assert IsStep(states[j - 1], ops[j - 1], states[j]);
      StepRelates(states[j - 1], ops[j - 1], a, b);
      LogOnlyGrows(states, ops, i, j - 1);
      assert a in states[j - 1].claims && b in states[j - 1].claims;
      hide Appends, IsHistory;
      OldPairsAreNotCompared(states[j - 1], ops[j - 1], a, b);
    }
  }

  lemma OldPairsAreNotCompared(t: Tables, op: Op, a: Id, b: Id)
    requires a in t.claims && b in t.claims
    ensures !ComparedBy(t, op, a, b)
  {
    hide IsLivePrior, OrderedPriors;
  }

  lemma StrangersAreUnrelated(t: Tables, a: Id, b: Id)
    requires LinksOk(t) && a !in t.claims
    ensures !Related(t, a, b)
  {
    hide ClaimsOk, ChangesOk, SupportOk, RelationsOk;
  }

  /** For a claim recorded in a history and any claim there before it: the two are related in a later
      state if and only if the earlier one was live on the same key and both values are known. */
  lemma SettledExactly(states: seq<Tables>, ops: seq<Op>, i: nat, j: nat, q: ClaimRequest, p: Id)
    requires IsHistory(states, ops) && i < |ops| && i < j < |states| && ops[i] == Record(q)
    requires q.claim in states[i + 1].claims && q.claim !in states[i].claims && p in states[i].claims
    ensures Related(states[j], q.claim, p) <==>
      IsLivePrior(states[i], p, q) && q.value.Known? && states[i].claims[p].value.Known?
  {
    hide Related, Step, Admissible, FactsOk, EvaluationsOk, CurrentState, RecordClaim, RecordAccepted;
    AfterOperation(states, ops, i, j, Record(q));
    SuccessIsAccepted(states, ops, i, Record(q));
    LogOnlyGrows(states, ops, i, i + 1);
    assert p in states[i + 1].claims;
    hide IsHistory, Happens, Appends, Continues;
    StepRelates(states[i], Record(q), q.claim, p);
    StrangersAreUnrelated(states[i], q.claim, p);
    KnownPairsStay(states, ops, i + 1, j, q.claim, p);
  }

  /** A corrected claim is never related to a claim that was there before the correction. */
  lemma CorrectedIsUnrelated(states: seq<Tables>, ops: seq<Op>, i: nat, j: nat, q: CorrectionRequest, p: Id)
    requires Succeeds(states, ops, i, CorrectOp(q)) && i < j < |states| && p in states[i].claims
    ensures q.corrected in states[j].claims && !Related(states[j], q.corrected, p)
  {
    hide Related, Step, Admissible, FactsOk, EvaluationsOk, CurrentState, CorrectClaim, CorrectionAccepted;
    AfterOperation(states, ops, i, j, CorrectOp(q));
    CorrectionHappened(states, ops, i, q);
    LogOnlyGrows(states, ops, i, i + 1);
    LogOnlyGrows(states, ops, i + 1, j);
    assert p in states[i + 1].claims && q.corrected in states[i + 1].claims && q.corrected in states[j].claims;
    hide IsHistory, Happens, Succeeds, Appends, Continues;
    StepRelates(states[i], CorrectOp(q), q.corrected, p);
    StrangersAreUnrelated(states[i], q.corrected, p);
    KnownPairsStay(states, ops, i + 1, j, q.corrected, p);
  }

  // ---- Verification happens once ----

  /** A claim that lost its verification after leaving a fact is never verified again. */
  lemma SpentForever(states: seq<Tables>, ops: seq<Op>, i: nat, j: nat, c: Id)
    requires IsHistory(states, ops) && i <= j < |states| && Spent(states[i], c)
    ensures Spent(states[j], c)
  {
    LaterContinues(states, ops, i, j);
    hide IsHistory, Inv, Spent, Grows;
  }

  // ---- Corrections retire evaluations ----

  /** A question asked in a valid state is answered with an evaluation, remembered or new. */
  ghost predicate GivesAnswer(t: Tables, ask: EvaluationRequest, e: Id) {
    ClaimsKeyed(t) && Evaluate(t, ask).1.Ok? && Evaluate(t, ask).1.value.evaluation.id == e
  }

  /** Once an external claim that fed a stored evaluation is corrected, no later question is ever
      answered with that evaluation. The same holds for any claim that was verified by review. */
  lemma CorrectionRetiresEvaluations(
    states: seq<Tables>, ops: seq<Op>, i: nat, j: nat, q: CorrectionRequest, e: Id, ask: EvaluationRequest)
    requires Succeeds(states, ops, i, CorrectOp(q)) && i < j < |states|
    requires e in states[i].evaluations && Uses(states[i].evaluations[e], q.original)
    requires q.original in states[i].claims
      && (states[i].claims[q.original].origin == External || q.original in states[i].facts)
    ensures !GivesAnswer(states[j], ask, e)
  {
    var t := states[i];
    SuccessIsAccepted(states, ops, i, CorrectOp(q));
    AfterOperation(states, ops, i, j, CorrectOp(q));
    hide IsHistory, Happens, CorrectClaim, CorrectionAccepted, Admissible, Spent, Evaluate, Uses, Continues, LinksOk,
      FactsOk, StoredOk, RowsOk;
    ExternalInputHasFact(t, e, q.original);
    CorrectionSpendsOriginal(t, q);
    assert states[i + 1] == CorrectClaim(t, q).0;
    EvaluationsKept(t, states[i + 1], e);
    RetiredStaysRetired(states[i + 1], states[j], ask, e, q.original);
  }

  /** A stored evaluation is what the question is answered with now. */
  ghost predicate AnswersNow(t: Tables, ask: EvaluationRequest, e: Id) {
    GivesAnswer(t, ask, e) && Evaluate(t, ask).0 == t
  }

  lemma AnswersAreRemembered(t: Tables, ask: EvaluationRequest, e: Id)
    requires Inv(t) && AnswersNow(t, ask, e)
    ensures ask.version in t.versions && FreshResult(t, ask).Ok? && Remembers(t, ask, e)
  {
    hide Inv, Evaluate, FreshResult, CurrentInputs, Recorded, LoadWorkflow;
    AnswersUseCurrentInputs(t, ask);
    AnswerIsFresh(t, ask);
  }

  /** A correction of a claim that feeds the answer of the moment, followed by the rejection of the
      corrected claim and the verification of the original. */
  ghost predicate IsUndoing(
    states: seq<Tables>, ops: seq<Op>, i: nat, q: CorrectionRequest, reject: ReviewRequest, verify: ReviewRequest,
      e: Id, ask: EvaluationRequest)
  {
    && Succeeds(states, ops, i, CorrectOp(q))
    && Happens(states, ops, i + 1, Review(reject)) && Happens(states, ops, i + 2, Review(verify))
    && Undoing(q, reject, verify) && ReviewNamesUnused(states[i + 1], reject)
       && ReviewNamesUnused(states[i + 2], verify)
    && AnswersNow(states[i], ask, e) && e in states[i].evaluations && Uses(states[i].evaluations[e], q.original)
  }

  /** When a correction retires an evaluation for good: exactly when the corrected claim has left a
      fact. Otherwise rejecting the corrected claim and verifying the original brings the evaluation back. */
  lemma RetiredExactly(
    states: seq<Tables>, ops: seq<Op>, i: nat, q: CorrectionRequest, reject: ReviewRequest, verify: ReviewRequest,
      e: Id, ask: EvaluationRequest)
    requires IsUndoing(states, ops, i, q, reject, verify, e, ask)
    ensures AnswersNow(states[i + 3], ask, e) <==> q.original !in states[i].facts
  {
    var t := states[i];
    assert |states| == |ops| + 1;
    hide IsHistory, Happens, Evaluate, Uses, FreshResult, Remembers, LoadWorkflow, CurrentState, Inv, Undoing,
      ReviewNamesUnused, ClaimsKeyed;
    assert Evaluate(t, ask).1.Ok? && Evaluate(t, ask).1.value.evaluation.id == e;
    ReachableIsValid(states, ops, i);
    AnswersAreRemembered(t, ask, e);
    MemoIsAnswer(t, ask, e);
    hide AnswersNow, Succeeds;
    if q.original in t.facts {
      AnsweredDifferently(states, ops, i, i + 3, q, e, ask);
    } else {
      UndoingRestores(states, ops, i, q, reject, verify, e, ask);
    }
  }

  lemma AnsweredDifferently(
    states: seq<Tables>, ops: seq<Op>, i: nat, j: nat, q: CorrectionRequest, e: Id, ask: EvaluationRequest)
    requires Succeeds(states, ops, i, CorrectOp(q)) && i < j < |states|
    requires e in states[i].evaluations && Uses(states[i].evaluations[e], q.original)
    requires q.original in states[i].claims && q.original in states[i].facts
    ensures !AnswersNow(states[j], ask, e)
  {
    hide Succeeds, Evaluate, Uses, ClaimsKeyed;
    CorrectionRetiresEvaluations(states, ops, i, j, q, e, ask);
  }

  lemma UndoingRestores(
    states: seq<Tables>, ops: seq<Op>, i: nat, q: CorrectionRequest, reject: ReviewRequest, verify: ReviewRequest,
      e: Id, ask: EvaluationRequest)
    requires Succeeds(states, ops, i, CorrectOp(q))
    requires Happens(states, ops, i + 1, Review(reject)) && Happens(states, ops, i + 2, Review(verify))
    requires Undoing(q, reject, verify) && ReviewNamesUnused(states[i + 1], reject)
      && ReviewNamesUnused(states[i + 2], verify)
    requires ClaimsKeyed(states[i])
    requires ask.version in states[i].versions && FreshResult(states[i], ask).Ok? && Remembers(states[i], ask, e)
    requires q.original in states[i].claims && q.original !in states[i].facts
      && CurrentState(states[i], q.original) == Verified
    requires Evaluate(states[i], ask).1.Ok? && Evaluate(states[i], ask).1.value.evaluation.id == e
    ensures AnswersNow(states[i + 3], ask, e)
  {
    hide IsHistory, CorrectClaim, ReviewClaim, CorrectionAccepted, Admissible, Evaluate, Inv, FreshResult, Remembers,
      CurrentState,
      CorrectedStates, Step;
    CorrectionHappened(states, ops, i, q);
    ReviewHappened(states, ops, i + 1, reject);
    ReviewHappened(states, ops, i + 2, verify);
    UndoneAnswers(states[i], states[i + 1], states[i + 3], q, reject, verify, ask, e);
  }

  lemma CorrectionHappened(states: seq<Tables>, ops: seq<Op>, i: nat, q: CorrectionRequest)
    requires Succeeds(states, ops, i, CorrectOp(q))
    ensures |states| == |ops| + 1 && Inv(states[i]) && Admissible(states[i], CorrectOp(q))
      && CorrectedStates(states[i], states[i + 1], q)
  {
    SuccessIsAccepted(states, ops, i, CorrectOp(q));
    hide CorrectClaim, CorrectionAccepted, Admissible, EdgesOk, SupportOk, FactsOk, EvaluationsOk, Step,
      CorrectedStates, Continues;
    AfterOperation(states, ops, i, i + 1, CorrectOp(q));
    CorrectionGivesStates(states[i], q);
  }

  lemma ReviewHappened(states: seq<Tables>, ops: seq<Op>, i: nat, q: ReviewRequest)
    requires Happens(states, ops, i, Review(q))
    ensures |states| == |ops| + 1 && Admissible(states[i], Review(q)) && Inv(states[i + 1])
      && ClaimsKeyed(states[i + 1])
    ensures states[i + 1] == ReviewClaim(states[i], q).0
  {
    hide ReviewClaim, Admissible, Continues, EdgesOk, SupportOk, FactsOk, EvaluationsOk;
    AfterOperation(states, ops, i, i + 1, Review(q));
  }

  // ---- Remembered evaluations ----

  /** Whatever an evaluation answers, from memory or not, is what a fresh evaluation would say: the
      same inputs, verdict, explanation, obligation, due date and work, up to names and times. */
  lemma AnswersAreFresh(states: seq<Tables>, ops: seq<Op>, i: nat, q: EvaluationRequest)
    requires Happens(states, ops, i, EvaluateOp(q)) && ClaimsKeyed(states[i]) && Evaluate(states[i], q).1.Ok?
    ensures q.version in states[i].versions && FreshResult(states[i], q).Ok?
    ensures Anonymous(Evaluate(states[i], q).1.value) == Anonymous(FreshResult(states[i], q).value)
  {
    ReachableIsValid(states, ops, i);
    hide IsHistory, Inv, Evaluate, FreshResult, Anonymous;
    AnswerIsFresh(states[i], q);
  }

  /** What an evaluation answered is joined from its rows without loss in every later state; its
      obligation, deadline and work exist together, exactly for a satisfied verdict. */
  lemma WorkflowsAreLossless(states: seq<Tables>, ops: seq<Op>, i: nat, j: nat, q: EvaluationRequest)
    requires Happens(states, ops, i, EvaluateOp(q)) && i < j < |states| && ClaimsKeyed(states[i])
      && Evaluate(states[i], q).1.Ok?
    ensures var m := Evaluate(states[i], q).1.value;
      && m.evaluation.id in states[j].evaluations && LoadWorkflow(states[j], m.evaluation.id) == Ok(m)
      && Coherent(m) && (m.obligation.Some? <==> m.evaluation.verdict == Satisfied)
  {
    hide IsHistory, Happens, Inv, Evaluate, LoadWorkflow, Coherent, Grows, Spent, Admissible;
    AfterOperation(states, ops, i, j, EvaluateOp(q));
    assert states[i + 1] == Evaluate(states[i], q).0;
    hide Step, ClaimsKeyed;
    AnswersUseCurrentInputs(states[i], q);
    AnswersAreCoherent(states[i], q);
  }

  // ---- Evaluations that other operations come between ----

  /** What is read in earlier states can be concluded from in every later state. */
  lemma ReadsFit(states: seq<Tables>, ops: seq<Op>, k: nat, l: nat, i: nat, q: EvaluationRequest)
    requires IsHistory(states, ops) && k <= l <= i < |states| && q.version in states[l].versions
    ensures InputsFit(states[i], ReadInputs(states[k], states[l], q), q)
    ensures states[i].versions[q.version] == states[l].versions[q.version]
    ensures forall x | x in ReadInputs(states[k], states[l], q) ::
      x.claim in states[k].claims && x.claim in states[l].claims && CurrentState(states[l], x.claim) == Verified
  {
    LaterContinues(states, ops, l, i);
    hide IsHistory, EvaluationsOk;
    InputsStayFit(states[k], states[l], states[i], q);
  }

  lemma InputsStayFit(listed: Tables, grounded: Tables, t: Tables, q: EvaluationRequest)
    requires Inv(grounded) && Grows(grounded, t) && q.version in grounded.versions
    ensures InputsFit(t, ReadInputs(listed, grounded, q), q)
    ensures t.versions[q.version] == grounded.versions[q.version]
    ensures forall x | x in ReadInputs(listed, grounded, q) ::
      x.claim in listed.claims && x.claim in grounded.claims && CurrentState(grounded, x.claim) == Verified
  {
    assert ClaimsOk(grounded) && ClaimsKeyed(grounded) && FactsOk(grounded);
    hide Inv, ClaimsOk, FactsOk, CurrentState, ReadInputs, CurrentInputs, ClaimsKeyed;
    ReadsAreCurrent(listed, grounded, q);
    CurrentInputsOk(grounded, q);
    forall x | x in ReadInputs(listed, grounded, q)
      ensures InputOk(t, q.caseId, x) && x.claim in grounded.claims
    {
      InputStays(grounded, t, q.caseId, x);
    }
    hide InputOk;
  }

  /** Operation `i` stores or finds an evaluation whose claims were listed in state `k` and grounded in
      state `l`. Other operations may have come between. */
  ghost predicate Concludes(states: seq<Tables>, ops: seq<Op>, k: nat, l: nat, i: nat, q: EvaluationRequest) {
    && k <= l <= i < |ops| && IsHistory(states, ops) && q.version in states[l].versions
    && ops[i] == ConcludeOp(ReadInputs(states[k], states[l], q), q)
    && InputsFit(states[i], ReadInputs(states[k], states[l], q), q)
  }

  /** What such an evaluation answers, when it answers. */
  ghost function Answer(states: seq<Tables>, ops: seq<Op>, k: nat, l: nat, i: nat,
    q: EvaluationRequest): Result<Materialization>
    requires Concludes(states, ops, k, l, i, q)
  {
    Conclude(states[i], ReadInputs(states[k], states[l], q), q).1
  }

  lemma ConclusionHappened(states: seq<Tables>, ops: seq<Op>, k: nat, l: nat, i: nat, q: EvaluationRequest)
    requires Concludes(states, ops, k, l, i, q)
    ensures |states| == |ops| + 1 && Inv(states[i]) && Inv(states[i + 1])
    ensures states[i + 1] == Conclude(states[i], ReadInputs(states[k], states[l], q), q).0
  {
    hide Inv, Conclude, ReadInputs, InputOk, ClaimsKeyed;
    ReachableIsValid(states, ops, i);
    ReachableIsValid(states, ops, i + 1);
    assert IsStep(states[i], ops[i], states[i + 1]);
  }

  /** Whatever is answered rests on exactly what was read: the inputs are those that were current when
      the claims were grounded, less the claims not listed, and the answer is what a fresh judgement of
      these inputs says, up to names and times. */
  lemma AnswersUseTheirReads(states: seq<Tables>, ops: seq<Op>, k: nat, l: nat, i: nat, q: EvaluationRequest)
    requires Concludes(states, ops, k, l, i, q) && |states| == |ops| + 1 && Answer(states, ops, k, l, i, q).Ok?
    ensures ClaimsKeyed(states[l])
    ensures var inputs, m := ReadInputs(states[k], states[l], q), Answer(states, ops, k, l, i, q).value;
      && m.evaluation.inputs == Recorded(inputs)
      && (forall x :: x in inputs <==> x in CurrentInputs(states[l], q) && x.claim in states[k].claims)
      && Fresh(states[i], inputs, q).Ok? && Anonymous(m) == Anonymous(Fresh(states[i], inputs, q).value)
  {
    hide Inv, Conclude, ReadInputs, CurrentInputs, InputOk, LoadWorkflow, Anonymous, Fresh, ClaimsKeyed, Recorded;
    ReachableIsValid(states, ops, l);
    KeyedWhenValid(states[l]);
    ConclusionHappened(states, ops, k, l, i, q);
    hide IsHistory;
    ReadsAreCurrent(states[k], states[l], q);
    EvaluationsOfValid(states[i]);
    hide EvaluationsOk, ClaimsDiffer;
    ConclusionIsFresh(states[i], ReadInputs(states[k], states[l], q), q);
    assert Answer(states, ops, k, l, i, q).value.evaluation.inputs == Recorded(ReadInputs(states[k], states[l], q)) by {
      ConclusionsUseInputs(states[i], ReadInputs(states[k], states[l], q), q);
    }
  }

  /** The answer is joined from its rows without loss in every later state. */
  lemma ConclusionsAreLossless(
    states: seq<Tables>, ops: seq<Op>, k: nat, l: nat, i: nat, j: nat, q: EvaluationRequest)
    requires Concludes(states, ops, k, l, i, q) && i < j < |states| && Answer(states, ops, k, l, i, q).Ok?
    ensures var m := Answer(states, ops, k, l, i, q).value;
      && m.evaluation.id in states[j].evaluations && LoadWorkflow(states[j], m.evaluation.id) == Ok(m)
      && Coherent(m) && (m.obligation.Some? <==> m.evaluation.verdict == Satisfied)
  {
    hide Inv, Conclude, ReadInputs, InputOk, LoadWorkflow, Coherent, Grows, Spent, Recorded;
    ConclusionHappened(states, ops, k, l, i, q);
    LaterContinues(states, ops, i + 1, j);
    hide IsHistory;
    EvaluationsOfValid(states[i]);
    hide EvaluationsOk, ClaimsDiffer;
    ConclusionsUseInputs(states[i], ReadInputs(states[k], states[l], q), q);
    ConclusionsAreCoherent(states[i], ReadInputs(states[k], states[l], q), q);
  }

  lemma KeyedWhenValid(t: Tables)
    requires Inv(t)
    ensures ClaimsKeyed(t)
  {
    hide FactsOk, EvaluationsOk, EdgesOk, SupportOk, ContradictionsOk, RelationsOk, ChangesOk;
  }

  lemma EvaluationsOfValid(t: Tables)
    requires Inv(t)
    ensures EvaluationsOk(t)
  {
    hide LinksOk, FactsOk, EvaluationsOk;
  }

  /** An evaluation that grounds its claims after the correction is never answered with one that used
      the corrected claim, whatever comes between its reads and its conclusion. */
  lemma LateReadsAvoidRetired(
    states: seq<Tables>, ops: seq<Op>, c: nat, k: nat, l: nat, i: nat, q: CorrectionRequest, e: Id,
      ask: EvaluationRequest)
    requires Succeeds(states, ops, c, CorrectOp(q)) && c < l && Concludes(states, ops, k, l, i, ask)
    requires e in states[c].evaluations && Uses(states[c].evaluations[e], q.original)
    requires q.original in states[c].claims
      && (states[c].claims[q.original].origin == External || q.original in states[c].facts)
    ensures Answer(states, ops, k, l, i, ask).Ok? ==> Answer(states, ops, k, l, i, ask).value.evaluation.id != e
  {
    hide Inv, Conclude, ReadInputs, InputOk, Uses, CorrectClaim, CorrectionAccepted, Admissible, Evaluate;
    SpentAfterCorrection(states, ops, c, l, q, e);
    ReadsFit(states, ops, k, l, i, ask);
    ConclusionHappened(states, ops, k, l, i, ask);
    LaterContinues(states, ops, c, i);
    hide IsHistory, Happens, Succeeds, Grows, LoadWorkflow;
    EvaluationsOfValid(states[c]);
    EvaluationsOfValid(states[i]);
    EvaluationsKept(states[c], states[i], e);
    var inputs := ReadInputs(states[k], states[l], ask);
    if Answer(states, ops, k, l, i, ask).Ok? {
      ConclusionsUseInputs(states[i], inputs, ask);
      SpentIsNotRead(states[l], states[i].evaluations[e], inputs, q.original);
    }
  }

  lemma SpentIsNotRead(t: Tables, e: Evaluation, inputs: set<RuleInput>, c: Id)
    requires Spent(t, c) && Uses(e, c) && ClaimsDiffer(inputs)
    requires forall x | x in inputs :: x.claim in t.claims && CurrentState(t, x.claim) == Verified
    ensures e.inputs != Recorded(inputs)
  {
    hide CurrentState;
  }

  lemma SpentAfterCorrection(states: seq<Tables>, ops: seq<Op>, c: nat, l: nat, q: CorrectionRequest, e: Id)
    requires Succeeds(states, ops, c, CorrectOp(q)) && c < l < |states|
    requires e in states[c].evaluations && Uses(states[c].evaluations[e], q.original)
    requires q.original in states[c].claims
      && (states[c].claims[q.original].origin == External || q.original in states[c].facts)
    ensures Spent(states[l], q.original)
  {
    var t := states[c];
    SuccessIsAccepted(states, ops, c, CorrectOp(q));
    AfterOperation(states, ops, c, l, CorrectOp(q));
    hide IsHistory, Happens, CorrectClaim, CorrectionAccepted, Admissible, Spent, Uses, LinksOk, FactsOk, StoredOk,
      RowsOk;
    ExternalInputHasFact(t, e, q.original);
    CorrectionSpendsOriginal(t, q);
    assert states[c + 1] == CorrectClaim(t, q).0;
  }

  /** Exactly when a stored evaluation is the answer: when it is of the same case and rule version and
      its inputs are those read. What was corrected after the read does not matter. */
  lemma EarlyReadsAnswerExactly(states: seq<Tables>, ops: seq<Op>, k: nat, l: nat, i: nat, e: Id,
    ask: EvaluationRequest)
    requires Concludes(states, ops, k, l, i, ask) && e in states[i].evaluations
    requires Fresh(states[i], ReadInputs(states[k], states[l], ask), ask).Ok?
    ensures (Answer(states, ops, k, l, i, ask).Ok? && Answer(states, ops, k, l, i, ask).value.evaluation.id == e) <==>
      IsMemo(states[i], e, ask.caseId, ask.version, Recorded(ReadInputs(states[k], states[l], ask)))
  {
    hide Inv, Conclude, ReadInputs, InputOk, LoadWorkflow, Fresh, CurrentState, IsHistory;
    ConclusionHappened(states, ops, k, l, i, ask);
    var t, inputs := states[i], ReadInputs(states[k], states[l], ask);
    EvaluationsOfValid(t);
    if Answer(states, ops, k, l, i, ask).Ok? {
      ConclusionsUseInputs(t, inputs, ask);
    }
    if IsMemo(t, e, ask.caseId, ask.version, Recorded(inputs)) {
      ConclusionRemembered(t, inputs, ask, e);
      StoredIsLoadable(t, e);
    }
  }

  /** What would have been the answer when an evaluation read its inputs is its answer when it
      concludes, even if a correction has retired it in between. */
  lemma EarlyReadsKeepTheirAnswer(states: seq<Tables>, ops: seq<Op>, l: nat, i: nat, e: Id, ask: EvaluationRequest)
    requires Concludes(states, ops, l, l, i, ask) && AnswersNow(states[l], ask, e)
    ensures Answer(states, ops, l, l, i, ask).Ok? && Answer(states, ops, l, l, i, ask).value.evaluation.id == e
  {
    hide Inv, Conclude, InputOk, LoadWorkflow, Fresh, FreshResult, CurrentState, Evaluate, ReadInputs, CurrentInputs,
      ClaimsKeyed, Grows, Spent;
    ConclusionHappened(states, ops, l, l, i, ask);
    LaterContinues(states, ops, l, i);
    ReadsFit(states, ops, l, l, i, ask);
    hide IsHistory;
    KeyedWhenValid(states[l]);
    ReadsOfOneState(states[l], ask);
    PartsForEvaluating(states[l], ask);
    AnswersAreRemembered(states[l], ask, e);
    EvaluationsOfValid(states[l]);
    EvaluationsOfValid(states[i]);
    EvaluationsKept(states[l], states[i], e);
    SameJudgement(states[l], states[i], ReadInputs(states[l], states[l], ask), ask);
    EarlyReadsAnswerExactly(states, ops, l, l, i, e, ask);
  }

  lemma SameJudgement(t: Tables, u: Tables, inputs: set<RuleInput>, q: EvaluationRequest)
    requires q.version in t.versions && q.version in u.versions && u.versions[q.version] == t.versions[q.version]
    requires ClaimsDiffer(inputs)
    ensures Fresh(u, inputs, q) == Fresh(t, inputs, q)
  {
    hide Materialize;
  }

  lemma StoredIsLoadable(t: Tables, e: Id)
    requires EvaluationsOk(t) && e in t.evaluations
    ensures LoadWorkflow(t, e).Ok? && LoadWorkflow(t, e).value.evaluation.id == e
  {
    LoadedIsStored(t, LoadWorkflow(t, e));
    assert Reproducible(t, e);
    hide LoadWorkflow;
  }

  // ---- Affected derivations ----

  /** Every evaluation that uses a claim which is not external is missing from the report. */
  lemma HumanInputsAreOverlooked(states: seq<Tables>, ops: seq<Op>, i: nat, c: Id, e: Id)
    requires IsHistory(states, ops) && i < |states| && c in states[i].claims
    requires states[i].claims[c].origin != External && e in UsersOf(states[i], c)
    ensures Affected(states[i], c) == [] && !(forall u :: u in Affected(states[i], c) <==> u in UsersOf(states[i], c))
  {
    hide IsHistory, Affected, UsersOf;
    AffectedIsExact(states, ops, i, c);
  }

  /** The derivations a correction reports, found through evidence joins, are exactly the evaluations
      whose inputs contain the corrected claim when the claim is external. Claims entered by a human
      have no evidence, so for them nothing is reported, rightly only if nothing uses them. */
  lemma AffectedIsExact(states: seq<Tables>, ops: seq<Op>, i: nat, c: Id)
    requires IsHistory(states, ops) && i < |states| && c in states[i].claims
    ensures states[i].claims[c].origin == External ==> Affected(states[i], c) == ListedTexts(UsersOf(states[i], c))
    ensures states[i].claims[c].origin != External ==> Affected(states[i], c) == []
    ensures Affected(states[i], c) == ListedTexts(UsersOf(states[i], c)) <==>
      states[i].claims[c].origin == External || UsersOf(states[i], c) == {}
  {
    ReachableIsValid(states, ops, i);
    hide IsHistory, Inv, Affected, UsersOf, ListedTexts;
    AffectedExactly(states[i], c);
  }
}
