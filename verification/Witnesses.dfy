/** Concrete runs from the empty store in which the store does less than a reader may expect: a
    correction that reports too little, a correction that can be undone, a verification refused. */
module Witnesses {
  import opened Evaluations
  import opened Evidence
  import opened Guarantees
  import opened History
  import opened Links
  import opened Operations
  import opened Ordering
  import opened Promises
  import opened Records
  import opened Rules
  import opened States
  import opened Values
  import opened Wrappers

  // ---- The common beginning: a case, a claim, its correction, a rule, an evaluation ----

  const RECORDING := ClaimRequest("a", "case", "person", "status", Unknown, "e", "g", "p1", "o1", "a2", 1)
  const CORRECTING := CorrectionRequest("a", "b", NotApplicable, "c1", "x1", "y1", "p2", "r1", "a3", 2)
  const EFFECT := Effect("kind", "description", "day", 1, "title")
  const RULE := RuleVersion("v", "package", "key", Definition([Condition("person", "status", NotApplicable)], EFFECT))
  const QUESTION := EvaluationRequest("case", "v", "n", "o", "d", "w", "a5", "r", 3)
  const OPENED := EMPTY.(cases := {"case"}, log := {AuditRow("a1")})

  function WithRecording(): Tables {
    OPENED.(claims := map["a" := ExternalClaim(RECORDING)], evidence := {"e"}, edges := {SupportEdge(RECORDING)},
            log := OPENED.log + RecordRows(RECORDING))
  }

  function WithCorrection(): Tables {
    var t := WithRecording();
    t.(claims := map["a" := ExternalClaim(RECORDING), "b" := CorrectedClaim(t, CORRECTING)],
       corrections := map["c1" := Correction("c1", "a", "b", [])],
       changes := [StateChange(Generated("x1"), "a", Superseded, 2), StateChange(Generated("y1"), "b", Verified, 2)],
       edges := {SupportEdge(RECORDING), ClaimEdge("case", "b", Supersedes, "a")},
       log := t.log + CorrectionRows(CORRECTING))
  }

  function WithRule(): Tables {
    WithCorrection().(versions := map["v" := RULE], log := WithCorrection().log + {RuleRow("rule"), AuditRow("a4")})
  }

  lemma OpeningStep()
    ensures IsStep(EMPTY, OpenCase("case", "a1"), OPENED)
  {
    assert CreateCase(EMPTY, "case", "a1").0 == OPENED;
  }

  lemma RecordingStep()
    ensures IsStep(OPENED, Record(RECORDING), WithRecording())
  {
    var claim := ExternalClaim(RECORDING);
    assert LivePriors(OPENED, claim) == {};
    assert OrderedPriors(OPENED, claim) == [];
    assert RecordClaim(OPENED, RECORDING).0 == WithRecording();
  }

  const RECORDED_LOG := {AuditRow("a1"), ProvenanceRow("p1"), ObservationRow("o1"), AuditRow("a2")}

  lemma RecordingTables()
    ensures var t := WithRecording();
      && ClaimsKeyed(t) && "a" in t.claims && t.facts == map[] && t.changes == []
      && t.log == RECORDED_LOG
  {
  }

  lemma CorrectionStepTaken()
    ensures IsStep(WithRecording(), CorrectOp(CORRECTING), WithCorrection())
  {
    hide WithRecording, WithCorrection, CorrectClaim, Admissible, ClaimsKeyed;
    FirstCorrection();
    FirstCorrectionAdmissible();
    RecordingTables();
  }

  lemma FirstCorrectionAdmissible()
    ensures Admissible(WithRecording(), CorrectOp(CORRECTING))
  {
  }

  lemma FirstCorrection()
    ensures CorrectClaim(WithRecording(), CORRECTING).0 == WithCorrection()
  {
    var t := WithRecording();
    assert Affected(t, "a") == [] by { ListedNothing({}); assert t.uses == {}; }
    hide Affected;
    assert CorrectionRows(CORRECTING) !! t.log;
    hide CorrectionRows, RecordRows;
  }

  lemma RuleStepTaken()
    ensures IsStep(WithCorrection(), Register(RULE, "rule", "a4"), WithRule())
  {
    assert RegisterRule(WithCorrection(), RULE, "rule", "a4").0 == WithRule();
  }

  const BEGINNING := [OpenCase("case", "a1"), Record(RECORDING), CorrectOp(CORRECTING), Register(RULE, "rule", "a4")]

  function FirstStates(): seq<Tables> { [EMPTY, OPENED, WithRecording(), WithCorrection(), WithRule()] }

  lemma BeginningIsHistory()
    ensures IsHistory(FirstStates(), BEGINNING) && Inv(WithRule())
  {
    hide IsStep, WithRecording, WithCorrection, WithRule, Inv;
    OpeningStep();
    RecordingStep();
    CorrectionStepTaken();
    RuleStepTaken();
    ReachableIsValid(FirstStates(), BEGINNING, 4);
  }

  lemma LongerHistory(states: seq<Tables>, ops: seq<Op>, op: Op, u: Tables)
    requires IsHistory(states, ops) && IsStep(states[|ops|], op, u)
    ensures IsHistory(states + [u], ops + [op])
  {
    hide IsStep;
  }

  // ---- The evaluation uses the claim the human entered ----

  /** An evaluation uses each relevant verified claim. */
  lemma AnswerUses(t: Tables, ask: EvaluationRequest, c: Id)
    requires Inv(t) && c in t.claims && t.claims[c].caseId == ask.caseId && CurrentState(t, c) == Verified
    requires ask.version in t.versions && Relevant(t.versions[ask.version].definition, InputOf(Grounding(t, c)))
    requires Evaluate(t, ask).1.Ok?
    ensures Evaluate(t, ask).1.value.evaluation.id in UsersOf(Evaluate(t, ask).0, c)
  {
    AnswersUseCurrentInputs(t, ask);
    var i := InputOf(Grounding(t, c));
    assert Grounding(t, c) in Grounded(t, ask.caseId);
    hide Grounding, Evaluate, Inv, CurrentState, EvidenceOf, LoadWorkflow, Relevant;
    assert i in CurrentInputs(t, ask);
    assert i in Evaluate(t, ask).1.value.evaluation.inputs && i.claim == c;
  }

  lemma CorrectedIsVerified()
    ensures CurrentState(WithRule(), "b") == Verified
  {
    var x := StateChange(Generated("x1"), "a", Superseded, 2);
    var y := StateChange(Generated("y1"), "b", Verified, 2);
    assert [x, y][..1] == [x] && [x][..0] == [];
    assert Latest([x], "b") == None;
    assert Latest([x, y], "b") == Some(y);
  }

  /** Without an anchor date the evaluation is stored, whatever its verdict. */
  lemma UnanchoredIsStored(t: Tables, q: EvaluationRequest)
    requires Inv(t) && q.version in t.versions && t.evaluations == map[] && q.caseId in t.cases
      && AuditRow(q.audit) !in t.log
    requires AnchorDates(t.versions[q.version].definition, CurrentInputs(t, q)) == {}
    ensures Evaluate(t, q).1.Ok? && EvaluatedRows(t, Evaluate(t, q).0)
    ensures Evaluate(t, q).0.corrections == t.corrections && Evaluate(t, q).0.log == t.log + {AuditRow(q.audit)}
  {
    CurrentInputsOk(t, q);
    UnanchoredIsBare(t, q);
    PartsForEvaluating(t, q);
    assert !HasMemo(t, CurrentInputs(t, q), q);
    hide Evaluate, Conclude, LinksOk, FactsOk, EvaluationsOk, CurrentInputs, FreshResult, Fresh, HasMemo, InputOk;
    ConcludeBranches(t, CurrentInputs(t, q), q);
  }

  lemma UnanchoredIsBare(t: Tables, q: EvaluationRequest)
    requires ClaimsKeyed(t) && q.version in t.versions && t.evaluations == map[] && q.caseId in t.cases
      && AuditRow(q.audit) !in t.log
    requires AnchorDates(t.versions[q.version].definition, CurrentInputs(t, q)) == {}
    ensures FreshResult(t, q).Ok? && FreshResult(t, q).value.deadline.None?
      && !Clashes(t, FreshResult(t, q).value, q.audit)
  {
    GroundedClaimsDiffer(t, q.caseId, t.versions[q.version].definition);
    hide CurrentInputs, Recorded, AnchorDates, MissingPredicates, FailedPredicates, Disagrees;
  }

  lemma RuleTables()
    ensures var t := WithRule();
      && t.versions == map["v" := RULE] && t.evaluations == map[] && t.cases == {"case"} && t.facts == map[]
      && t.claims.Keys == {"a", "b"} && t.claims["b"].origin == Human && t.claims["b"].caseId == "case"
      && ClaimsKeyed(t) && (forall c | c in t.claims :: t.claims[c].attribute == "status")
      && t.claims["b"].subject == "person" && t.corrections.Keys == {"c1"}
      && t.changes == [StateChange(Generated("x1"), "a", Superseded, 2), StateChange(Generated("y1"), "b", Verified, 2)]
      && t.log == {AuditRow("a1"), ProvenanceRow("p1"), ObservationRow("o1"), AuditRow("a2"), ProvenanceRow("p2"),
         ReviewRow("r1"),
                   AuditRow("a3"), RuleRow("rule"), AuditRow("a4")}
  {
  }

  /** The tables after the evaluation, as far as later operations look at them. */
  ghost predicate IsEvaluated(u: Tables) {
    && Inv(u) && EvaluatedRows(WithRule(), u)
    && u.corrections == WithRule().corrections && u.log == WithRule().log + {AuditRow("a5")}
  }

  lemma NoAnchors(t: Tables)
    requires t.versions == map["v" := RULE] && forall c | c in t.claims :: t.claims[c].attribute == "status"
    ensures AnchorDates(RULE.definition, CurrentInputs(t, QUESTION)) == {}
  {
    hide CurrentState, EvidenceOf;
  }

  lemma QuestionIsAnswered()
    ensures Inv(WithRule()) && ClaimsKeyed(WithRule()) && Evaluate(WithRule(), QUESTION).1.Ok?
    ensures IsEvaluated(Evaluate(WithRule(), QUESTION).0)
    ensures IsStep(WithRule(), EvaluateOp(QUESTION), Evaluate(WithRule(), QUESTION).0)
  {
    hide WithRule, Evaluate, Inv, EvaluatedRows, Continues, AnchorDates, CurrentInputs;
    BeginningIsHistory();
    RuleTables();
    NoAnchors(WithRule());
    UnanchoredIsStored(WithRule(), QUESTION);
    EvaluateStep(WithRule(), QUESTION);
  }

  lemma AnswerUsesCorrected()
    ensures var u := Evaluate(WithRule(), QUESTION).0; var r := Evaluate(WithRule(), QUESTION).1;
      r.Ok? && r.value.evaluation.id in UsersOf(u, "b")
  {
    var t := WithRule();
    QuestionIsAnswered();
    CorrectedIsVerified();
    RuleTables();
    hide WithRule, Evaluate, Inv, CurrentState, EvidenceOf;
    assert Relevant(RULE.definition,
      InputOf(Grounding(t, "b"))) by { assert RULE.definition.all[0] in RULE.definition.all; }
    AnswerUses(t, QUESTION, "b");
  }

  /** After some run the evaluations that use a claim are not those a correction would report. */
  lemma OverlookedEvaluation()
    ensures exists states: seq<Tables>, ops: seq<Op>, i: nat, c: Id ::
      IsHistory(states, ops) && i < |states| && c in states[i].claims
        && Affected(states[i], c) != ListedTexts(UsersOf(states[i], c))
  {
    hide WithRule, Inv, Evaluate, IsHistory, Affected, UsersOf, ListedTexts, IsStep, EvaluatedRows;
    BeginningIsHistory();
    QuestionIsAnswered();
    AnswerUsesCorrected();
    RuleTables();
    var u := Evaluate(WithRule(), QUESTION).0;
    assert IsEvaluated(u) && u.claims == WithRule().claims by { EvaluatedClaims(WithRule(), u); }
    LongerHistory(FirstStates(), BEGINNING, EvaluateOp(QUESTION), u);
    AffectedExactly(u, "b");
    ListedNothing(UsersOf(u, "b"));
    var states, ops := FirstStates() + [u], BEGINNING + [EvaluateOp(QUESTION)];
    assert states[5] == u;
  }

  lemma EvaluatedClaims(t: Tables, u: Tables)
    requires EvaluatedRows(t, u)
    ensures u.claims == t.claims && u.changes == t.changes && u.facts == t.facts
  {
  }

  // ---- The correction of that claim, undone ----

  const RECORRECTING := CorrectionRequest("b", "d", Unknown, "c2", "x2", "y2", "p3", "r2", "a6", 4)
  const REJECTING := ReviewRequest("d", Reject, "x3", "f1", "r3", "a7", 5)
  const VERIFYING := ReviewRequest("b", Verify, "x4", "f2", "r4", "a8", 6)

  lemma EvaluatedTables(u: Tables)
    requires IsEvaluated(u)
    ensures ClaimsKeyed(u) && u.claims.Keys == {"a", "b"} && u.facts == map[] && u.corrections.Keys == {"c1"}
    ensures u.changes == [StateChange(Generated("x1"), "a", Superseded, 2),
      StateChange(Generated("y1"), "b", Verified, 2)]
    ensures u.log == LOGGED
  {
    RuleTables();
    EvaluatedClaims(WithRule(), u);
    hide WithRule, Inv, EvaluatedRows;
  }

  /** The rows logged up to the evaluation. */
  const LOGGED := {AuditRow("a1"), ProvenanceRow("p1"), ObservationRow("o1"), AuditRow("a2"), ProvenanceRow("p2"),
    ReviewRow("r1"),
                   AuditRow("a3"), RuleRow("rule"), AuditRow("a4"), AuditRow("a5")}

  lemma NamesDiffer()
    ensures CorrectionRows(RECORRECTING) !! LOGGED
    ensures ReviewRows(REJECTING) !! LOGGED + CorrectionRows(RECORRECTING)
    ensures ReviewRows(VERIFYING) !! LOGGED + CorrectionRows(RECORRECTING) + ReviewRows(REJECTING)
  {
  }

  lemma RecorrectionAdmissible(u: Tables)
    requires IsEvaluated(u)
    ensures "b" in u.claims && Admissible(u, CorrectOp(RECORRECTING)) && CorrectionAccepted(u, RECORRECTING)
    ensures CorrectClaim(u, RECORRECTING).0 == WithCorrected(u, RECORRECTING)
  {
    hide IsEvaluated, Affected, InsertEdge, InsertChange, CorrectedClaim, ClaimsKeyed, WithCorrected, Inv,
      CorrectionRows, LOGGED, Admissible;
    EvaluatedTables(u);
    NamesDiffer();
    LaterNames(u);
    hide CorrectionRow;
  }

  lemma LaterNames(u: Tables)
    requires u.changes ==
      [StateChange(Generated("x1"), "a", Superseded, 2), StateChange(Generated("y1"), "b", Verified, 2)]
    ensures Admissible(u, CorrectOp(RECORRECTING))
  {
  }

  lemma RecorrectionStep(u: Tables)
    requires IsEvaluated(u)
    ensures "b" in u.claims && IsStep(u, CorrectOp(RECORRECTING), WithCorrected(u, RECORRECTING))
    ensures var s := WithCorrected(u, RECORRECTING);
      s.facts == map[] && s.log == u.log + CorrectionRows(RECORRECTING) && s.claims.Keys == {"a", "b", "d"}
      && s.changes == u.changes
         + [StateChange(Generated("x2"), "b", Superseded, 4), StateChange(Generated("y2"), "d", Verified, 4)]
  {
    RecorrectionAdmissible(u);
    EvaluatedTables(u);
    assert EdgesOk(u);
    hide IsEvaluated, Affected, InsertEdge, InsertChange, CorrectedClaim, ClaimsKeyed, Inv, CorrectClaim,
      CorrectionAccepted, Admissible, EdgesOk;
    CorrectionTables(u, RECORRECTING);
  }

  /** A review that nothing refuses. */
  lemma ReviewTaken(t: Tables, q: ReviewRequest)
    requires ClaimsKeyed(t) && Admissible(t, Review(q)) && q.claim in t.claims && q.decision != Correct
      && ReviewNamesUnused(t, q)
    requires q.decision == Verify ==> q.claim !in t.facts
    ensures var u := ReviewClaim(t, q).0;
      var x := StateChange(Generated(q.change), q.claim, DecidedState(q.decision), q.at);
      && IsStep(t, Review(q), u) && ClaimsKeyed(u) && u.claims == t.claims && u.changes == t.changes + [x]
      && u.log == t.log + ReviewRows(q)
         && u.facts.Keys == (if q.decision == Verify then t.facts.Keys + {q.claim} else t.facts.Keys)
      && (if q.decision == Verify then u.facts[q.claim].id == q.fact else u.facts == t.facts)
  {
    ReviewAppends(t, q);
    hide Admissible, InsertChange;
  }

  const CHANGES := [StateChange(Generated("x1"), "a", Superseded, 2), StateChange(Generated("y1"), "b", Verified, 2),
                    StateChange(Generated("x2"), "b", Superseded, 4), StateChange(Generated("y2"), "d", Verified, 4)]

  const REJECTED := StateChange(Generated("x3"), "d", Rejected, 5)

  lemma ReviewsAreLater(s: Tables, v: Tables)
    requires s.changes == CHANGES && v.changes == CHANGES + [REJECTED]
    ensures Admissible(s, Review(REJECTING)) && Admissible(v, Review(VERIFYING))
  {
  }

  lemma UndoingSteps(s: Tables)
    requires ClaimsKeyed(s) && s.changes == CHANGES && s.facts == map[]
      && s.log == LOGGED + CorrectionRows(RECORRECTING)
    requires s.claims.Keys == {"a", "b", "d"}
    ensures var v := ReviewClaim(s, REJECTING).0; var w := ReviewClaim(v, VERIFYING).0;
      && IsStep(s, Review(REJECTING), v) && IsStep(v, Review(VERIFYING), w)
      && ReviewNamesUnused(s, REJECTING) && ReviewNamesUnused(v, VERIFYING)
  {
    var v := ReviewClaim(s, REJECTING).0;
    NamesDiffer();
    ReviewsAreLater(s, s.(changes := CHANGES + [REJECTED]));
    hide IsStep, LOGGED, CHANGES, ReviewRows, CorrectionRows, Admissible, ClaimsKeyed, ReviewClaim;
    ReviewTaken(s, REJECTING);
    ReviewsAreLater(s, v);
    ReviewTaken(v, VERIFYING);
  }

  /** A correction after which an earlier answer comes back. */
  ghost predicate IsUndone(
    states: seq<Tables>, ops: seq<Op>, i: nat, q: CorrectionRequest, reject: ReviewRequest, verify: ReviewRequest,
      e: Id, ask: EvaluationRequest)
  {
    IsUndoing(states, ops, i, q, reject, verify, e, ask) && q.original !in states[i].facts
      && AnswersNow(states[i + 3], ask, e)
  }

  lemma UndoingIsHistory(u: Tables)
    requires IsEvaluated(u) && IsStep(WithRule(), EvaluateOp(QUESTION), u)
    ensures var s := WithCorrected(u, RECORRECTING); var v := ReviewClaim(s, REJECTING).0;
      var w := ReviewClaim(v, VERIFYING).0;
      var states := FirstStates() + [u] + [s] + [v] + [w];
      var ops := BEGINNING + [EvaluateOp(QUESTION)] + [CorrectOp(RECORRECTING)] + [Review(REJECTING)]
        + [Review(VERIFYING)];
      && IsHistory(states, ops) && ReviewNamesUnused(s, REJECTING) && ReviewNamesUnused(v, VERIFYING) && s != u
         && u.facts == map[]
  {
    hide WithRule, IsHistory, IsStep, ReviewClaim, WithCorrected, Inv, IsEvaluated, LOGGED, CorrectionRows, ReviewRows;
    BeginningIsHistory();
    EvaluatedTables(u);
    var s := WithCorrected(u, RECORRECTING);
    RecorrectionStep(u);
    LongerHistory(FirstStates(), BEGINNING, EvaluateOp(QUESTION), u);
    LongerHistory(FirstStates() + [u], BEGINNING + [EvaluateOp(QUESTION)], CorrectOp(RECORRECTING), s);
    assert s.changes == CHANGES;
    assert ClaimsKeyed(s) by {
      assert (FirstStates() + [u] + [s])[6] == s;
      ReachableIsValid(FirstStates() + [u] + [s], BEGINNING + [EvaluateOp(QUESTION)] + [CorrectOp(RECORRECTING)], 6);
      KeyedWhenValid(s);
    }
    UndoingSteps(s);
    var v := ReviewClaim(s, REJECTING).0;
    LongerHistory(FirstStates() + [u] + [s], BEGINNING + [EvaluateOp(QUESTION)] + [CorrectOp(RECORRECTING)],
      Review(REJECTING), v);
    LongerHistory(FirstStates() + [u] + [s] + [v],
      BEGINNING + [EvaluateOp(QUESTION)] + [CorrectOp(RECORRECTING)] + [Review(REJECTING)],
      Review(VERIFYING), ReviewClaim(v, VERIFYING).0);
  }

  /** After some run a correction is undone, and the answer that used the corrected claim is back. */
  lemma CorrectionUndone()
    ensures exists states, ops, i, q, reject, verify, e, ask :: IsUndone(states, ops, i, q, reject, verify, e, ask)
  {
    hide WithRule, IsHistory, Evaluate, ReviewClaim, WithCorrected, Inv, LOGGED, CorrectionRows, ReviewRows, IsStep,
      Uses, ReviewNamesUnused;
    QuestionIsAnswered();
    AnswerUsesCorrected();
    var u, e := Evaluate(WithRule(), QUESTION).0, Evaluate(WithRule(), QUESTION).1.value.evaluation.id;
    UndoingIsHistory(u);
    EvaluatedTables(u);
    AskingAgain(WithRule(), QUESTION, QUESTION);
    var s := WithCorrected(u, RECORRECTING);
    var v := ReviewClaim(s, REJECTING).0;
    var states := FirstStates() + [u] + [s] + [v] + [ReviewClaim(v, VERIFYING).0];
    var ops := BEGINNING + [EvaluateOp(QUESTION)] + [CorrectOp(RECORRECTING)] + [Review(REJECTING)]
      + [Review(VERIFYING)];
    assert states[5] == u && states[6] == s && states[7] == v;
    assert ops[5] == CorrectOp(RECORRECTING) && ops[6] == Review(REJECTING) && ops[7] == Review(VERIFYING);
    assert AnswersNow(u, QUESTION, e);
    assert IsUndoing(states, ops, 5, RECORRECTING, REJECTING, VERIFYING, e, QUESTION);
    RetiredExactly(states, ops, 5, RECORRECTING, REJECTING, VERIFYING, e, QUESTION);
    assert IsUndone(states, ops, 5, RECORRECTING, REJECTING, VERIFYING, e, QUESTION);
  }

  // ---- A second verification, refused ----

  const FIRST_VERIFYING := ReviewRequest("a", Verify, "x1", "f1", "r1", "a3", 2)
  const DOUBTING := ReviewRequest("a", Reject, "x2", "f2", "r2", "a4", 3)
  const SECOND_VERIFYING := ReviewRequest("a", Verify, "x3", "f3", "r3", "a5", 4)

  /** A verification the store refuses although the claim is there, unverified, and all names are new. */
  ghost predicate IsRefusedVerification(states: seq<Tables>, ops: seq<Op>, i: nat, q: ReviewRequest) {
    && Happens(states, ops, i, Review(q)) && q.decision == Verify && ReviewNamesUnused(states[i], q)
    && q.claim in states[i].claims && CurrentState(states[i], q.claim) == Rejected && Spent(states[i], q.claim)
    && ReviewClaim(states[i], q).1 == Err(Conflict)
  }

  lemma FirstVerification(t: Tables)
    requires t.facts == map[] && t.changes == [] && t.log == RECORDED_LOG
    ensures Admissible(t, Review(FIRST_VERIFYING)) && ReviewNamesUnused(t, FIRST_VERIFYING)
  {
  }

  lemma Doubt(t: Tables)
    requires t.changes == [StateChange(Generated("x1"), "a", Verified, 2)]
      && t.log == RECORDED_LOG + ReviewRows(FIRST_VERIFYING)
    ensures Admissible(t, Review(DOUBTING)) && ReviewNamesUnused(t, DOUBTING)
  {
  }

  lemma SecondVerification(t: Tables)
    requires t.changes == [StateChange(Generated("x1"), "a", Verified, 2)]
      + [StateChange(Generated("x2"), "a", Rejected, 3)]
    requires t.log == RECORDED_LOG + ReviewRows(FIRST_VERIFYING) + ReviewRows(DOUBTING) && t.facts.Keys == {"a"}
      && t.facts["a"].id == "f1"
    ensures Admissible(t, Review(SECOND_VERIFYING)) && ReviewNamesUnused(t, SECOND_VERIFYING)
  {
  }

  /** Verified, rejected, and then not verified again, although nothing else stands against it. */
  lemma VerificationRefused()
    ensures exists states, ops, i, q :: IsRefusedVerification(states, ops, i, q)
  {
    hide WithRecording, IsStep, ReviewClaim, ReviewRows, RECORDED_LOG, Admissible, CurrentState, Inv,
      ReviewNamesUnused, OPENED,
      ClaimsKeyed;
    var t := WithRecording();
    OpeningStep();
    RecordingStep();
    RecordingTables();
    FirstVerification(t);
    ReviewTaken(t, FIRST_VERIFYING);
    var u := ReviewClaim(t, FIRST_VERIFYING).0;
    Doubt(u);
    ReviewTaken(u, DOUBTING);
    var v := ReviewClaim(u, DOUBTING).0;
    SecondVerification(v);
    RefusedTwice(u, v);
    FiveSteps(t, u, v);
    var states := [EMPTY, OPENED, t, u, v, v];
    var ops := [OpenCase("case", "a1"), Record(RECORDING), Review(FIRST_VERIFYING), Review(DOUBTING),
      Review(SECOND_VERIFYING)];
    hide IsHistory;
    assert IsRefusedVerification(states, ops, 4, SECOND_VERIFYING);
  }

  lemma FiveSteps(t: Tables, u: Tables, v: Tables)
    requires IsStep(EMPTY, OpenCase("case", "a1"), OPENED) && IsStep(OPENED, Record(RECORDING), t)
    requires IsStep(t, Review(FIRST_VERIFYING), u) && IsStep(u, Review(DOUBTING), v)
      && IsStep(v, Review(SECOND_VERIFYING), v)
    ensures IsHistory(
      [EMPTY, OPENED, t, u, v, v],
      [OpenCase("case", "a1"), Record(RECORDING), Review(FIRST_VERIFYING), Review(DOUBTING), Review(SECOND_VERIFYING)])
  {
    hide IsStep, OPENED;
  }

  lemma RefusedTwice(u: Tables, v: Tables)
    requires ClaimsKeyed(v) && v == ReviewClaim(u, DOUBTING).0 && Admissible(u, Review(DOUBTING))
      && ReviewNamesUnused(u, DOUBTING)
    requires "a" in u.claims && "a" in v.facts && Admissible(v, Review(SECOND_VERIFYING))
    ensures "a" in v.claims && CurrentState(v, "a") == Rejected
      && ReviewClaim(v, SECOND_VERIFYING) == (v, Err(Conflict))
    ensures IsStep(v, Review(SECOND_VERIFYING), v)
  {
    ReviewStates(u, DOUBTING);
    hide CurrentState, Admissible;
  }

  // ---- A corrected claim that nothing is compared with ----

  const FIRST := ClaimRequest("a", "case", "person", "status", Known(Boolean(true)), "e1", "g1", "p1", "o1", "a2", 1)
  const SECOND := ClaimRequest("b", "case", "person", "status", Known(Boolean(true)), "e2", "g2", "p2", "o2", "a3", 2)
  const DIVERGING := CorrectionRequest("b", "d", Known(Boolean(false)), "c1", "x1", "y1", "p3", "r1", "a4", 3)

  /** Two live claims on one key whose known values differ, and which nothing relates. */
  ghost predicate IsMissedContradiction(t: Tables, a: Id, d: Id) {
    && Comparable(t, a, d) && t.claims[a].value != t.claims[d].value
    && CurrentState(t, a) == Extracted && CurrentState(t, d) == Verified && !Related(t, a, d)
  }

  function WithFirst(): Tables {
    OPENED.(claims := map["a" := ExternalClaim(FIRST)], evidence := {"e1"}, edges := {SupportEdge(FIRST)},
            log := OPENED.log + RecordRows(FIRST))
  }

  lemma FirstStep()
    ensures IsStep(OPENED, Record(FIRST), WithFirst())
  {
    var claim := ExternalClaim(FIRST);
    assert LivePriors(OPENED, claim) == {};
    assert OrderedPriors(OPENED, claim) == [];
    assert RecordClaim(OPENED, FIRST).0 == WithFirst();
  }

  lemma FirstTables()
    ensures var t := WithFirst();
      && ClaimsKeyed(t) && t.claims == map["a" := ExternalClaim(FIRST)] && t.changes == [] && t.corrections == map[]
      && t.cases == {"case"} && t.evidence == {"e1"} && t.log == OPENED.log + RecordRows(FIRST)
      && CurrentState(t, "a") == Extracted && t.edges == {SupportEdge(FIRST)}
  {
  }

  lemma DivergingNames()
    ensures RecordRows(SECOND) !! OPENED.log + RecordRows(FIRST)
    ensures CorrectionRows(DIVERGING) !! OPENED.log + RecordRows(FIRST) + RecordRows(SECOND)
  {
  }

  lemma SecondStep()
    ensures ClaimsKeyed(WithFirst()) && Admissible(WithFirst(), Record(SECOND)) && RecordAccepted(WithFirst(), SECOND)
    ensures var u := RecordClaim(WithFirst(), SECOND).0;
      && u == WithClaim(WithFirst(), SECOND, OrderedPriors(WithFirst(), ExternalClaim(SECOND)))
      && u.log == WithFirst().log + RecordRows(SECOND) && u.corrections == map[]
      && u.claims == map["a" := ExternalClaim(FIRST), "b" := ExternalClaim(SECOND)]
  {
    FirstTables();
    DivergingNames();
    hide WithFirst, RecordRows, OPENED, OrderedPriors, ClaimsKeyed;
    RecordIsWithClaim(WithFirst(), SECOND);
    hide RelationEdges, ContradictionSet, ContradictedChanges, Conflicts;
  }

  lemma OnlyEqualPriors(t: Tables)
    requires ClaimsOk(t) && t.claims == map["a" := ExternalClaim(FIRST)]
    ensures forall p :: p in LivePriors(t, ExternalClaim(SECOND)) ==> !Conflicting(ExternalClaim(SECOND), p)
    ensures forall p :: p in OrderedPriors(t, ExternalClaim(SECOND)) ==> !Conflicting(ExternalClaim(SECOND), p)
  {
    hide CurrentState, OrderedPriors;
    PriorsOf(t, SECOND);
    assert forall p :: p in LivePriors(t, ExternalClaim(SECOND)) ==> p == ExternalClaim(FIRST);
  }

  /** Equal values do not conflict: the second claim changes no state. */
  lemma NothingConflicts(t: Tables)
    requires LinksOk(t) && Admissible(t, Record(SECOND)) && RecordAccepted(t, SECOND)
    requires t.claims == map["a" := ExternalClaim(FIRST)] && t.changes == [] && CurrentState(t, "a") == Extracted
    ensures RecordClaim(t, SECOND).0.changes == []
    ensures "a" in RecordClaim(t, SECOND).0.claims && CurrentState(RecordClaim(t, SECOND).0, "a") == Extracted
  {
    hide RecordClaim, RecordAccepted, EdgesOk, SupportOk, ContradictionsOk, RelationsOk, Admissible, CurrentState,
      LivePriors,
      OrderedPriors, Conflicting, IsPairChange;
    OnlyEqualPriors(t);
    RecordChanges(t, SECOND);
    RecordStates(t, SECOND);
    var changes := RecordClaim(t, SECOND).0.changes;
    assert changes[|t.changes|..] == changes;
    NonEmptyHasMember(changes);
  }

  lemma NonEmptyHasMember<T>(s: seq<T>)
    ensures s != [] ==> exists x :: x in s
  {
    if s != [] { assert s[0] in s; }
  }

  /** What the correction finds: two claims, no change of state, no correction. */
  ghost predicate IsBeforeDiverging(u: Tables) {
    && Inv(u) && u.changes == [] && u.corrections == map[]
    && u.claims == map["a" := ExternalClaim(FIRST), "b" := ExternalClaim(SECOND)]
    && u.log == OPENED.log + RecordRows(FIRST) + RecordRows(SECOND)
  }

  lemma DivergingAccepted(u: Tables)
    requires IsBeforeDiverging(u)
    ensures Admissible(u, CorrectOp(DIVERGING)) && CorrectionAccepted(u, DIVERGING)
  {
    DivergingNames();
    hide Inv, RecordRows, CorrectionRows, OPENED, WithCorrected, CorrectionRow, CorrectedClaim;
  }

  lemma DivergingTables(u: Tables)
    requires IsBeforeDiverging(u)
    ensures IsStep(u, CorrectOp(DIVERGING), CorrectClaim(u, DIVERGING).0)
    ensures var v := CorrectClaim(u, DIVERGING).0;
      && v.claims.Keys == {"a", "b", "d"} && v.claims["a"] == ExternalClaim(FIRST)
      && v.claims["d"].SameKey(v.claims["a"]) && v.claims["d"].value == Known(Boolean(false))
      && CurrentState(v, "d") == Verified && CurrentState(v, "a") == CurrentState(u, "a")
  {
    hide Inv, RecordRows, CorrectionRows, OPENED, EdgesOk, ChangesOk, ClaimsKeyed, Admissible, CurrentState,
      CorrectClaim,
      CorrectionAccepted;
    DivergingAccepted(u);
    KeyedWhenValid(u);
    PartsOfValid(u);
    CorrectionTables(u, DIVERGING);
    CorrectionStates(u, DIVERGING);
  }

  const RECORDED_TWICE := [OpenCase("case", "a1"), Record(FIRST), Record(SECOND)]

  lemma RecordedTwice()
    ensures ClaimsKeyed(WithFirst())
    ensures var u := RecordClaim(WithFirst(), SECOND).0;
      && IsHistory([EMPTY, OPENED, WithFirst(), u], RECORDED_TWICE)
      && IsBeforeDiverging(u) && CurrentState(u, "a") == Extracted
  {
    hide WithFirst, IsStep, RecordClaim, RecordAccepted, WithClaim, OrderedPriors, Inv, Admissible, CurrentState,
      OPENED,
      RecordRows, ClaimsKeyed;
    var t := WithFirst();
    OpeningStep();
    FirstStep();
    FirstTables();
    SecondStep();
    var u := RecordClaim(t, SECOND).0;
    assert IsStep(t, Record(SECOND), u) by { TakenStep(t); }
    ThreeSteps(t, u);
    ReachableIsValid([EMPTY, OPENED, t, u], RECORDED_TWICE, 2);
    ReachableIsValid([EMPTY, OPENED, t, u], RECORDED_TWICE, 3);
    LinksOfValid(t);
    NothingConflicts(t);
  }

  lemma TakenStep(t: Tables)
    requires ClaimsKeyed(t) && Admissible(t, Record(SECOND))
    ensures IsStep(t, Record(SECOND), RecordClaim(t, SECOND).0)
  {
    hide RecordClaim, ClaimsKeyed, Admissible;
  }

  lemma PartsOfValid(t: Tables)
    requires Inv(t)
    ensures EdgesOk(t) && ChangesOk(t)
  {
    hide EdgesOk, ChangesOk, ClaimsOk, SupportOk, ContradictionsOk, RelationsOk, FactsOk, EvaluationsOk;
  }

  lemma LinksOfValid(t: Tables)
    requires Inv(t)
    ensures LinksOk(t)
  {
    hide LinksOk, FactsOk, EvaluationsOk;
  }

  lemma ThreeSteps(t: Tables, u: Tables)
    requires IsStep(EMPTY, OpenCase("case", "a1"), OPENED) && IsStep(OPENED, Record(FIRST), t)
      && IsStep(t, Record(SECOND), u)
    ensures IsHistory([EMPTY, OPENED, t, u], RECORDED_TWICE)
  {
    hide IsStep, OPENED;
  }

  /** After some run two live claims on one key have different known values and no contradiction says so. */
  lemma MissedContradiction()
    ensures exists states: seq<Tables>, ops: seq<Op>, i: nat, a: Id, d: Id ::
      IsHistory(states, ops) && i < |states| && IsMissedContradiction(states[i], a, d)
  {
    hide WithFirst, IsStep, RecordClaim, CorrectClaim, IsHistory, Related, CurrentState, ClaimsKeyed, OPENED;
    RecordedTwice();
    var t := WithFirst();
    var u := RecordClaim(t, SECOND).0;
    DivergingTables(u);
    assert u.claims.Keys == {"a", "b"};
    hide IsBeforeDiverging, RECORDED_TWICE;
    MissedFrom([EMPTY, OPENED, t, u], u, CorrectClaim(u, DIVERGING).0);
  }

  lemma MissedFrom(states: seq<Tables>, u: Tables, v: Tables)
    requires IsHistory(states, RECORDED_TWICE) && |states| == 4 && states[3] == u && IsStep(u, CorrectOp(DIVERGING), v)
    requires u.claims.Keys == {"a", "b"} && v.claims.Keys == {"a", "b", "d"} && v.claims["a"] == ExternalClaim(FIRST)
    requires v.claims["d"].SameKey(v.claims["a"]) && v.claims["d"].value == Known(Boolean(false))
    requires CurrentState(v, "d") == Verified && CurrentState(v, "a") == Extracted
    ensures exists states: seq<Tables>, ops: seq<Op>, i: nat, a: Id, d: Id ::
      IsHistory(states, ops) && i < |states| && IsMissedContradiction(states[i], a, d)
  {
    hide IsStep, IsHistory, Related, CurrentState, IsMissedContradiction, ExternalClaim;
    LongerHistory(states, RECORDED_TWICE, CorrectOp(DIVERGING), v);
    var states', ops := states + [v], RECORDED_TWICE + [CorrectOp(DIVERGING)];
    NeverRelated(states', ops, u, v);
    IsMissed(v);
    assert states'[4] == v;
  }

  lemma NeverRelated(states: seq<Tables>, ops: seq<Op>, u: Tables, v: Tables)
    requires |ops| == 4 && ops[3] == CorrectOp(DIVERGING) && IsHistory(states, ops) && states[3] == u && states[4] == v
    requires u.claims.Keys == {"a", "b"} && v.claims.Keys == {"a", "b", "d"}
    ensures !Related(v, "a", "d")
  {
    assert |states| == |ops| + 1 && "d" in v.claims && "d" !in u.claims;
    hide IsHistory, Related;
    CorrectedIsUnrelated(states, ops, 3, 4, DIVERGING, "a");
    RelatedIsSymmetric(v, "a", "d");
  }

  lemma IsMissed(v: Tables)
    requires v.claims.Keys == {"a", "b", "d"} && v.claims["a"] == ExternalClaim(FIRST) && !Related(v, "a", "d")
    requires v.claims["d"].SameKey(v.claims["a"]) && v.claims["d"].value == Known(Boolean(false))
    requires CurrentState(v, "d") == Verified && CurrentState(v, "a") == Extracted
    ensures IsMissedContradiction(v, "a", "d")
  {
    hide CurrentState, Related;
  }

  lemma RelatedIsSymmetric(t: Tables, a: Id, b: Id)
    ensures Related(t, a, b) <==> Related(t, b, a)
  {
  }

  // ---- A retired evaluation, answered by a question that read before the correction ----

  const STATUS_RULE := RuleVersion("v", "package", "key", Definition([Condition("person", "status", Unknown)], EFFECT))
  const RETIRING := CorrectionRequest("a", "b", NotApplicable, "c1", "x2", "y2", "p2", "r2", "a6", 3)

  /** An evaluation that used a claim with a fact answers after that claim was corrected. */
  ghost predicate IsStaleAnswer(
    states: seq<Tables>, ops: seq<Op>, c: nat, i: nat, q: CorrectionRequest, e: Id, ask: EvaluationRequest)
  {
    && c < i && Succeeds(states, ops, c, CorrectOp(q)) && Concludes(states, ops, c, c, i, ask)
    && e in states[c].evaluations && Uses(states[c].evaluations[e], q.original) && q.original in states[c].facts
    && q.original in states[c].claims && states[c].claims[q.original].origin == External
    && Answer(states, ops, c, c, i, ask).Ok? && Answer(states, ops, c, c, i, ask).value.evaluation.id == e
  }

  function WithStatusRule(t: Tables): Tables {
    t.(versions := map["v" := STATUS_RULE], log := t.log + {RuleRow("rule"), AuditRow("a4")})
  }

  /** The tables before the evaluation, as far as later operations look at them. */
  ghost predicate IsBeforeAsking(t: Tables) {
    && Inv(t) && t.claims == map["a" := ExternalClaim(RECORDING)] && t.facts.Keys == {"a"} && t.corrections == map[]
    && t.versions == map["v" := STATUS_RULE] && t.evaluations == map[] && t.cases == {"case"}
    && t.changes == [StateChange(Generated("x1"), "a", Verified, 2)]
    && t.log == RECORDED_LOG + ReviewRows(FIRST_VERIFYING) + {RuleRow("rule"), AuditRow("a4")}
  }

  lemma RecordedOnly()
    ensures var t := WithRecording();
      && t.claims == map["a" := ExternalClaim(RECORDING)] && t.corrections == map[] && t.versions == map[]
      && t.evaluations == map[] && t.cases == {"case"}
  {
  }

  const BEFORE_ASKING := [OpenCase("case", "a1"), Record(RECORDING), Review(FIRST_VERIFYING),
    Register(STATUS_RULE, "rule", "a4")]

  lemma VerifiedTables()
    ensures var t := WithRecording(); var v := ReviewClaim(t, FIRST_VERIFYING).0;
      && IsStep(t, Review(FIRST_VERIFYING), v) && ClaimsKeyed(v)
      && v.claims == map["a" := ExternalClaim(RECORDING)] && v.facts.Keys == {"a"} && v.corrections == map[]
      && v.versions == map[] && v.evaluations == map[] && v.cases == {"case"}
      && v.changes == [StateChange(Generated("x1"), "a", Verified, 2)]
         && v.log == RECORDED_LOG + ReviewRows(FIRST_VERIFYING)
  {
    hide WithRecording, IsStep, ReviewClaim, ReviewRows, RECORDED_LOG, Admissible, ReviewNamesUnused, ClaimsKeyed;
    var t := WithRecording();
    RecordingTables();
    RecordedOnly();
    FirstVerification(t);
    ReviewTaken(t, FIRST_VERIFYING);
    assert ReviewClaim(t, FIRST_VERIFYING).1.Ok? by { VerificationAccepted(t); }
    ReviewAppends(t, FIRST_VERIFYING);
    assert [] + [StateChange(Generated("x1"), "a", Verified, 2)] == [StateChange(Generated("x1"), "a", Verified, 2)];
  }

  lemma VerificationAccepted(t: Tables)
    requires "a" in t.claims && t.facts == map[] && ReviewNamesUnused(t, FIRST_VERIFYING)
    ensures ReviewClaim(t, FIRST_VERIFYING).1.Ok?
  {
  }

  lemma RuleNames()
    ensures {RuleRow("rule"), AuditRow("a4")} !! RECORDED_LOG + ReviewRows(FIRST_VERIFYING)
    ensures AuditRow("a5") !in RECORDED_LOG + ReviewRows(FIRST_VERIFYING) + {RuleRow("rule"), AuditRow("a4")}
    ensures CorrectionRows(RETIRING)
      !! RECORDED_LOG + ReviewRows(FIRST_VERIFYING) + {RuleRow("rule"), AuditRow("a4")} + {AuditRow("a5")}
  {
  }

  lemma RuleRegistered(v: Tables)
    requires ClaimsKeyed(v) && v.versions == map[] && v.log == RECORDED_LOG + ReviewRows(FIRST_VERIFYING)
    ensures IsStep(v, Register(STATUS_RULE, "rule", "a4"), WithStatusRule(v))
  {
    RuleNames();
    hide RECORDED_LOG, ReviewRows, ClaimsKeyed;
    assert RegisterRule(v, STATUS_RULE, "rule", "a4").0 == WithStatusRule(v);
  }

  lemma AskingHistory()
    ensures var v := ReviewClaim(WithRecording(), FIRST_VERIFYING).0; var t := WithStatusRule(v);
      IsHistory([EMPTY, OPENED, WithRecording(), v, t], BEFORE_ASKING) && IsBeforeAsking(t)
  {
    hide WithRecording, IsStep, ReviewClaim, ReviewRows, RECORDED_LOG, ClaimsKeyed, OPENED, Inv;
    OpeningStep();
    RecordingStep();
    VerifiedTables();
    var v := ReviewClaim(WithRecording(), FIRST_VERIFYING).0;
    RuleRegistered(v);
    BeginningSteps(WithRecording(), v, WithStatusRule(v));
    ReachableIsValid([EMPTY, OPENED, WithRecording(), v, WithStatusRule(v)], BEFORE_ASKING, 4);
  }

  lemma BeginningSteps(t: Tables, u: Tables, v: Tables)
    requires IsStep(EMPTY, OpenCase("case", "a1"), OPENED) && IsStep(OPENED, Record(RECORDING), t)
    requires IsStep(t, Review(FIRST_VERIFYING), u) && IsStep(u, Register(STATUS_RULE, "rule", "a4"), v)
    ensures IsHistory([EMPTY, OPENED, t, u, v], BEFORE_ASKING)
  {
    hide IsStep, OPENED;
  }

  lemma VerifiedIsRelevant(t: Tables)
    requires ClaimsKeyed(t) && t.claims == map["a" := ExternalClaim(RECORDING)] && t.versions == map["v" := STATUS_RULE]
    requires t.changes == [StateChange(Generated("x1"), "a", Verified, 2)]
    ensures CurrentState(t, "a") == Verified && Relevant(STATUS_RULE.definition, InputOf(Grounding(t, "a")))
    ensures AnchorDates(STATUS_RULE.definition, CurrentInputs(t, QUESTION)) == {}
  {
    assert [StateChange(Generated("x1"), "a", Verified, 2)][..0] == [];
    assert Latest(t.changes, "a") == Some(StateChange(Generated("x1"), "a", Verified, 2));
    assert STATUS_RULE.definition.all[0] in STATUS_RULE.definition.all;
    hide Latest, EvidenceOf;
  }

  lemma QuestionFits(t: Tables)
    requires IsBeforeAsking(t)
    ensures ClaimsKeyed(t) && QUESTION.version in t.versions && t.evaluations == map[] && QUESTION.caseId in t.cases
    ensures AuditRow(QUESTION.audit) !in t.log && t.versions["v"].definition == STATUS_RULE.definition
    ensures "a" in t.claims && t.claims["a"].caseId == QUESTION.caseId && CurrentState(t, "a") == Verified
    ensures Relevant(STATUS_RULE.definition, InputOf(Grounding(t, "a")))
    ensures AnchorDates(STATUS_RULE.definition, CurrentInputs(t, QUESTION)) == {}
  {
    hide Inv, RECORDED_LOG, ReviewRows, ClaimsKeyed, CurrentState, Relevant, Grounding, CurrentInputs;
    KeyedWhenValid(t);
    RuleNames();
    VerifiedIsRelevant(t);
  }

  lemma AskedOnce(t: Tables)
    requires IsBeforeAsking(t)
    ensures ClaimsKeyed(t) && Evaluate(t, QUESTION).1.Ok?
    ensures var u := Evaluate(t, QUESTION).0;
      && IsStep(t, EvaluateOp(QUESTION), u) && Inv(u) && u.log == t.log + {AuditRow("a5")}
      && u.corrections == t.corrections && EvaluatedRows(t, u)
  {
    assert Inv(t);
    hide IsBeforeAsking, Evaluate, Inv, CurrentState, Relevant, Grounding, ClaimsKeyed, CurrentInputs, AnchorDates,
      Continues,
      EvaluatedRows, IsStep;
    QuestionFits(t);
    hide RECORDED_LOG, ReviewRows, STATUS_RULE;
    UnanchoredIsStored(t, QUESTION);
    EvaluateStep(t, QUESTION);
    EvaluationTaken(t);
  }

  lemma EvaluationTaken(t: Tables)
    requires ClaimsKeyed(t)
    ensures IsStep(t, EvaluateOp(QUESTION), Evaluate(t, QUESTION).0)
  {
    hide ClaimsKeyed, Evaluate;
  }

  /** The answer to a question is the answer to it again. */
  lemma AnsweredNow(t: Tables, q: EvaluationRequest)
    requires Inv(t) && ClaimsKeyed(t) && Evaluate(t, q).1.Ok?
    ensures AnswersNow(Evaluate(t, q).0, q, Evaluate(t, q).1.value.evaluation.id)
  {
    hide Inv, Evaluate, ClaimsKeyed;
    AskingAgain(t, q, q);
    KeyedWhenValid(Evaluate(t, q).0);
  }

  lemma Asked(t: Tables)
    requires IsBeforeAsking(t)
    ensures ClaimsKeyed(t) && Evaluate(t, QUESTION).1.Ok?
    ensures var u := Evaluate(t, QUESTION).0; var e := Evaluate(t, QUESTION).1.value.evaluation.id;
      && IsStep(t, EvaluateOp(QUESTION), u) && Inv(u) && u.log == t.log + {AuditRow("a5")}
      && u.corrections == t.corrections && EvaluatedRows(t, u)
      && e in UsersOf(u, "a") && AnswersNow(u, QUESTION, e)
  {
    assert Inv(t);
    hide IsBeforeAsking, Evaluate, Inv, CurrentState, Relevant, Grounding, ClaimsKeyed, CurrentInputs, AnchorDates,
      UsersOf,
      EvaluatedRows, AnswersNow, IsStep;
    AskedOnce(t);
    QuestionFits(t);
    AnswerUses(t, QUESTION, "a");
    AnsweredNow(t, QUESTION);
  }

  lemma RetiringAdmissible(u: Tables)
    requires u.claims == map["a" := ExternalClaim(RECORDING)] && u.corrections == map[]
    requires u.changes == [StateChange(Generated("x1"), "a", Verified, 2)]
    requires u.log == RECORDED_LOG + ReviewRows(FIRST_VERIFYING) + {RuleRow("rule"), AuditRow("a4")} + {AuditRow("a5")}
    ensures Admissible(u, CorrectOp(RETIRING)) && CorrectionAccepted(u, RETIRING)
  {
    RuleNames();
    hide RECORDED_LOG, ReviewRows, CorrectionRows, WithCorrected, CorrectionRow;
  }

  lemma RetiringStep(u: Tables)
    requires Inv(u) && u.claims == map["a" := ExternalClaim(RECORDING)]
    requires Admissible(u, CorrectOp(RETIRING)) && CorrectionAccepted(u, RETIRING)
    ensures IsStep(u, CorrectOp(RETIRING), CorrectClaim(u, RETIRING).0) && CorrectClaim(u, RETIRING).0 != u
  {
    hide Inv, CorrectClaim, CorrectionAccepted, ClaimsKeyed, Admissible, EdgesOk;
    KeyedWhenValid(u);
    PartsOfValid(u);
    CorrectionTables(u, RETIRING);
  }

  /** After some run a question that read before a correction is answered with an evaluation the
      correction has retired. */
  lemma StaleAnswer()
    ensures exists states, ops, c, i, q, e, ask :: IsStaleAnswer(states, ops, c, i, q, e, ask)
  {
    hide WithRecording, ReviewClaim, Inv, Evaluate, IsHistory, IsStep, CorrectClaim, CorrectionAccepted, Admissible,
      OPENED,
      RECORDED_LOG, ReviewRows, ClaimsKeyed, UsersOf;
    AskingHistory();
    var v := ReviewClaim(WithRecording(), FIRST_VERIFYING).0;
    var t := WithStatusRule(v);
    Asked(t);
    var u, e := Evaluate(t, QUESTION).0, Evaluate(t, QUESTION).1.value.evaluation.id;
    EvaluatedClaims(t, u);
    RetiringAdmissible(u);
    RetiringStep(u);
    var states, ops := [EMPTY, OPENED, WithRecording(), v, t], BEFORE_ASKING;
    LongerHistory(states, ops, EvaluateOp(QUESTION), u);
    LongerHistory(states + [u], ops + [EvaluateOp(QUESTION)], CorrectOp(RETIRING), CorrectClaim(u, RETIRING).0);
    hide IsBeforeAsking, WithStatusRule;
    StaleFrom(states + [u] + [CorrectClaim(u, RETIRING).0], ops + [EvaluateOp(QUESTION)] + [CorrectOp(RETIRING)], u, e);
  }

  /** Whoever read in the state before the correction concludes after it. */
  lemma StaleFrom(states: seq<Tables>, ops: seq<Op>, u: Tables, e: Id)
    requires IsHistory(states, ops) && |ops| == 6 && states[5] == u && states[6] != u && ops[5] == CorrectOp(RETIRING)
    requires AnswersNow(u, QUESTION, e) && e in UsersOf(u, "a") && u.facts.Keys == {"a"}
    requires u.claims == map["a" := ExternalClaim(RECORDING)]
    ensures exists states, ops, c, i, q, e, ask :: IsStaleAnswer(states, ops, c, i, q, e, ask)
  {
    hide Inv, Evaluate, Conclude, ClaimsKeyed, Uses, IsStep, InputOk, FreshResult;
    ReachableIsValid(states, ops, 5);
    AnswersAreRemembered(u, QUESTION, e);
    var op := ConcludeOp(ReadInputs(u, u, QUESTION), QUESTION);
    ReadsFit(states, ops, 5, 5, 6, QUESTION);
    ConclusionTaken(states, ops, u);
    var w := Conclude(states[6], ReadInputs(u, u, QUESTION), QUESTION).0;
    LongerHistory(states, ops, op, w);
    var states', ops' := states + [w], ops + [op];
    hide IsHistory, ReadInputs, AnswersNow;
    assert Concludes(states', ops', 5, 5, 6, QUESTION);
    EarlyReadsKeepTheirAnswer(states', ops', 5, 6, e, QUESTION);
    assert IsStaleAnswer(states', ops', 5, 6, RETIRING, e, QUESTION);
  }

  lemma ConclusionTaken(states: seq<Tables>, ops: seq<Op>, u: Tables)
    requires IsHistory(states, ops) && |ops| == 6 && QUESTION.version in u.versions
    requires InputsFit(states[6], ReadInputs(u, u, QUESTION), QUESTION)
    ensures IsStep(
      states[6], ConcludeOp(ReadInputs(u, u, QUESTION), QUESTION),
      Conclude(states[6], ReadInputs(u, u, QUESTION), QUESTION).0)
  {
    hide Conclude, ReadInputs, InputOk, Inv, ClaimsKeyed;
    ReachableIsValid(states, ops, 6);
    KeyedWhenValid(states[6]);
  }
}
