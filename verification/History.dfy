/** Runs of the evidence store: the promises that hold in every reachable state. */
module History {
  import opened Wrappers
  import opened Records
  import opened Rules
  import opened Evidence
  import opened Operations
  import opened Links
  import opened States
  import opened Evaluations

  /** A claim that was verified once and is not now. */
  ghost predicate Spent(t: Tables, c: Id) {
    c in t.claims && c in t.facts && CurrentState(t, c) != Verified
  }

  /** Nothing a later state may rely on is lost: claims, links, facts, rule versions, evaluations
      and their workflows, and the loss of verification itself. */
  ghost predicate Continues(t: Tables, u: Tables) {
    && Grows(t, u)
    && t.edges <= u.edges && t.contradictions <= u.contradictions
    && (forall id | id in t.evaluations :: id in u.evaluations && LoadWorkflow(u, id) == LoadWorkflow(t, id))
    && (forall c | Spent(t, c) :: Spent(u, c))
  }

  // ---- The append-only log ----

  /** Rows are only ever added: state changes at the end, everything else as sets and new keys. */
  ghost predicate Appends(t: Tables, u: Tables) {
    && t.changes <= u.changes && t.edges <= u.edges && t.contradictions <= u.contradictions && t.uses <= u.uses
    && t.cases <= u.cases && t.evidence <= u.evidence && t.log <= u.log
    && Submap(t.claims, u.claims) && Submap(t.facts, u.facts) && Submap(t.corrections, u.corrections)
    && Submap(t.versions, u.versions) && Submap(t.evaluations, u.evaluations) && Submap(t.obligations, u.obligations)
    && Submap(t.deadlines, u.deadlines) && Submap(t.tasks, u.tasks)
  }

  ghost predicate Submap<K, V>(m: map<K, V>, n: map<K, V>) { forall k | k in m :: k in n && n[k] == m[k] }

  lemma RecordAppends(t: Tables, q: ClaimRequest)
    requires ClaimsKeyed(t)
    ensures Appends(t, RecordClaim(t, q).0)
  {
    hide RecordClaim, OrderedPriors, ClaimsKeyed, WithClaim, Appends;
    RecordIsWithClaim(t, q);
    if RecordAccepted(t, q) {
      WithClaimAppends(t, q, OrderedPriors(t, ExternalClaim(q)));
    } else {
      AppendsItself(t);
    }
  }

  lemma WithClaimAppends(t: Tables, q: ClaimRequest, priors: seq<Claim>)
    requires q.claim !in t.claims
    ensures Appends(t, WithClaim(t, q, priors))
  {
    hide RelationEdges, ContradictionSet, ContradictedChanges, Conflicts, RecordRows, SupportEdge;
  }

  lemma ConcludeShape(t: Tables, inputs: set<RuleInput>, q: EvaluationRequest)
    requires q.version in t.versions && ClaimsDiffer(inputs)
    ensures Conclude(t, inputs, q).0 == t
      || exists m: Materialization :: (m.deadline.Some? ==> HasDates(m.deadline.value)) && !Clashes(t, m, q.audit)
           && Conclude(t, inputs, q).0 == WithRows(t, m, q.audit)
  {
    hide Materialize, LoadWorkflow, IsMemo, HasDates, WithRows, Clashes;
    if Fresh(t, inputs, q).Ok? {
      MaterializedDates(t.versions[q.version].definition, inputs, q);
      assert Conclude(t, inputs, q) == RecordEvaluation(t, Fresh(t, inputs, q).value, q.audit);
    }
  }

  lemma WithRowsAppends(t: Tables, m: Materialization, audit: Id)
    requires (m.deadline.Some? ==> HasDates(m.deadline.value)) && !Clashes(t, m, audit)
    ensures Appends(t, WithRows(t, m, audit))
  {
    hide UsesOf, RowOf, HasDates;
  }

  lemma ConcludeAppends(t: Tables, inputs: set<RuleInput>, q: EvaluationRequest)
    requires q.version in t.versions && ClaimsDiffer(inputs)
    ensures Appends(t, Conclude(t, inputs, q).0)
  {
    hide Conclude, WithRows, Clashes, Appends, HasDates;
    ConcludeShape(t, inputs, q);
    if Conclude(t, inputs, q).0 == t {
      AppendsItself(t);
    } else {
      var m: Materialization :| (m.deadline.Some? ==> HasDates(m.deadline.value)) && !Clashes(t, m, q.audit)
        && Conclude(t, inputs, q).0 == WithRows(t, m, q.audit);
      WithRowsAppends(t, m, q.audit);
    }
  }

  lemma EvaluateAppends(t: Tables, q: EvaluationRequest)
    requires ClaimsKeyed(t)
    ensures Appends(t, Evaluate(t, q).0)
  {
    hide Conclude, Appends, Grounded, ClaimsKeyed;
    AppendsItself(t);
    if q.version in t.versions {
      GroundedClaimsDiffer(t, q.caseId, t.versions[q.version].definition);
      ConcludeAppends(t, CurrentInputs(t, q), q);
    }
  }

  lemma AppendsItself(t: Tables)
    ensures Appends(t, t)
  {
  }

  lemma ReviewOnlyAppends(t: Tables, q: ReviewRequest)
    ensures Appends(t, ReviewClaim(t, q).0)
  {
    hide ReviewClaim, DecidedState, ReviewRows;
    ReviewIsWithReview(t, q);
  }

  lemma CorrectionOnlyAppends(t: Tables, q: CorrectionRequest)
    ensures Appends(t, CorrectClaim(t, q).0)
  {
    hide CorrectClaim, CorrectionRow, CorrectionRows, CorrectedClaim;
    CorrectionIsWithCorrected(t, q);
  }

  lemma CorrectionIsWithCorrected(t: Tables, q: CorrectionRequest)
    ensures if CorrectionAccepted(t, q)
      then q.original in t.claims && q.corrected !in t.claims && q.correction !in t.corrections
           && CorrectClaim(t, q).0 == WithCorrected(t, q)
      else CorrectClaim(t, q).0 == t
  {
    hide WithCorrected, CorrectionRow, CorrectionRows;
  }

  lemma CaseOnlyAppends(t: Tables, caseId: Id, audit: Id)
    ensures Appends(t, CreateCase(t, caseId, audit).0)
  {
    var u := CreateCase(t, caseId, audit).0;
    assert u == t.(cases := u.cases, log := u.log) && t.cases <= u.cases && t.log <= u.log;
    hide CreateCase;
  }

  lemma RuleOnlyAppends(t: Tables, v: RuleVersion, rule: Id, audit: Id)
    ensures Appends(t, RegisterRule(t, v, rule, audit).0)
  {
    var u := RegisterRule(t, v, rule, audit).0;
    assert u == t.(versions := u.versions, log := u.log) && t.log <= u.log && Submap(t.versions, u.versions);
    hide RegisterRule;
  }

  /** Every operation only appends, accepted or refused, whatever identifiers and times it is given. */
  lemma StepAppends(t: Tables, op: Op)
    requires ClaimsKeyed(t)
    ensures Appends(t, Step(t, op))
  {
    hide Appends, RecordClaim, ReviewClaim, CorrectClaim, Evaluate, CreateCase, RegisterRule, ClaimsKeyed;
    match op
    case Record(q) => RecordAppends(t, q);
    case EvaluateOp(q) => EvaluateAppends(t, q);
    case ConcludeOp(inputs, q) =>
      AppendsItself(t);
      if q.version in t.versions && ClaimsDiffer(inputs) { ConcludeAppends(t, inputs, q); }
    case Review(q) => ReviewOnlyAppends(t, q);
    case CorrectOp(q) => CorrectionOnlyAppends(t, q);
    case OpenCase(caseId, audit) => CaseOnlyAppends(t, caseId, audit);
    case Register(v, rule, audit) => RuleOnlyAppends(t, v, rule, audit);
  }

  // ---- Each operation ----

  /** What an operation that stores no evaluation leaves alone or only extends. */
  ghost predicate Extends(t: Tables, u: Tables) {
    Grows(t, u) && SameEvaluations(t, u) && t.edges <= u.edges && t.contradictions <= u.contradictions
  }

  lemma Assemble(t: Tables, u: Tables)
    requires EvaluationsOk(t) && Extends(t, u) && LinksOk(u) && FactsOk(u)
    requires forall c | Spent(t, c) :: Spent(u, c)
    ensures Inv(u) && Continues(t, u)
  {
    hide LinksOk, FactsOk, EvaluationsOk, Grows, LoadWorkflow, Spent;
    EvaluationsStay(t, u);
  }

  lemma RecordExtends(t: Tables, q: ClaimRequest)
    requires LinksOk(t) && Admissible(t, Record(q)) && RecordAccepted(t, q)
    ensures Extends(t, RecordClaim(t, q).0)
  {
    RecordFrame(t, q);
    hide RecordClaim, RecordAccepted, OrderedPriors, SupportOf, RelationEdges, ContradictionSet, Admissible, LinksOk;
    RecordKeepsSupports(t, q);
  }

  lemma RecordKeepsSupports(t: Tables, q: ClaimRequest)
    requires LinksOk(t) && Admissible(t, Record(q)) && RecordAccepted(t, q)
    ensures forall c | c in t.claims :: SupportOf(RecordClaim(t, q).0, c) == SupportOf(t, c)
    ensures t.edges <= RecordClaim(t, q).0.edges && t.contradictions <= RecordClaim(t, q).0.contradictions
  {
    assert ClaimsKeyed(t);
    hide RecordClaim, RecordAccepted, OrderedPriors, SupportOf, RelationEdges, ContradictionSet, Admissible, EdgesOk,
      SupportOk, ClaimsOk;
    RecordTables(t, q);
    RecordKeepsSupport(t, RecordClaim(t, q).0, q, OrderedPriors(t, ExternalClaim(q)));
  }

  lemma RecordSpends(t: Tables, q: ClaimRequest)
    requires LinksOk(t) && Admissible(t, Record(q)) && RecordAccepted(t, q)
    ensures forall c | Spent(t, c) :: Spent(RecordClaim(t, q).0, c)
  {
    RecordStates(t, q);
    assert RecordClaim(t, q).0.facts == t.facts;
    hide RecordClaim, CurrentState, LivePriors, LinksOk;
  }

  lemma RecordStep(t: Tables, q: ClaimRequest)
    requires Inv(t) && Admissible(t, Record(q)) && RecordAccepted(t, q)
    ensures Inv(RecordClaim(t, q).0) && Continues(t, RecordClaim(t, q).0)
  {
    assert ClaimsKeyed(t);
    hide RecordClaim, RecordAccepted, LinksOk, EvaluationsOk, Spent, Admissible, Extends, Continues, CurrentState;
    RecordKeepsLinks(t, q);
    RecordKeepsFacts(t, q);
    RecordExtends(t, q);
    RecordSpends(t, q);
    Assemble(t, RecordClaim(t, q).0);
  }

  ghost predicate SupportedAlike(t: Tables, u: Tables) { forall c :: SupportOf(u, c) == SupportOf(t, c) }

  /** A review appends one change, and leaves claims, links and evaluations alone. */
  lemma ReviewFrame(t: Tables, q: ReviewRequest)
    requires Admissible(t, Review(q)) && ReviewClaim(t, q).1.Ok?
    ensures var u := ReviewClaim(t, q).0;
      && q.claim in t.claims && q.decision != Correct
      && u.changes == t.changes + [StateChange(Generated(q.change), q.claim, DecidedState(q.decision), q.at)]
      && SameEvaluations(t, u) && u.edges == t.edges && u.contradictions == t.contradictions && u.versions == t.versions
      && u.cases == t.cases && u.evidence == t.evidence && SupportedAlike(t, u)
  {
    ReviewAppends(t, q);
    hide ReviewClaim, Admissible;
  }

  lemma ReviewAppends(t: Tables, q: ReviewRequest)
    requires Admissible(t, Review(q)) && ReviewClaim(t, q).1.Ok?
    ensures var u := ReviewClaim(t, q).0;
      && q.claim in t.claims && q.decision != Correct
      && u == t.(changes := t.changes + [StateChange(Generated(q.change), q.claim, DecidedState(q.decision), q.at)],
         facts := u.facts, log := u.log)
  {
    assert InsertChange(t.changes, StateChange(Generated(q.change), q.claim, DecidedState(q.decision), q.at))
      == t.changes + [StateChange(Generated(q.change), q.claim, DecidedState(q.decision), q.at)];
    hide InsertChange, Admissible, ReviewClaim, ReviewRows;
    ReviewIsWithReview(t, q);
  }

  lemma ReviewExtends(t: Tables, q: ReviewRequest)
    requires LinksOk(t) && FactsOk(t) && Admissible(t, Review(q)) && ReviewClaim(t, q).1.Ok?
    ensures Extends(t, ReviewClaim(t, q).0) && LinksOk(ReviewClaim(t, q).0)
    ensures forall c | Spent(t, c) :: Spent(ReviewClaim(t, q).0, c)
  {
    assert ClaimsOk(t) && ClaimsKeyed(t);
    hide LinksOk, FactsOk, CurrentState, ClaimsOk, SupportOf, ReviewClaim, Admissible, DecidedState;
    var u := ReviewClaim(t, q).0;
    var x := StateChange(Generated(q.change), q.claim, DecidedState(q.decision), q.at);
    ReviewFrame(t, q);
    assert u.changes == t.changes + [x] && x.claim in t.claims && x.id.Generated?;
    ReviewedRows(t, q);
    ReviewSpends(t, q);
    hide Spent;
    QuietOperationKeepsLinks(t, u);
  }

  lemma ReviewSpends(t: Tables, q: ReviewRequest)
    requires ClaimsOk(t) && ClaimsKeyed(t) && Admissible(t, Review(q)) && ReviewClaim(t, q).1.Ok?
    ensures forall c | Spent(t, c) :: Spent(ReviewClaim(t, q).0, c)
  {
    hide CurrentState, ClaimsOk, SupportOf, ReviewClaim, Admissible, DecidedState;
    ReviewStates(t, q);
    ReviewedRows(t, q);
  }

  lemma ReviewStep(t: Tables, q: ReviewRequest)
    requires Inv(t) && Admissible(t, Review(q)) && ReviewClaim(t, q).1.Ok?
    ensures Inv(ReviewClaim(t, q).0) && Continues(t, ReviewClaim(t, q).0)
  {
    assert ClaimsOk(t);
    hide ReviewClaim, LinksOk, FactsOk, EvaluationsOk, Spent, Admissible, Extends, Continues, ClaimsOk;
    ReviewKeepsFacts(t, q);
    ReviewExtends(t, q);
    Assemble(t, ReviewClaim(t, q).0);
  }

  lemma CorrectionExtends(t: Tables, q: CorrectionRequest)
    requires LinksOk(t) && Admissible(t, CorrectOp(q)) && CorrectionAccepted(t, q)
    ensures Extends(t, CorrectClaim(t, q).0)
  {
    hide CorrectClaim, CorrectionAccepted, SupportOf, Admissible, WithCorrected, ContradictionsOk, RelationsOk,
      SupportOk, ClaimsOk, ChangesOk;
    CorrectionFrame(t, q);
    CorrectionTables(t, q);
    CorrectionKeepsLinks(t, q);
  }

  lemma CorrectionFrame(t: Tables, q: CorrectionRequest)
    ensures var u := CorrectClaim(t, q).0; SameEvaluations(t, u) && u.versions == t.versions
  {
    hide CorrectClaim, CorrectedClaim, CorrectionRow, CorrectionRows, InsertChange, InsertEdge;
    CorrectionIsWithCorrected(t, q);
  }

  lemma CorrectionSpends(t: Tables, q: CorrectionRequest)
    requires LinksOk(t) && Admissible(t, CorrectOp(q)) && CorrectionAccepted(t, q)
    ensures forall c | Spent(t, c) :: Spent(CorrectClaim(t, q).0, c)
  {
    CorrectionStates(t, q);
    CorrectionTables(t, q);
    hide CorrectClaim, CurrentState, LinksOk;
  }

  lemma CorrectionStep(t: Tables, q: CorrectionRequest)
    requires Inv(t) && Admissible(t, CorrectOp(q)) && CorrectionAccepted(t, q)
    ensures Inv(CorrectClaim(t, q).0) && Continues(t, CorrectClaim(t, q).0)
  {
    hide CorrectClaim, CorrectionAccepted, LinksOk, EvaluationsOk, Spent, Admissible, Extends, Continues, CurrentState;
    CorrectionKeepsLinks(t, q);
    CorrectionKeepsFacts(t, q);
    CorrectionExtends(t, q);
    CorrectionSpends(t, q);
    Assemble(t, CorrectClaim(t, q).0);
  }

  /** Operations on cases and rule versions only. */
  lemma QuietStep(t: Tables, u: Tables)
    requires Inv(t) && t.cases <= u.cases && u.claims == t.claims && u.changes == t.changes && u.evidence == t.evidence
    requires u.edges == t.edges && u.contradictions == t.contradictions && u.facts == t.facts && SameEvaluations(t, u)
    requires forall v | v in t.versions :: v in u.versions && u.versions[v] == t.versions[v]
    ensures Inv(u) && Continues(t, u)
  {
    QuietOperationKeepsLinks(t, u);
    StatesAlike(t, u);
    assert SupportedAlike(t, u);
    hide LinksOk, EvaluationsOk, CurrentState, SupportOf, Continues;
    Assemble(t, u);
  }

  lemma StatesAlike(t: Tables, u: Tables)
    requires u.claims == t.claims && u.changes == t.changes
    ensures forall c | c in t.claims :: CurrentState(u, c) == CurrentState(t, c)
  {
  }

  lemma ConcludeStep(t: Tables, inputs: set<RuleInput>, q: EvaluationRequest)
    requires Inv(t) && InputsFit(t, inputs, q)
    ensures Inv(Conclude(t, inputs, q).0) && Continues(t, Conclude(t, inputs, q).0)
  {
    assert ClaimsKeyed(t);
    var u := Conclude(t, inputs, q).0;
    hide Conclude, EvaluationsOk, LoadWorkflow, LinksOk, InputOk;
    ConcludeKeepsEvaluations(t, inputs, q);
    EvaluatedAlike(t, u);
    hide CurrentState, SupportOf;
  }

  lemma EvaluateStep(t: Tables, q: EvaluationRequest)
    requires Inv(t)
    ensures Inv(Evaluate(t, q).0) && Continues(t, Evaluate(t, q).0)
  {
    assert ClaimsOk(t) && ClaimsKeyed(t);
    hide Inv, Continues, Conclude, CurrentInputs, ClaimsOk, ClaimsKeyed;
    if q.version in t.versions {
      PartsForEvaluating(t, q);
      hide Evaluate;
      ConcludeStep(t, CurrentInputs(t, q), q);
    } else {
      ContinuesReflexive(t);
    }
  }

  lemma PartsForEvaluating(t: Tables, q: EvaluationRequest)
    requires Inv(t) && q.version in t.versions
    ensures ClaimsKeyed(t) && InputsFit(t, CurrentInputs(t, q), q)
      && Evaluate(t, q) == Conclude(t, CurrentInputs(t, q), q)
    ensures FreshResult(t, q) == Fresh(t, CurrentInputs(t, q), q)
  {
    assert ClaimsOk(t) && ClaimsKeyed(t);
    hide LinksOk, FactsOk, EvaluationsOk, Evaluate, Conclude, CurrentInputs, FreshResult, Fresh, ClaimsOk;
    EvaluateIsConclude(t, q);
  }

  lemma EvaluatedAlike(t: Tables, u: Tables)
    requires LinksOk(t) && FactsOk(t) && EvaluatedRows(t, u)
    ensures LinksOk(u) && FactsOk(u) && Grows(t, u) && forall c | Spent(t, c) :: Spent(u, c)
  {
    QuietOperationKeepsLinks(t, u);
    StatesAlike(t, u);
    assert SupportedAlike(t, u);
    hide LinksOk, CurrentState, SupportOf;
  }

  lemma ContinuesReflexive(t: Tables)
    ensures Continues(t, t)
  {
  }

  ghost predicate StepGood(t: Tables, u: Tables) { Inv(u) && Continues(t, u) }

  lemma RefusedIsGood(t: Tables)
    requires Inv(t)
    ensures StepGood(t, t)
  {
    ContinuesReflexive(t);
  }

  /** A refused operation leaves no trace. */
  lemma RefusedUnchanged(t: Tables, op: Op)
    requires ClaimsKeyed(t)
    ensures op.Record? && RecordClaim(t, op.claim).1.Err? ==> RecordClaim(t, op.claim).0 == t
    ensures op.Review? && ReviewClaim(t, op.review).1.Err? ==> ReviewClaim(t, op.review).0 == t
    ensures op.CorrectOp? && CorrectClaim(t, op.correction).1.Err? ==> CorrectClaim(t, op.correction).0 == t
  {
  }

  lemma ClaimStep(t: Tables, op: Op)
    requires Inv(t) && Admissible(t, op) && (op.Record? || op.Review? || op.CorrectOp?)
    ensures StepGood(t, Step(t, op))
  {
    assert ClaimsKeyed(t);
    RefusedIsGood(t);
    RefusedUnchanged(t, op);
    hide Inv, Continues, Admissible, RecordClaim, ReviewClaim, CorrectClaim, ClaimsKeyed;
    match op
    case Record(q) => if RecordClaim(t, q).1.Ok? { RecordStep(t, q); }
    case Review(q) => if ReviewClaim(t, q).1.Ok? { ReviewStep(t, q); }
    case CorrectOp(q) => if CorrectClaim(t, q).1.Ok? { CorrectionStep(t, q); }
  }

  lemma CaseStep(t: Tables, caseId: Id, audit: Id)
    requires Inv(t)
    ensures StepGood(t, CreateCase(t, caseId, audit).0)
  {
    hide Inv, Continues;
    var u := CreateCase(t, caseId, audit).0;
    assert u == t || u == t.(cases := t.cases + {caseId}, log := u.log);
    hide CreateCase;
    assert t.cases <= u.cases;
    QuietStep(t, u);
  }

  lemma RuleStep(t: Tables, v: RuleVersion, rule: Id, audit: Id)
    requires Inv(t)
    ensures StepGood(t, RegisterRule(t, v, rule, audit).0)
  {
    hide Inv, Continues;
    var u := RegisterRule(t, v, rule, audit).0;
    assert u == t || (v.id !in t.versions && u == t.(versions := t.versions[v.id := v], log := u.log));
    hide RegisterRule;
    QuietStep(t, u);
  }

  lemma ConcludeOpStep(t: Tables, inputs: set<RuleInput>, q: EvaluationRequest)
    requires Inv(t) && Admissible(t, ConcludeOp(inputs, q))
    ensures InputsFit(t, inputs, q) && StepGood(t, Conclude(t, inputs, q).0)
  {
    hide Inv, Continues, Conclude;
    ConcludeStep(t, inputs, q);
  }

  lemma StepKeepsInv(t: Tables, op: Op)
    requires Inv(t) && Admissible(t, op)
    ensures Inv(Step(t, op)) && Continues(t, Step(t, op))
  {
    assert ClaimsKeyed(t);
    hide Inv, Continues, Admissible, Evaluate, Conclude, RecordClaim, ReviewClaim, CorrectClaim, CreateCase,
      RegisterRule,
      ClaimsKeyed;
    match op
    case OpenCase(caseId, audit) => CaseStep(t, caseId, audit);
    case Register(v, rule, audit) => RuleStep(t, v, rule, audit);
    case EvaluateOp(q) => EvaluateStep(t, q);
    case ConcludeOp(inputs, q) => ConcludeOpStep(t, inputs, q);
    case _ => ClaimStep(t, op);
  }

  // ---- Histories ----

  /** The states a run of operations from the empty store goes through, `states[i]` before `ops[i]`. */
  ghost predicate IsHistory(states: seq<Tables>, ops: seq<Op>) {
    && |states| == |ops| + 1 && states[0] == EMPTY
    && forall i {:trigger ops[i]} | 0 <= i < |ops| :: IsStep(states[i], ops[i], states[i + 1])
  }

  ghost predicate IsStep(t: Tables, op: Op, u: Tables) { ClaimsKeyed(t) && Admissible(t, op) && u == Step(t, op) }

  lemma EmptyIsValid()
    ensures Inv(EMPTY)
  {
  }

  /** The invariant holds in every reachable state. */
  lemma {:induction false} ReachableIsValid(states: seq<Tables>, ops: seq<Op>, i: nat)
    requires IsHistory(states, ops) && i < |states|
    ensures Inv(states[i])
  {
    hide Inv, Step, Admissible, ClaimsKeyed;
    if i == 0 {
      EmptyIsValid();
    } else {
      ReachableIsValid(states, ops, i - 1);
      assert IsStep(states[i - 1], ops[i - 1], states[i]);
      StepKeepsInv(states[i - 1], ops[i - 1]);
    }
  }

  lemma ContinuesTransitive(t: Tables, u: Tables, v: Tables)
    requires Continues(t, u) && Continues(u, v)
    ensures Continues(t, v)
  {
    hide SupportOf, LoadWorkflow, Spent;
  }

  lemma AppendsTransitive(t: Tables, u: Tables, v: Tables)
    requires Appends(t, u) && Appends(u, v)
    ensures Appends(t, v)
  {
  }

  /** In every history rows are only added, in every later state. */
  lemma {:induction false} LogOnlyGrows(states: seq<Tables>, ops: seq<Op>, i: nat, j: nat)
    requires IsHistory(states, ops) && i <= j < |states|
    ensures Appends(states[i], states[j])
    decreases j
  {
    if i == j {
      hide IsHistory;
    } else {
      hide Step, Admissible, ClaimsKeyed, Appends;
      LogOnlyGrows(states, ops, i, j - 1);
      assert IsStep(states[j - 1], ops[j - 1], states[j]);
      StepAppends(states[j - 1], ops[j - 1]);
      AppendsTransitive(states[i], states[j - 1], states[j]);
    }
  }

  /** No later state loses what an earlier one had. */
  lemma {:induction false} LaterContinues(states: seq<Tables>, ops: seq<Op>, i: nat, j: nat)
    requires IsHistory(states, ops) && i <= j < |states|
    ensures Inv(states[i]) && Inv(states[j]) && Continues(states[i], states[j])
    decreases j
  {
    hide Inv, Step, Admissible, ClaimsKeyed, Continues;
    ReachableIsValid(states, ops, i);
    ReachableIsValid(states, ops, j);
    if i == j {
      ContinuesReflexive(states[i]);
    } else {
      LaterContinues(states, ops, i, j - 1);
      assert IsStep(states[j - 1], ops[j - 1], states[j]);
      StepKeepsInv(states[j - 1], ops[j - 1]);
      ContinuesTransitive(states[i], states[j - 1], states[j]);
    }
  }
}
