/** What the evidence store promises about every run: contradictions, corrections, remembered
    evaluations, affected derivations, and workflows. */
module Promises {
  import opened Wrappers
  import opened Ordering
  import opened Values
  import opened Records
  import opened Rules
  import opened Evidence
  import opened Operations
  import opened Links
  import opened States
  import opened Evaluations
  import opened History

  // ---- Contradictions and corroborations ----

  /** How a pair of comparable claims stands in the tables. */
  ghost predicate Contradictory(t: Tables, a: Id, b: Id) {
    exists k :: k in t.contradictions && ((k.a == a && k.b == b) || (k.a == b && k.b == a))
  }

  ghost predicate Corroborating(t: Tables, from: Id, to: Id) {
    exists e :: e in t.edges && e.source == from && e.relation == Corroborates && e.target == to
  }

  lemma PriorIsListed(t: Tables, claim: Claim, p: Id)
    requires ClaimsKeyed(t) && p in t.claims && t.claims[p] in LivePriors(t, claim)
    ensures t.claims[p] in OrderedPriors(t, claim) && t.claims[p].id == p
  {
    hide LivePriors;
  }

  /** What recording a claim settles about one live prior. */
  lemma RecordSettles(t: Tables, q: ClaimRequest, p: Id)
    requires LinksOk(t) && Admissible(t, Record(q)) && RecordAccepted(t, q)
    requires p in t.claims && t.claims[p] in LivePriors(t, ExternalClaim(q)) && q.value.Known?
      && t.claims[p].value.Known?
    ensures var u := RecordClaim(t, q).0;
      if t.claims[p].value == q.value then Corroborating(u, q.claim, p) else Contradictory(u, q.claim, p)
  {
    assert ClaimsKeyed(t) && ClaimsOk(t) && EdgesOk(t);
    hide RecordClaim, RecordAccepted, RecordedRows, Admissible, LinksOk, ClaimsOk, EdgesOk, LivePriors, OrderedPriors;
    var u, claim := RecordClaim(t, q).0, ExternalClaim(q);
    PriorIsListed(t, claim, p);
    RecordTables(t, q);
    PriorRelated(t, u, q, OrderedPriors(t, claim), t.claims[p]);
  }

  lemma PriorRelated(t: Tables, u: Tables, q: ClaimRequest, priors: seq<Claim>, p: Claim)
    requires RecordedRows(t, u, q, priors) && p in priors && q.value.Known? && p.value.Known?
    ensures if p.value == q.value then Corroborating(u, q.claim, p.id) else Contradictory(u, q.claim, p.id)
  {
    hide RelationEdges, ContradictionSet;
    var claim := ExternalClaim(q);
    if p.value == q.value {
      NewEdges(t, u, q, priors);
      assert IsRelationEdge(claim, priors, ClaimEdge(claim.caseId, claim.id, Corroborates, p.id));
    } else {
      NewContradiction(t, u, q, priors, p);
    }
  }

  // ---- Which claims are related at all ----

  /** An earlier claim on the key of a new one, neither rejected nor superseded. */
  ghost predicate IsLivePrior(t: Tables, p: Id, q: ClaimRequest) {
    && p in t.claims && t.claims[p].caseId == q.caseId && t.claims[p].subject == q.subject
    && t.claims[p].attribute == q.attribute
    && CurrentState(t, p) != Rejected && CurrentState(t, p) != Superseded
  }

  lemma LiveMeansPrior(t: Tables, p: Id, q: ClaimRequest)
    requires ClaimsKeyed(t) && q.claim !in t.claims
    ensures IsLivePrior(t, p, q) <==> p in t.claims && t.claims[p] in LivePriors(t, ExternalClaim(q))
  {
    hide CurrentState;
  }

  /** An edge that relates two claims, in either direction. */
  ghost predicate Relates(e: Edge, a: Id, b: Id) {
    (e.relation == Corroborates || e.relation == Contradicts)
    && ((e.source == a && e.target == b) || (e.source == b && e.target == a))
  }

  /** Two claims stand in a contradiction, or are joined by an edge that says so or that corroborates. */
  ghost predicate Related(t: Tables, a: Id, b: Id) {
    Contradictory(t, a, b) || exists e :: e in t.edges && Relates(e, a, b)
  }

  /** Recording a claim `a` compares it with the claim `b`. */
  ghost predicate Compares(t: Tables, q: ClaimRequest, a: Id, b: Id) {
    a == q.claim && q.value.Known? && IsLivePrior(t, b, q) && t.claims[b].value.Known?
  }

  ghost predicate ComparesPrior(q: ClaimRequest, priors: seq<Claim>, a: Id, b: Id) {
    a == q.claim && q.value.Known? && exists p :: p in priors && p.id == b && p.value.Known?
  }

  lemma ComparedAreRelated(t: Tables, u: Tables, q: ClaimRequest, priors: seq<Claim>, a: Id, b: Id)
    requires RecordedRows(t, u, q, priors) && ComparesPrior(q, priors, a, b)
    ensures Related(u, a, b) && Related(u, b, a)
  {
    hide RecordedRows;
    var claim := ExternalClaim(q);
    var p :| p in priors && p.id == b && p.value.Known?;
    var e := ClaimEdge(claim.caseId, claim.id, if p.value == q.value then Corroborates else Contradicts, p.id);
    NewEdges(t, u, q, priors);
    assert IsRelationEdge(claim, priors, e);
    assert e in u.edges && Relates(e, a, b) && Relates(e, b, a);
    hide IsRelationEdge;
  }

  lemma NewEdgeCompares(q: ClaimRequest, priors: seq<Claim>, e: Edge, a: Id, b: Id)
    requires IsRelationEdge(ExternalClaim(q), priors, e) && Relates(e, a, b)
    ensures ComparesPrior(q, priors, a, b) || ComparesPrior(q, priors, b, a)
  {
  }

  lemma NewRowCompares(q: ClaimRequest, priors: seq<Claim>, k: Contradiction, a: Id, b: Id)
    requires k in ContradictionSet(ExternalClaim(q), priors, q.at) && forall p :: p in priors ==> p.id != q.claim
    requires (k.a == a && k.b == b) || (k.a == b && k.b == a)
    ensures ComparesPrior(q, priors, a, b) || ComparesPrior(q, priors, b, a)
  {
    ContradictionSetMembers(ExternalClaim(q), priors, q.at);
    hide ContradictionSet, ContradictionRow;
    var p :| p in priors && Conflicting(ExternalClaim(q), p) && k == ContradictionRow(ExternalClaim(q), p, q.at);
    RowOfPair(ExternalClaim(q), p, q.at);
  }

  lemma RecordedRelations(t: Tables, u: Tables, q: ClaimRequest, priors: seq<Claim>, a: Id, b: Id)
    requires RecordedRows(t, u, q, priors)
    ensures Related(u, a, b) <==>
      Related(t, a, b) || ComparesPrior(q, priors, a, b) || ComparesPrior(q, priors, b, a)
  {
    NewEdges(t, u, q, priors);
    assert u.contradictions == t.contradictions + ContradictionSet(ExternalClaim(q), priors, q.at);
    assert forall p :: p in priors ==> p.id != q.claim;
    hide RelationEdges, ContradictionSet, IsRelationEdge, RecordedRows, ComparesPrior, Comparable;
    if ComparesPrior(q, priors, a, b) { ComparedAreRelated(t, u, q, priors, a, b); }
    if ComparesPrior(q, priors, b, a) { ComparedAreRelated(t, u, q, priors, b, a); }
    if Related(u, a, b) {
      if Contradictory(u, a, b) {
        var k :| k in u.contradictions && ((k.a == a && k.b == b) || (k.a == b && k.b == a));
        if k !in t.contradictions { NewRowCompares(q, priors, k, a, b); }
      } else {
        var e :| e in u.edges && Relates(e, a, b);
        if e !in t.edges { NewEdgeCompares(q, priors, e, a, b); }
      }
    }
  }

  lemma ListedComparisons(t: Tables, q: ClaimRequest, a: Id, b: Id)
    requires ClaimsKeyed(t) && q.claim !in t.claims
    ensures ComparesPrior(q, OrderedPriors(t, ExternalClaim(q)), a, b) <==> Compares(t, q, a, b)
  {
    LiveMeansPrior(t, b, q);
    hide IsLivePrior;
    var priors := OrderedPriors(t, ExternalClaim(q));
    assert forall p :: p in priors <==> p in LivePriors(t, ExternalClaim(q));
    assert forall p :: p in LivePriors(t, ExternalClaim(q)) ==> p.id in t.claims && t.claims[p.id] == p;
    hide OrderedPriors, LivePriors;
  }

  /** Recording a claim relates it to exactly the priors it is compared with, and relates no other pair. */
  lemma RecordRelates(t: Tables, q: ClaimRequest, a: Id, b: Id)
    requires LinksOk(t) && Admissible(t, Record(q)) && RecordAccepted(t, q)
    ensures Related(RecordClaim(t, q).0, a, b) <==> Related(t, a, b) || Compares(t, q, a, b) || Compares(t, q, b, a)
  {
    assert ClaimsKeyed(t) && ClaimsOk(t) && EdgesOk(t);
    hide RecordClaim, RecordAccepted, OrderedPriors, RecordedRows, LinksOk, ClaimsOk, EdgesOk, Admissible, Related,
      Compares, ComparesPrior;
    RecordTables(t, q);
    RecordFrame(t, q);
    hide ClaimsKeyed;
    RecordedRelations(t, RecordClaim(t, q).0, q, OrderedPriors(t, ExternalClaim(q)), a, b);
    ListedComparisons(t, q, a, b);
    ListedComparisons(t, q, b, a);
  }

  lemma SameLinksRelate(t: Tables, u: Tables, a: Id, b: Id)
    requires u.contradictions == t.contradictions
    requires forall e: Edge ::
      e.relation == Corroborates || e.relation == Contradicts ==> (e in u.edges <==> e in t.edges)
    ensures Related(u, a, b) <==> Related(t, a, b)
  {
  }

  /** A correction relates no pair of claims. */
  lemma CorrectionRelates(t: Tables, q: CorrectionRequest, a: Id, b: Id)
    requires EdgesOk(t) && Admissible(t, CorrectOp(q)) && CorrectionAccepted(t, q)
    ensures Related(CorrectClaim(t, q).0, a, b) <==> Related(t, a, b)
  {
    hide CorrectClaim, CorrectionAccepted, Related, EdgesOk, Admissible;
    CorrectionTables(t, q);
    SameLinksRelate(t, CorrectClaim(t, q).0, a, b);
  }

  /** The accepted recording that compares two claims, in either role. */
  ghost predicate ComparedBy(t: Tables, op: Op, a: Id, b: Id) {
    op.Record? && ClaimsKeyed(t) && RecordAccepted(t, op.claim)
    && (Compares(t, op.claim, a, b) || Compares(t, op.claim, b, a))
  }

  /** Comparable claims are never both corroborated and contradictory: the values decide. */
  lemma NeverBoth(t: Tables, a: Id, b: Id)
    requires LinksOk(t) && a in t.claims && b in t.claims
    ensures Corroborating(t, a, b) ==> t.claims[a].value == t.claims[b].value
    ensures Contradictory(t, a, b) ==> t.claims[a].value != t.claims[b].value
  {
  }

  lemma SettledStays(t: Tables, u: Tables, a: Id, b: Id)
    requires t.edges <= u.edges && t.contradictions <= u.contradictions
    ensures Corroborating(t, a, b) ==> Corroborating(u, a, b)
    ensures Contradictory(t, a, b) ==> Contradictory(u, a, b)
  {
  }

  /** The lists an accepted recording returns: its contradictions and the claims it corroborates,
      each in the order the priors were created. */
  lemma RecordReturns(t: Tables, q: ClaimRequest)
    requires ClaimsOk(t) && RecordAccepted(t, q)
    ensures var r := RecordClaim(t, q).1.value; var claim := ExternalClaim(q);
      && r.claim == claim
      && (forall k :: k in r.contradictions <==>
           exists p :: p in LivePriors(t, claim) && Conflicting(claim, p) && k == ContradictionRow(claim, p, q.at))
      && (forall id :: id in r.corroborates <==> exists p ::
         p in LivePriors(t, claim) && Agreeing(claim, p) && p.id == id)
    ensures var r := RecordClaim(t, q).1.value; var claim := ExternalClaim(q);
      var conflicts, agreements := Conflicts(claim, OrderedPriors(t, claim)),
        Agreements(claim, OrderedPriors(t, claim));
      && Sorted(conflicts, ClaimLess) && Sorted(agreements, ClaimLess)
      && |r.contradictions| == |conflicts| && |r.corroborates| == |agreements|
      && (forall i :: 0 <= i < |conflicts| ==> r.contradictions[i] == ContradictionRow(claim, conflicts[i], q.at))
      && forall i :: 0 <= i < |agreements| ==> r.corroborates[i] == agreements[i].id
  {
    var claim, r := ExternalClaim(q), RecordClaim(t, q).1.value;
    var priors := OrderedPriors(t, claim);
    ConflictsInOrder(claim, priors);
    ConflictsMembers(claim, priors);
    RowsOfMembers(claim, Conflicts(claim, priors), q.at);
    IdsOfMembers(Agreements(claim, priors));
    assert r == ClaimResult(claim, ContradictionRows(claim, Conflicts(claim, priors), q.at),
      Ids(Agreements(claim, priors)));
    RowsInOrder(claim, Conflicts(claim, priors), q.at);
    IdsInOrder(Agreements(claim, priors));
    hide RecordClaim, OrderedPriors, LivePriors, Conflicts, Agreements, ClaimsOk, ContradictionRows, Ids,
      ContradictionRow, Conflicting, Agreeing;
  }

  lemma RowsInOrder(claim: Claim, conflicts: seq<Claim>, at: int)
    ensures var rows := ContradictionRows(claim, conflicts, at);
      |rows| == |conflicts| && forall i :: 0 <= i < |conflicts| ==> rows[i] == ContradictionRow(claim, conflicts[i], at)
  {
  }

  lemma IdsInOrder(claims: seq<Claim>)
    ensures |Ids(claims)| == |claims| && forall i :: 0 <= i < |claims| ==> Ids(claims)[i] == claims[i].id
  {
  }

  lemma RowsOfMembers(claim: Claim, conflicts: seq<Claim>, at: int)
    ensures forall k :: k in ContradictionRows(claim, conflicts, at) <==> exists p ::
      p in conflicts && k == ContradictionRow(claim, p, at)
  {
    var rows := ContradictionRows(claim, conflicts, at);
    forall p | p in conflicts
      ensures ContradictionRow(claim, p, at) in rows
    {
      var i :| 0 <= i < |conflicts| && conflicts[i] == p;
      assert rows[i] == ContradictionRow(claim, p, at);
    }
  }

  lemma IdsOfMembers(claims: seq<Claim>)
    ensures forall id :: id in Ids(claims) <==> exists p :: p in claims && p.id == id
  {
    forall p | p in claims
      ensures p.id in Ids(claims)
    {
      var i :| 0 <= i < |claims| && claims[i] == p;
      assert Ids(claims)[i] == p.id;
    }
  }

  lemma LastInOrder(kept: seq<Claim>, last: Claim)
    requires Sorted(kept, ClaimLess) && forall p | p in kept :: ClaimLess(p, last)
    ensures Sorted(kept + [last], ClaimLess)
  {
    hide ClaimLess;
  }

  lemma {:induction false} ConflictsInOrder(claim: Claim, priors: seq<Claim>)
    requires Sorted(priors, ClaimLess)
    ensures Sorted(Conflicts(claim, priors), ClaimLess) && Sorted(Agreements(claim, priors), ClaimLess)
  {
    hide ClaimLess;
    if priors != [] {
      var init, last := priors[..|priors| - 1], priors[|priors| - 1];
      ConflictsInOrder(claim, init);
      ConflictsMembers(claim, init);
      forall p | p in init
        ensures ClaimLess(p, last)
      {
        var j :| 0 <= j < |init| && init[j] == p;
        assert priors[j] == p;
      }
      hide Sorted;
      LastInOrder(Conflicts(claim, init), last);
      LastInOrder(Agreements(claim, init), last);
    }
  }

  // ---- Verification happens once ----

  /** No row a review inserts has the identifier of one already there. */
  ghost predicate ReviewNamesUnused(t: Tables, q: ReviewRequest) {
    ReviewRows(q) !! t.log && (q.decision == Verify ==> forall f | f in t.facts :: t.facts[f].id != q.fact)
  }

  /** A review can verify a claim exactly when the claim has left no fact yet. */
  lemma VerifiableExactly(t: Tables, q: ReviewRequest)
    requires q.decision == Verify && q.claim in t.claims && Admissible(t, Review(q))
    ensures ReviewClaim(t, q).1.Ok? <==> q.claim !in t.facts && ReviewNamesUnused(t, q)
    ensures ReviewClaim(t, q).1.Ok? ==> CurrentState(ReviewClaim(t, q).0, q.claim) == Verified
  {
    if ReviewClaim(t, q).1.Ok? { ReviewStates(t, q); }
  }

  // ---- Corrections retire evaluations ----

  /** A stored evaluation of a question's current inputs. */
  ghost predicate Remembers(t: Tables, q: EvaluationRequest, e: Id)
    requires ClaimsKeyed(t) && q.version in t.versions
  {
    GroundedClaimsDiffer(t, q.caseId, t.versions[q.version].definition);
    IsMemo(t, e, q.caseId, q.version, Recorded(CurrentInputs(t, q)))
  }

  /** A stored evaluation of the inputs is what is concluded from them. */
  lemma ConclusionRemembered(t: Tables, inputs: set<RuleInput>, q: EvaluationRequest, e: Id)
    requires EvaluationsOk(t) && q.version in t.versions && ClaimsDiffer(inputs) && Fresh(t, inputs, q).Ok?
    requires IsMemo(t, e, q.caseId, q.version, Recorded(inputs))
    ensures Conclude(t, inputs, q) == (t, LoadWorkflow(t, e))
  {
    ConcludeBranches(t, inputs, q);
    hide Conclude, RowsOk, StoredOk, UsesOk, Materialize, Recorded, LoadWorkflow, Fresh;
    assert HasMemo(t, inputs, q);
    var f :| IsMemo(t, f, q.caseId, q.version, Recorded(inputs)) && Conclude(t, inputs, q) == (t, LoadWorkflow(t, f));
    assert SameQuestion(t.evaluations[e], t.evaluations[f]);
  }

  /** A remembered evaluation is the answer. */
  lemma RememberedAnswers(t: Tables, q: EvaluationRequest, e: Id)
    requires Inv(t) && q.version in t.versions && Remembers(t, q, e) && FreshResult(t, q).Ok?
    ensures Evaluate(t, q) == (t, LoadWorkflow(t, e))
  {
    PartsForEvaluating(t, q);
    hide LinksOk, FactsOk, EvaluationsOk, Evaluate, Conclude, FreshResult, Fresh, CurrentInputs, InputOk, LoadWorkflow;
    ConclusionRemembered(t, CurrentInputs(t, q), q, e);
  }

  /** What is concluded is stored, with exactly the given inputs, and is returned unchanged when it was
      stored before. */
  lemma ConclusionsUseInputs(t: Tables, inputs: set<RuleInput>, q: EvaluationRequest)
    requires EvaluationsOk(t) && InputsFit(t, inputs, q) && Conclude(t, inputs, q).1.Ok?
    ensures var (u, r) := Conclude(t, inputs, q);
      && r.value.evaluation.id in u.evaluations && u.evaluations[r.value.evaluation.id] == r.value.evaluation
      && r.value.evaluation.inputs == Recorded(inputs)
      && (r.value.evaluation.id in t.evaluations ==>
         u == t && t.evaluations[r.value.evaluation.id] == r.value.evaluation)
      && (r.value.evaluation.id !in t.evaluations ==> r.value.evaluation.id == q.evaluation)
      && LoadWorkflow(u, r.value.evaluation.id) == r
      && r.value.evaluation.caseId == q.caseId && r.value.evaluation.version == q.version
  {
    ConcludeBranches(t, inputs, q);
    if HasMemo(t, inputs, q) {
      LoadedIsStored(t, Conclude(t, inputs, q).1);
    } else {
      MaterializedParts(t.versions[q.version].definition, inputs, q);
      StoringKeepsEvaluations(t, inputs, q);
    }
    hide Conclude, Fresh, Materialize, EvaluationsOk, InputOk;
  }

  /** An evaluation answers with an identifier only when its inputs are the current ones. */
  lemma AnswersUseCurrentInputs(t: Tables, q: EvaluationRequest)
    requires Inv(t) && Evaluate(t, q).1.Ok?
    ensures q.version in t.versions && ClaimsDiffer(CurrentInputs(t, q))
    ensures var (u, r) := Evaluate(t, q);
      && r.value.evaluation.id in u.evaluations && u.evaluations[r.value.evaluation.id] == r.value.evaluation
      && r.value.evaluation.inputs == Recorded(CurrentInputs(t, q))
      && (r.value.evaluation.id in t.evaluations ==>
         u == t && t.evaluations[r.value.evaluation.id] == r.value.evaluation)
      && (r.value.evaluation.id !in t.evaluations ==> r.value.evaluation.id == q.evaluation)
      && LoadWorkflow(u, r.value.evaluation.id) == r
      && r.value.evaluation.caseId == q.caseId && r.value.evaluation.version == q.version
  {
    assert q.version in t.versions;
    hide LinksOk, FactsOk, EvaluationsOk, Evaluate, Conclude, FreshResult, Fresh, CurrentInputs, InputOk, LoadWorkflow;
    PartsForEvaluating(t, q);
    ConclusionsUseInputs(t, CurrentInputs(t, q), q);
  }

  lemma LoadedIsStored(t: Tables, r: Result<Materialization>)
    requires EvaluationsOk(t)
    ensures forall e | e in t.evaluations && r.Ok? && LoadWorkflow(t, e) == r ::
      r.value.evaluation == t.evaluations[e] && r.value.evaluation.id == e
  {
  }

  ghost predicate Uses(e: Evaluation, claim: Id) { exists i :: i in e.inputs && i.claim == claim }

  lemma CorrectionSpendsOriginal(t: Tables, q: CorrectionRequest)
    requires LinksOk(t) && Admissible(t, CorrectOp(q)) && CorrectionAccepted(t, q) && q.original in t.facts
    ensures Spent(CorrectClaim(t, q).0, q.original)
  {
    CorrectionStates(t, q);
    CorrectionTables(t, q);
  }

  /** An evaluation that uses a spent claim is no answer to any question. */
  lemma SpentInputsAnswerNothing(t: Tables, q: EvaluationRequest, e: Id, c: Id)
    requires Inv(t) && e in t.evaluations && Uses(t.evaluations[e], c) && Spent(t, c)
    ensures Evaluate(t, q).1.Ok? ==> Evaluate(t, q).1.value.evaluation.id != e
  {
    if Evaluate(t, q).1.Ok? {
      AnswersUseCurrentInputs(t, q);
      CurrentInputsOk(t, q);
    }
    hide Evaluate, CurrentInputs, LinksOk, FactsOk, EvaluationsOk, CurrentState, LoadWorkflow;
  }

  lemma EvaluationsKept(t: Tables, u: Tables, e: Id)
    requires Continues(t, u) && EvaluationsOk(t) && EvaluationsOk(u) && e in t.evaluations
    ensures e in u.evaluations && u.evaluations[e] == t.evaluations[e]
  {
    var q :| Reproduces(t, e, q);
    LoadedIsStored(t, LoadWorkflow(t, e));
    LoadedIsStored(u, LoadWorkflow(u, e));
  }

  /** An external claim that fed an evaluation has left a fact. */
  lemma ExternalInputHasFact(t: Tables, e: Id, c: Id)
    requires StoredOk(t) && e in t.evaluations && Uses(t.evaluations[e], c)
    ensures c in t.claims && (t.claims[c].origin == External ==> c in t.facts)
  {
    var i :| i in t.evaluations[e].inputs && i.claim == c;
    assert InputsOk(t, t.evaluations[e]) && InputOk(t, t.evaluations[e].caseId, i);
    hide SupportOf, Reproducible;
  }

  /** A spent claim and the evaluations that used it, in a later state. */
  lemma RetiredStaysRetired(s: Tables, u: Tables, ask: EvaluationRequest, e: Id, c: Id)
    requires Inv(s) && Inv(u) && Continues(s, u) && Spent(s, c)
    requires e in s.evaluations && Uses(s.evaluations[e], c)
    ensures Evaluate(u, ask).1.Ok? ==> Evaluate(u, ask).1.value.evaluation.id != e
  {
    hide LinksOk, FactsOk, StoredOk, RowsOk, LoadWorkflow, Evaluate, Uses, Grows, Reproducible;
    EvaluationsKept(s, u, e);
    assert Spent(u, c);
    SpentInputsAnswerNothing(u, ask, e, c);
  }

  // ---- When a correction can be undone ----

  /** A correction, the rejection of the corrected claim, and the verification of the original. */
  ghost predicate Undoing(q: CorrectionRequest, reject: ReviewRequest, verify: ReviewRequest) {
    && reject.claim == q.corrected && reject.decision == Reject
    && verify.claim == q.original && verify.decision == Verify
  }

  /** After an undoing the claims have the states they had, and the corrected claim is rejected. */
  lemma UndoneStates(t: Tables, s: Tables, q: CorrectionRequest, reject: ReviewRequest, verify: ReviewRequest)
    requires CorrectedStates(t, s, q) && Undoing(q, reject, verify) && Admissible(s, Review(reject))
    requires Admissible(ReviewClaim(s, reject).0, Review(verify))
    requires CurrentState(t, q.original) == Verified && q.original !in t.facts
    requires ReviewNamesUnused(s, reject) && ReviewNamesUnused(ReviewClaim(s, reject).0, verify)
    ensures var u := ReviewClaim(ReviewClaim(s, reject).0, verify).0;
      && u.claims == s.claims && u.versions == t.versions && SameEvaluations(t, u)
         && CurrentState(u, q.corrected) == Rejected
      && forall c | c in t.claims :: CurrentState(u, c) == CurrentState(t, c) && SupportOf(u, c) == SupportOf(t, c)
  {
    hide CurrentState, Admissible, SupportOf, ReviewClaim;
    ReviewedOnly(s, reject);
    ReviewedOnly(ReviewClaim(s, reject).0, verify);
  }

  /** What a correction does to claims and their states. */
  ghost predicate CorrectedStates(t: Tables, s: Tables, q: CorrectionRequest) {
    && q.original in t.claims && q.corrected !in t.claims && q.corrected in s.claims
    && s.claims == t.claims[q.corrected := s.claims[q.corrected]]
    && s.facts == t.facts && s.versions == t.versions && SameEvaluations(t, s)
    && forall c | c in t.claims ::
       (c != q.original ==> CurrentState(s, c) == CurrentState(t, c)) && SupportOf(s, c) == SupportOf(t, c)
  }

  lemma CorrectionGivesStates(t: Tables, q: CorrectionRequest)
    requires LinksOk(t) && Admissible(t, CorrectOp(q)) && CorrectionAccepted(t, q)
    ensures CorrectedStates(t, Step(t, CorrectOp(q)), q)
  {
    CorrectionTables(t, q);
    CorrectionKeepsLinks(t, q);
    CorrectionStates(t, q);
    var s := CorrectClaim(t, q).0;
    assert s.versions == t.versions && SameEvaluations(t, s) && s == Step(t, CorrectOp(q));
    hide CorrectClaim, CorrectionAccepted, LinksOk, CurrentState, Admissible, SupportOf, Step;
  }

  /** What a review leaves alone, and which it decides. */
  lemma ReviewedOnly(t: Tables, q: ReviewRequest)
    requires Admissible(t, Review(q)) && q.claim in t.claims && q.decision != Correct
    requires ReviewNamesUnused(t, q) && (q.decision == Verify ==> q.claim !in t.facts)
    ensures var u := ReviewClaim(t, q).0;
      && u.claims == t.claims && u.versions == t.versions && SameEvaluations(t, u)
      && (q.decision != Verify ==> u.facts == t.facts)
      && CurrentState(u, q.claim) == DecidedState(q.decision)
      && (forall c | c in t.claims && c != q.claim :: CurrentState(u, c) == CurrentState(t, c))
      && forall c :: SupportOf(u, c) == SupportOf(t, c)
  {
    assert ReviewClaim(t, q).1.Ok?;
    ReviewStates(t, q);
    assert SupportedAlike(t, ReviewClaim(t, q).0);
    hide SupportOf, CurrentState, Admissible;
  }

  /** A claim that is not verified is as good as absent. */
  lemma InputsAfterUndoing(t: Tables, u: Tables, ask: EvaluationRequest, c: Id)
    requires ask.version in t.versions && u.versions == t.versions && c !in t.claims
    requires c in u.claims && u.claims == t.claims[c := u.claims[c]] && CurrentState(u, c) != Verified
    requires forall p | p in t.claims :: CurrentState(u, p) == CurrentState(t, p) && SupportOf(u, p) == SupportOf(t, p)
    ensures CurrentInputs(u, ask) == CurrentInputs(t, ask)
  {
    assert forall p | p in t.claims :: Grounding(u, p) == Grounding(t, p) && p in u.claims;
    hide CurrentState, SupportOf, EvidenceOf, Relevant;
    var def := t.versions[ask.version].definition;
    assert forall g :: g in Grounded(t, ask.caseId) ==> g in Grounded(u, ask.caseId);
    forall g | g in Grounded(u, ask.caseId) && g.state == Verified
      ensures g in Grounded(t, ask.caseId)
    {
    }
  }

  lemma RememberedAlike(t: Tables, u: Tables, ask: EvaluationRequest, e: Id)
    requires Inv(t) && Inv(u) && ask.version in t.versions && u.versions == t.versions && SameEvaluations(t, u)
    requires CurrentInputs(u, ask) == CurrentInputs(t, ask) && FreshResult(t, ask).Ok? && Remembers(t, ask, e)
    ensures Evaluate(u, ask) == (u, Evaluate(t, ask).1)
  {
    assert e in t.evaluations;
    WorkflowIsRows(t, u, e);
    hide Evaluate, Inv, CurrentInputs, Materialize, LoadWorkflow, Recorded;
    RememberedAnswers(t, ask, e);
    RememberedAnswers(u, ask, e);
  }

  /** Undoing a correction of a claim without a fact brings remembered answers back. */
  lemma UndoneAnswers(
    t: Tables, s: Tables, u: Tables, q: CorrectionRequest, reject: ReviewRequest, verify: ReviewRequest,
      ask: EvaluationRequest, e: Id)
    requires Inv(t) && Inv(u) && CorrectedStates(t, s, q) && Undoing(q, reject, verify)
    requires ReviewNamesUnused(s, reject) && ReviewNamesUnused(ReviewClaim(s, reject).0, verify)
    requires Admissible(s, Review(reject)) && Admissible(ReviewClaim(s, reject).0, Review(verify))
    requires u == ReviewClaim(ReviewClaim(s, reject).0, verify).0
    requires ask.version in t.versions && FreshResult(t, ask).Ok? && Remembers(t, ask, e)
    requires q.original !in t.facts && CurrentState(t, q.original) == Verified
    ensures Evaluate(u, ask) == (u, Evaluate(t, ask).1)
  {
    hide Admissible, Inv, Evaluate, Remembers, FreshResult, CurrentState, SupportOf, ReviewClaim;
    UndoneStates(t, s, q, reject, verify);
    InputsAfterUndoing(t, u, ask, q.corrected);
    RememberedAlike(t, u, ask, e);
  }

  /** The answer from memory is the remembered evaluation, whose inputs are verified now. */
  lemma MemoIsAnswer(t: Tables, ask: EvaluationRequest, e: Id)
    requires Inv(t) && ask.version in t.versions && Remembers(t, ask, e)
    ensures LoadWorkflow(t, e).Ok? && LoadWorkflow(t, e).value.evaluation.id == e
    ensures forall c :: Uses(t.evaluations[e], c) ==> c in t.claims && CurrentState(t, c) == Verified
  {
    CurrentInputsOk(t, ask);
    LoadedIsStored(t, LoadWorkflow(t, e));
    assert Reproducible(t, e);
    hide LoadWorkflow, CurrentState, InputOk, CurrentInputs, LinksOk, FactsOk, RowsOk;
  }

  // ---- The memo ----

  /** A materialisation without identifiers, times and correlation. */
  function Anonymous(m: Materialization): Materialization {
    Materialization(
      m.evaluation.(id := "", at := 0, correlation := ""),
      if m.obligation.None? then None else Some(m.obligation.value.(id := "", evaluation := "", at := 0)),
      if m.deadline.None? then None else Some(m.deadline.value.(id := "", obligation := "", at := 0)),
      if m.work.None? then None else Some(m.work.value.(id := "", obligation := "", at := 0)))
  }

  lemma OnlyNamesDiffer(def: Definition, inputs: set<RuleInput>, q: EvaluationRequest, r: EvaluationRequest)
    requires ClaimsDiffer(inputs) && q.caseId == r.caseId && q.version == r.version && Materialize(def, inputs, q).Ok?
    ensures Materialize(def, inputs, r).Ok?
    ensures Anonymous(Materialize(def, inputs, q).value) == Anonymous(Materialize(def, inputs, r).value)
  {
    hide Judge, DueDate, Recorded;
  }

  /** Whatever is concluded, from memory or not, is what a fresh judgement of the same inputs says, up
      to names and times. */
  lemma ConclusionIsFresh(t: Tables, inputs: set<RuleInput>, q: EvaluationRequest)
    requires EvaluationsOk(t) && InputsFit(t, inputs, q) && Conclude(t, inputs, q).1.Ok?
    ensures Fresh(t, inputs, q).Ok?
    ensures Anonymous(Conclude(t, inputs, q).1.value) == Anonymous(Fresh(t, inputs, q).value)
  {
    hide EvaluationsOk, InputOk, LoadWorkflow, Recorded, Anonymous;
    ConcludeBranches(t, inputs, q);
    hide Conclude;
    if Fresh(t, inputs, q).Ok? && HasMemo(t, inputs, q) {
      hide Fresh;
      var e :| IsMemo(t, e, q.caseId, q.version, Recorded(inputs)) && Conclude(t, inputs, q) == (t, LoadWorkflow(t, e));
      MemoIsFresh(t, inputs, q, e);
    }
  }

  lemma MemoIsFresh(t: Tables, inputs: set<RuleInput>, q: EvaluationRequest, e: Id)
    requires EvaluationsOk(t) && q.version in t.versions && ClaimsDiffer(inputs) && Fresh(t, inputs, q).Ok?
    requires IsMemo(t, e, q.caseId, q.version, Recorded(inputs))
    ensures LoadWorkflow(t, e).Ok? && Anonymous(LoadWorkflow(t, e).value) == Anonymous(Fresh(t, inputs, q).value)
  {
    assert StoredOk(t);
    hide EvaluationsOk, InputsOk, RowsOk;
    assert Reproducible(t, e);
    var r :| Reproduces(t, e, r);
    assert Members(t.evaluations[e].inputs) == inputs;
    hide Materialize, LoadWorkflow, Recorded, Anonymous, StoredOk;
    OnlyNamesDiffer(t.versions[q.version].definition, inputs, q, r);
  }

  /** Whatever an evaluation answers, from memory or not, is what a fresh evaluation would say:
      the same inputs, verdict, explanation, obligation, due date and work, up to names and times. */
  lemma AnswerIsFresh(t: Tables, q: EvaluationRequest)
    requires Inv(t) && Evaluate(t, q).1.Ok?
    ensures q.version in t.versions && FreshResult(t, q).Ok?
    ensures Anonymous(Evaluate(t, q).1.value) == Anonymous(FreshResult(t, q).value)
  {
    assert q.version in t.versions;
    hide LinksOk, FactsOk, EvaluationsOk, Evaluate, Conclude, FreshResult, Fresh, CurrentInputs, InputOk, Anonymous;
    PartsForEvaluating(t, q);
    ConclusionIsFresh(t, CurrentInputs(t, q), q);
  }

  /** Asking the same question again changes nothing and gets the same answer. */
  lemma AskingAgain(t: Tables, q: EvaluationRequest, r: EvaluationRequest)
    requires Inv(t) && Evaluate(t, q).1.Ok? && r.caseId == q.caseId && r.version == q.version
    ensures Inv(Evaluate(t, q).0) && Evaluate(Evaluate(t, q).0, r) == Evaluate(t, q)
  {
    var u, e := Evaluate(t, q).0, Evaluate(t, q).1.value.evaluation.id;
    EvaluateStep(t, q);
    AnswersUseCurrentInputs(t, q);
    AnswerIsFresh(t, q);
    EvaluateKeepsEvaluations(t, q);
    hide Evaluate, Materialize, LoadWorkflow, Inv, CurrentInputs, Recorded, Anonymous, Continues, EvaluationsOk;
    SameCurrentInputs(t, u, q, r);
    assert ClaimsKeyed(t) && ClaimsDiffer(CurrentInputs(t, q));
    OnlyNamesDiffer(t.versions[q.version].definition, CurrentInputs(t, q), q, r);
    RememberedAnswers(u, r, e);
  }

  lemma SameCurrentInputs(t: Tables, u: Tables, q: EvaluationRequest, r: EvaluationRequest)
    requires EvaluatedRows(t, u) && q.version in t.versions && r.caseId == q.caseId && r.version == q.version
    ensures CurrentInputs(u, r) == CurrentInputs(t, q)
  {
    assert forall c | c in t.claims :: Grounding(u, c) == Grounding(t, c) by {
      StatesAlike(t, u);
      assert SupportedAlike(t, u);
    }
    assert Grounded(u, r.caseId) == Grounded(t, q.caseId) by { hide Grounding; }
  }

  // ---- Workflows ----

  lemma ConclusionsAreCoherent(t: Tables, inputs: set<RuleInput>, q: EvaluationRequest)
    requires EvaluationsOk(t) && InputsFit(t, inputs, q) && Conclude(t, inputs, q).1.Ok?
    ensures var m := Conclude(t, inputs, q).1.value;
      Coherent(m) && (m.obligation.Some? <==> m.evaluation.verdict == Satisfied)
  {
    ConcludeBranches(t, inputs, q);
    if HasMemo(t, inputs, q) {
      var e :| IsMemo(t, e, q.caseId, q.version, Recorded(inputs)) && Conclude(t, inputs, q) == (t, LoadWorkflow(t, e));
      var r :| Reproduces(t, e, r);
      MaterializedParts(t.versions[q.version].definition, Members(t.evaluations[e].inputs), r);
    } else {
      MaterializedParts(t.versions[q.version].definition, inputs, q);
    }
    hide Conclude, Materialize, LoadWorkflow, Recorded, EvaluationsOk, InputOk;
  }

  lemma AnswersAreCoherent(t: Tables, q: EvaluationRequest)
    requires Inv(t) && Evaluate(t, q).1.Ok?
    ensures var m := Evaluate(t, q).1.value; Coherent(m) && (m.obligation.Some? <==> m.evaluation.verdict == Satisfied)
  {
    assert q.version in t.versions;
    hide LinksOk, FactsOk, EvaluationsOk, Evaluate, Conclude, FreshResult, Fresh, CurrentInputs, InputOk, Coherent;
    PartsForEvaluating(t, q);
    ConclusionsAreCoherent(t, CurrentInputs(t, q), q);
  }

  // ---- Affected derivations ----

  ghost function UsersOf(t: Tables, c: Id): set<Id> { set e | e in t.evaluations && Uses(t.evaluations[e], c) }

  /** The derivations a correction reports, found through evidence joins, are exactly the evaluations
      whose inputs contain the corrected claim when the claim is external. Corrected claims have no
      evidence of their own, so for them nothing is reported, rightly only if nothing uses them. */
  lemma AffectedExactly(t: Tables, c: Id)
    requires Inv(t) && c in t.claims
    ensures t.claims[c].origin == External ==> Affected(t, c) == ListedTexts(UsersOf(t, c))
    ensures t.claims[c].origin != External ==> Affected(t, c) == []
    ensures Affected(t, c) == ListedTexts(UsersOf(t, c)) <==> t.claims[c].origin == External || UsersOf(t, c) == {}
  {
    var found := set u | u in t.uses && u.1 in SupportOf(t, c) :: u.0;
    hide LinksOk, FactsOk, EvaluationsOk, ListedTexts;
    if t.claims[c].origin == External {
      forall e
        ensures e in found <==> e in UsersOf(t, c)
      {
        if e in found {
          var u :| u in t.uses && u.1 in SupportOf(t, c) && u.0 == e;
          UseIsInput(t, u, c);
        }
        if e in UsersOf(t, c) {
          InputIsUsed(t, e, c);
        }
      }
      assert found == UsersOf(t, c);
    } else {
      NoSupport(t, c);
      assert found == {};
      ListedNothing(UsersOf(t, c));
    }
  }

  lemma ListedNothing(s: set<string>)
    ensures ListedTexts({}) == []
    ensures ListedTexts(s) == [] <==> s == {}
  {
    if s != {} { var x :| x in s; assert x in ListedTexts(s); }
  }

  lemma NoSupport(t: Tables, c: Id)
    requires Inv(t) && c in t.claims && t.claims[c].origin != External
    ensures SupportOf(t, c) == {}
  {
    assert forall e :: IsSupport(t, e) ==> e.source != c;
    assert forall e | e in t.edges && e.source == c && e.relation == SupportedBy :: IsSupport(t, e);
    hide IsSupport, LinksOk, FactsOk, EvaluationsOk;
    assert !exists x :: x in SupportOf(t, c);
  }

  /** Evidence supporting a claim is used by an evaluation only through that claim. */
  lemma UseIsInput(t: Tables, u: (Id, Id), c: Id)
    requires Inv(t) && u in t.uses && u.1 in SupportOf(t, c)
    ensures u.0 in UsersOf(t, c)
  {
    var e := t.evaluations[u.0];
    assert u in UsesOf(e) && InputsOk(t, e);
    var i :| i in e.inputs && u.1 in i.evidence;
    assert InputOk(t, e.caseId, i);
    assert u.1 in SupportOf(t, i.claim);
    var f :| f in t.edges && f.source == c && f.relation == SupportedBy && f.target == u.1;
    var g :| g in t.edges && g.source == i.claim && g.relation == SupportedBy && g.target == u.1;
    assert IsSupport(t, f) && IsSupport(t, g);
  }

  lemma InputIsUsed(t: Tables, e: Id, c: Id)
    requires Inv(t) && c in t.claims && t.claims[c].origin == External && e in UsersOf(t, c)
    ensures exists u :: u in t.uses && u.1 in SupportOf(t, c) && u.0 == e
  {
    var i :| i in t.evaluations[e].inputs && i.claim == c;
    assert InputsOk(t, t.evaluations[e]) && InputOk(t, t.evaluations[e].caseId, i);
    var f :| IsSupport(t, f) && f.source == c;
    assert f.target in SupportOf(t, c) && f.target in i.evidence;
    assert (e, f.target) in UsesOf(t.evaluations[e]);
  }
}
