/** When each operation is accepted, with which error it is refused, and everything it stores. */
module Outcomes {
  import opened Wrappers
  import opened Ordering
  import opened Values
  import opened Records
  import opened Rules
  import opened Verdicts
  import opened Evidence
  import opened Operations
  import opened Links
  import opened States
  import opened Evaluations
  import opened History
  import opened Promises
  import Temporal

  // ---- Cases, claims, reviews, corrections and rules ----

  /** A case is opened unless its identifier or that of its audit event is taken. */
  lemma OpeningExactly(t: Tables, caseId: Id, audit: Id)
    ensures var (u, r) := CreateCase(t, caseId, audit);
      && (r.Ok? <==> caseId !in t.cases && AuditRow(audit) !in t.log)
      && (r.Err? ==> r == Err(Conflict) && u == t)
      && (r.Ok? ==> u == t.(cases := t.cases + {caseId}, log := t.log + {AuditRow(audit)}))
  {
  }

  /** A claim is recorded for a known case when no row it inserts is there, whatever other claims say.
      The claim itself is stored as it was requested. */
  lemma RecordingExactly(t: Tables, q: ClaimRequest)
    requires ClaimsKeyed(t)
    ensures var (u, r) := RecordClaim(t, q);
      && (r.Ok? <==>
           && q.caseId in t.cases && q.claim !in t.claims && q.evidence !in t.evidence
           && ProvenanceRow(q.provenance) !in t.log && ObservationRow(q.observation) !in t.log
           && AuditRow(q.audit) !in t.log)
      && (r == Err(NotFound) <==> q.caseId !in t.cases)
      && (r.Err? ==> (r == Err(NotFound) || r == Err(Conflict)) && u == t)
      && (r.Ok? ==>
           && u.claims == t.claims[q.claim := Claim(q.claim, q.caseId, q.subject, q.attribute, q.value, External,
              Extracted, q.at)]
           && r.value.claim == u.claims[q.claim] && u.evidence == t.evidence + {q.evidence}
           && u.log == t.log + {ProvenanceRow(q.provenance), ObservationRow(q.observation), AuditRow(q.audit)})
      && u == t.(claims := u.claims, evidence := u.evidence, log := u.log, edges := u.edges,
         contradictions := u.contradictions, changes := u.changes)
  {
    hide OrderedPriors, ClaimsKeyed, InsertEdge, RelationEdges, ContradictionSet, ContradictedChanges, Conflicts,
      Agreements, ContradictionRows;
  }

  /** The evidence a claim is recorded with is its support. */
  lemma RecordingSupports(t: Tables, q: ClaimRequest)
    requires LinksOk(t) && Admissible(t, Record(q)) && RecordAccepted(t, q)
    ensures SupportOf(RecordClaim(t, q).0, q.claim) == {q.evidence}
  {
    assert ClaimsKeyed(t) && ClaimsOk(t) && EdgesOk(t);
    hide RecordClaim, RecordAccepted, OrderedPriors, LinksOk, Admissible, ClaimsOk, EdgesOk, SupportOf;
    RecordTables(t, q);
    hide RecordedRows;
    RecordKeepsSupport(t, RecordClaim(t, q).0, q, OrderedPriors(t, ExternalClaim(q)));
  }

  /** An earlier live claim on the key whose value is known, as is the new one, and differs. */
  ghost predicate Opposes(t: Tables, p: Id, q: ClaimRequest) {
    IsLivePrior(t, p, q) && q.value.Known? && t.claims[p].value.Known? && t.claims[p].value != q.value
  }

  ghost predicate Supports(t: Tables, p: Id, q: ClaimRequest) {
    IsLivePrior(t, p, q) && q.value.Known? && t.claims[p].value == q.value
  }

  ghost predicate CreatedBefore(t: Tables, p: Id, q: Id)
    requires p in t.claims && q in t.claims
  {
    t.claims[p].createdAt < t.claims[q].createdAt
    || (t.claims[p].createdAt == t.claims[q].createdAt && TextLess(p, q))
  }

  /** The contradiction row of a new claim and an earlier one, the smaller identifier first. */
  ghost predicate IsRowFor(k: Contradiction, q: ClaimRequest, p: Id) {
    && ((k.a == q.claim && k.b == p) || (k.a == p && k.b == q.claim)) && TextLess(k.a, k.b)
    && k.id == ContradictionId(k.a, k.b) && k.caseId == q.caseId && k.at == q.at
  }

  ghost function Other(k: Contradiction, claim: Id): Id { if k.a == claim then k.b else k.a }

  /** One row for each live claim the new one opposes, in the order in which those were created. */
  ghost predicate RowsAnswer(t: Tables, q: ClaimRequest, rows: seq<Contradiction>) {
    && (forall k :: k in rows <==> exists p :: Opposes(t, p, q) && IsRowFor(k, q, p))
    && forall i, j :: 0 <= i < j < |rows| ==>
         && Other(rows[i], q.claim) in t.claims && Other(rows[j], q.claim) in t.claims
         && CreatedBefore(t, Other(rows[i], q.claim), Other(rows[j], q.claim))
  }

  /** The identifier of each live claim the new one agrees with, in the same order. */
  ghost predicate NamesAnswer(t: Tables, q: ClaimRequest, names: seq<Id>) {
    && (forall p :: p in names <==> Supports(t, p, q))
    && forall i, j :: 0 <= i < j < |names| ==>
         names[i] in t.claims && names[j] in t.claims && CreatedBefore(t, names[i], names[j])
  }

  /** The answer to a recording lists exactly what the new claim opposes and what it agrees with. */
  lemma RecordingAnswers(t: Tables, q: ClaimRequest)
    requires ClaimsOk(t) && RecordAccepted(t, q)
    ensures RowsAnswer(t, q, RecordClaim(t, q).1.value.contradictions)
    ensures NamesAnswer(t, q, RecordClaim(t, q).1.value.corroborates)
  {
    var claim, r := ExternalClaim(q), RecordClaim(t, q).1.value;
    var priors := OrderedPriors(t, claim);
    RecordIsWithClaim(t, q);
    PriorsAreLive(t, q);
    ConflictsMembers(claim, priors);
    RecordingLists(t, q);
    hide RecordClaim, RecordAccepted, OrderedPriors, WithClaim, Opposes, Supports, RowsAnswer, NamesAnswer, Conflicts,
      Agreements, ContradictionRow, Conflicting, Agreeing;
    RowsFollow(t, q, Conflicts(claim, priors), r.contradictions);
    NamesFollow(t, q, Agreements(claim, priors), r.corroborates);
  }

  /** The lists of a result, position by position, from the priors in order. */
  lemma RecordingLists(t: Tables, q: ClaimRequest)
    requires ClaimsOk(t) && RecordAccepted(t, q)
    ensures var r, claim := RecordClaim(t, q).1.value, ExternalClaim(q);
      var conflicts, agreements := Conflicts(claim, OrderedPriors(t, claim)),
        Agreements(claim, OrderedPriors(t, claim));
      && Sorted(conflicts, ClaimLess) && Sorted(agreements, ClaimLess)
      && |r.contradictions| == |conflicts| && |r.corroborates| == |agreements|
      && (forall i :: 0 <= i < |conflicts| ==> r.contradictions[i] == ContradictionRow(claim, conflicts[i], q.at))
      && forall i :: 0 <= i < |agreements| ==> r.corroborates[i] == agreements[i].id
  {
    hide RecordClaim, RecordAccepted, OrderedPriors, ClaimsOk, LivePriors, ClaimLess, ContradictionRow;
    RecordReturns(t, q);
  }

  lemma PriorsAreLive(t: Tables, q: ClaimRequest)
    requires ClaimsOk(t) && q.claim !in t.claims
    ensures var claim := ExternalClaim(q);
      && (forall p :: p in OrderedPriors(t, claim) ==> p.id in t.claims && t.claims[p.id] == p && p.id != q.claim)
      && (forall p :: Opposes(t, p, q) <==>
           p in t.claims && t.claims[p] in OrderedPriors(t, claim) && Conflicting(claim, t.claims[p]))
      && forall p :: Supports(t, p, q) <==>
           p in t.claims && t.claims[p] in OrderedPriors(t, claim) && Agreeing(claim, t.claims[p])
  {
    PriorsOf(t, q);
    forall p
      ensures IsLivePrior(t, p, q) <==> p in t.claims && t.claims[p] in LivePriors(t, ExternalClaim(q))
    {
      LiveMeansPrior(t, p, q);
    }
    hide OrderedPriors, LivePriors, IsLivePrior;
  }

  lemma RowsFollow(t: Tables, q: ClaimRequest, conflicts: seq<Claim>, rows: seq<Contradiction>)
    requires ClaimsKeyed(t) && Sorted(conflicts, ClaimLess) && |rows| == |conflicts|
    requires forall i :: 0 <= i < |rows| ==> rows[i] == ContradictionRow(ExternalClaim(q), conflicts[i], q.at)
    requires forall p :: p in conflicts ==> p.id in t.claims && t.claims[p.id] == p && p.id != q.claim
    requires forall p :: Opposes(t, p, q) <==> p in t.claims && t.claims[p] in conflicts
    ensures RowsAnswer(t, q, rows)
  {
    var claim := ExternalClaim(q);
    forall i | 0 <= i < |rows|
      ensures IsRowFor(rows[i], q, conflicts[i].id) && Other(rows[i], q.claim) == conflicts[i].id
      ensures Opposes(t, conflicts[i].id, q)
    {
      assert conflicts[i] in conflicts;
      RowOfPair(claim, conflicts[i], q.at);
    }
    hide ContradictionRow, Opposes, IsRowFor, Other;
    forall k, p | Opposes(t, p, q) && IsRowFor(k, q, p)
      ensures k in rows
    {
      var i :| 0 <= i < |conflicts| && conflicts[i] == t.claims[p];
      assert conflicts[i].id == p;
      OneRow(rows[i], k, q, p);
    }
    forall i, j | 0 <= i < j < |rows|
      ensures CreatedBefore(t, conflicts[i].id, conflicts[j].id)
    {
      assert ClaimLess(conflicts[i], conflicts[j]);
    }
  }

  lemma OneRow(k: Contradiction, l: Contradiction, q: ClaimRequest, p: Id)
    requires IsRowFor(k, q, p) && IsRowFor(l, q, p)
    ensures k == l
  {
    TextLessTrichotomy(q.claim, p);
  }

  lemma NamesFollow(t: Tables, q: ClaimRequest, agreements: seq<Claim>, names: seq<Id>)
    requires ClaimsKeyed(t) && Sorted(agreements, ClaimLess) && |names| == |agreements|
    requires forall i :: 0 <= i < |names| ==> names[i] == agreements[i].id
    requires forall p :: p in agreements ==> p.id in t.claims && t.claims[p.id] == p && p.id != q.claim
    requires forall p :: Supports(t, p, q) <==> p in t.claims && t.claims[p] in agreements
    ensures NamesAnswer(t, q, names)
  {
    hide Supports;
    forall i | 0 <= i < |names|
      ensures names[i] in t.claims && t.claims[names[i]] == agreements[i]
    {
      assert agreements[i] in agreements;
    }
    forall p | Supports(t, p, q)
      ensures p in names
    {
      var i :| 0 <= i < |agreements| && agreements[i] == t.claims[p];
      assert names[i] == agreements[i].id == p;
    }
    forall i, j | 0 <= i < j < |names|
      ensures CreatedBefore(t, names[i], names[j])
    {
      assert ClaimLess(agreements[i], agreements[j]);
    }
  }

  ghost predicate IsFactName(t: Tables, fact: Id) { exists c :: c in t.facts && t.facts[c].id == fact }

  /** A review of a known claim is accepted when its rows are new; a verification needs, besides, that
      the claim has never left a fact. The fact has the value of the claim. */
  lemma ReviewingExactly(t: Tables, q: ReviewRequest)
    ensures var (u, r) := ReviewClaim(t, q);
      && (r.Ok? <==>
           && q.claim in t.claims && q.decision != Correct
           && ReviewRow(q.review) !in t.log && AuditRow(q.audit) !in t.log
           && (q.decision == Verify ==> q.claim !in t.facts && !IsFactName(t, q.fact)))
      && (r == Err(NotFound) <==> q.claim !in t.claims)
      && (r == Err(InvalidInput) <==> q.claim in t.claims && q.decision == Correct)
      && (r.Err? ==> (r.error == NotFound || r.error == InvalidInput || r.error == Conflict) && u == t)
      && (r.Ok? ==>
           && u.facts == (if q.decision == Verify
              then t.facts[q.claim := Fact(q.fact, q.claim, t.claims[q.claim].value)] else t.facts)
           && u.log == t.log + {ReviewRow(q.review), AuditRow(q.audit)})
      && u == t.(changes := u.changes, facts := u.facts, log := u.log)
  {
    hide InsertChange;
  }

  /** A correction of a known claim is accepted when its rows are new. The corrected claim is a verified
      human claim on the key of the original. */
  lemma CorrectingExactly(t: Tables, q: CorrectionRequest)
    ensures var (u, r) := CorrectClaim(t, q);
      && (r.Ok? <==>
           && q.original in t.claims && q.corrected !in t.claims && q.correction !in t.corrections
           && ProvenanceRow(q.provenance) !in t.log && ReviewRow(q.review) !in t.log && AuditRow(q.audit) !in t.log)
      && (r == Err(NotFound) <==> q.original !in t.claims)
      && (r.Err? ==> (r == Err(NotFound) || r == Err(Conflict)) && u == t)
      && (r.Ok? ==>
           && var original := t.claims[q.original];
           && u.claims == t.claims[q.corrected := Claim(q.corrected, original.caseId, original.subject,
              original.attribute, q.value, Human, Verified, q.at)]
           && u.corrections == t.corrections[q.correction := r.value]
           && r.value.id == q.correction && r.value.original == q.original && r.value.corrected == q.corrected
           && u.log == t.log + {ProvenanceRow(q.provenance), ReviewRow(q.review), AuditRow(q.audit)})
      && u == t.(claims := u.claims, corrections := u.corrections, changes := u.changes, edges := u.edges, log := u.log)
  {
    hide InsertChange, InsertEdge, Affected;
  }

  /** Some version of a rule with this package and key is registered. */
  ghost predicate IsRuleKey(t: Tables, package: string, key: string) {
    exists x :: x in t.versions && t.versions[x].package == package && t.versions[x].key == key
  }

  /** A rule version is registered when its rows are new and its package has no rule of its key. */
  lemma RegisteringExactly(t: Tables, v: RuleVersion, rule: Id, audit: Id)
    ensures var (u, r) := RegisterRule(t, v, rule, audit);
      && (r.Ok? <==>
           && v.id !in t.versions && RuleRow(rule) !in t.log && AuditRow(audit) !in t.log
           && !IsRuleKey(t, v.package, v.key))
      && (r.Err? ==> r == Err(Conflict) && u == t)
      && (r.Ok? ==>
           && r.value == v
           && u == t.(versions := t.versions[v.id := v], log := t.log + {RuleRow(rule), AuditRow(audit)}))
  {
  }

  // ---- Edges and state changes, whose names may be taken ----

  /** An edge under the name, or between the same ends with the same relation, is there already. */
  ghost predicate IsEdgeTaken(t: Tables, e: Edge) {
    exists x :: x in t.edges
      && (x.id == e.id || (x.source == e.source && x.relation == e.relation && x.target == e.target))
  }

  ghost function RelationEdge(q: ClaimRequest, source: Id, relation: Relation, target: Id): Edge {
    Edge(EdgeId(source, relation, target), q.caseId, source, relation, target)
  }

  /** An edge a recording draws: to each claim the new one agrees with, and to and from each it opposes. */
  ghost predicate IsDrawn(t: Tables, q: ClaimRequest, e: Edge) {
    exists p ::
      || (Supports(t, p, q) && e == RelationEdge(q, q.claim, Corroborates, p))
      || (Opposes(t, p, q)
          && (e == RelationEdge(q, q.claim, Contradicts, p) || e == RelationEdge(q, p, Contradicts, q.claim)))
  }

  /** Everything a recording links, whatever names it is given: the support edge is left out when its
      name is taken, the others are not. */
  lemma RecordingLinks(t: Tables, q: ClaimRequest)
    requires ClaimsOk(t) && RecordAccepted(t, q)
    ensures var u, support := RecordClaim(t, q).0, Edge(Generated(q.edge), q.caseId, q.claim, SupportedBy, q.evidence);
      && (forall e :: e in u.edges <==>
           e in t.edges || (e == support && !IsEdgeTaken(t, support)) || IsDrawn(t, q, e))
      && forall k :: k in u.contradictions <==>
           k in t.contradictions || exists p :: Opposes(t, p, q) && IsRowFor(k, q, p)
  {
    var claim, u := ExternalClaim(q), RecordClaim(t, q).0;
    var priors := OrderedPriors(t, claim);
    RecordIsWithClaim(t, q);
    PriorsAreLive(t, q);
    RelationEdgesMembers(claim, priors);
    assert u.edges == InsertEdge(t.edges, SupportEdge(q)) + RelationEdges(claim, priors)
      && u.contradictions == t.contradictions + ContradictionSet(claim, priors, q.at);
    assert ClaimsKeyed(t);
    hide RecordClaim, RecordAccepted, OrderedPriors, ClaimsOk, WithClaim, RelationEdges, ContradictionSet;
    DrawnEdges(t, q, priors);
    DrawnRows(t, q, priors);
    hide Opposes, Supports, IsRowFor, IsDrawn, IsRelationEdge;
  }

  lemma DrawnEdges(t: Tables, q: ClaimRequest, priors: seq<Claim>)
    requires forall p :: p in priors ==> p.id in t.claims && t.claims[p.id] == p
    requires ClaimsKeyed(t)
    requires forall p :: Opposes(t, p, q) <==>
      p in t.claims && t.claims[p] in priors && Conflicting(ExternalClaim(q), t.claims[p])
    requires forall p :: Supports(t, p, q) <==>
      p in t.claims && t.claims[p] in priors && Agreeing(ExternalClaim(q), t.claims[p])
    ensures forall e :: IsRelationEdge(ExternalClaim(q), priors, e) <==> IsDrawn(t, q, e)
  {
    hide Opposes, Supports, Conflicting, Agreeing;
    forall e
      ensures IsRelationEdge(ExternalClaim(q), priors, e) <==> IsDrawn(t, q, e)
    {
    }
  }

  lemma DrawnRows(t: Tables, q: ClaimRequest, priors: seq<Claim>)
    requires forall p :: p in priors ==> p.id in t.claims && t.claims[p.id] == p && p.id != q.claim
    requires ClaimsKeyed(t)
    requires forall p :: Opposes(t, p, q) <==>
      p in t.claims && t.claims[p] in priors && Conflicting(ExternalClaim(q), t.claims[p])
    ensures forall k :: k in ContradictionSet(ExternalClaim(q), priors, q.at) <==>
      exists p :: Opposes(t, p, q) && IsRowFor(k, q, p)
  {
    var claim := ExternalClaim(q);
    forall p | p in priors
      ensures IsRowFor(ContradictionRow(claim, p, q.at), q, p.id)
    {
      RowOfPair(claim, p, q.at);
    }
    hide Opposes, Conflicting, ContradictionRow;
    forall k, p | Opposes(t, p, q) && IsRowFor(k, q, p)
      ensures k in ContradictionSet(claim, priors, q.at)
    {
      OneRow(k, ContradictionRow(claim, t.claims[p], q.at), q, p);
    }
  }

  ghost predicate IsChangeName(changes: seq<StateChange>, id: Id) {
    exists x :: x in changes && x.id == Generated(id)
  }

  /** The state change of a review, left out when its name is taken. */
  lemma ReviewingChanges(t: Tables, q: ReviewRequest)
    requires ReviewClaim(t, q).1.Ok?
    ensures var state :=
        if q.decision == Verify then Verified else if q.decision == Reject then Rejected else Unresolved;
      ReviewClaim(t, q).0.changes == if IsChangeName(t.changes, q.change) then t.changes
        else t.changes + [StateChange(Generated(q.change), q.claim, state, q.at)]
  {
  }

  /** The two state changes of a correction and the edge to the original, each left out when its name
      is taken. */
  lemma CorrectingChanges(t: Tables, q: CorrectionRequest)
    requires CorrectClaim(t, q).1.Ok?
    ensures var u := CorrectClaim(t, q).0;
      var superseded := StateChange(Generated(q.originalChange), q.original, Superseded, q.at);
      var verified := StateChange(Generated(q.correctedChange), q.corrected, Verified, q.at);
      var first := if IsChangeName(t.changes, q.originalChange) then t.changes else t.changes + [superseded];
      var edge := Edge(EdgeId(q.corrected, Supersedes, q.original), t.claims[q.original].caseId, q.corrected,
        Supersedes, q.original);
      && u.changes == (if IsChangeName(first, q.correctedChange) then first else first + [verified])
      && u.edges == if IsEdgeTaken(t, edge) then t.edges else t.edges + {edge}
  {
    hide Affected;
  }

  // ---- Evaluations ----

  /** The due date of a rule can be held: the interval fits 32 bits and the year has four digits. */
  ghost predicate DueInRange(def: Definition, anchor: Temporal.Date) {
    def.effect.daysAfter < 0x8000_0000
    && 1 <= Temporal.Walk(Temporal.Denoted(anchor), def.effect.daysAfter).year <= 9999
  }

  /** The inputs do not satisfy the rule, or they do and the due date can be held. */
  ghost predicate InTime(def: Definition, inputs: set<RuleInput>) {
    Judge(def, inputs).verdict == Satisfied ==> forall d :: IsAnchorDay(def, inputs, d) ==> DueInRange(def, d)
  }

  /** What an evaluation causes: the record of what was judged and, when satisfied, an obligation, its
      deadline and its work, worded by the rule and named by the request. */
  ghost predicate Caused(def: Definition, inputs: set<RuleInput>, q: EvaluationRequest, m: Materialization)
    requires ClaimsDiffer(inputs)
  {
    var j := Judge(def, inputs);
    && m.evaluation == Evaluation(q.evaluation, q.caseId, q.version, Recorded(inputs), j.verdict, j.explanation, q.at,
       q.correlation)
    && (j.verdict != Satisfied ==> m.obligation == None && m.deadline == None && m.work == None)
    && (j.verdict == Satisfied ==>
         && m.obligation ==
            Some(Obligation(q.obligation, q.caseId, q.evaluation, def.effect.kind, def.effect.description, q.at))
         && m.work == Some(WorkflowTask(q.work, q.caseId, q.obligation, def.effect.title, q.at))
         && exists d :: IsAnchorDay(def, inputs, d) && m.deadline == Some(DueAfter(def, d, q)))
  }

  ghost function DueAfter(def: Definition, anchor: Temporal.Date, q: EvaluationRequest): Deadline {
    var due := Temporal.Walk(Temporal.Denoted(anchor), def.effect.daysAfter);
    Deadline(q.deadline, q.caseId, q.obligation, Some(due), Some(due), anchor, def.effect.daysAfter, def.effect.anchor,
      q.at)
  }

  /** Materialising succeeds exactly in time, and then causes exactly this. */
  lemma MaterializingExactly(def: Definition, inputs: set<RuleInput>, q: EvaluationRequest)
    requires ClaimsDiffer(inputs)
    ensures var r := Materialize(def, inputs, q);
      (if InTime(def, inputs) then r.Ok? && Caused(def, inputs, q, r.value) else r == Err(InvalidInput))
  {
    var j := Judge(def, inputs);
    SatisfiedExactly(def, inputs);
    hide Judge, Recorded, DueInRange, AnchorDates, IsAnchorDay, MissingPredicates, FailedPredicates;
    if j.verdict == Satisfied {
      var anchor := DueDateExactly(def, inputs);
    }
    hide Temporal.Walk, Temporal.Denoted, Temporal.CheckedAddDays;
  }

  lemma DueDateExactly(def: Definition, inputs: set<RuleInput>) returns (anchor: Temporal.Date)
    requires Judge(def, inputs).verdict == Satisfied
    ensures forall d :: IsAnchorDay(def, inputs, d) <==> d == anchor
    ensures DueDate(def, Judge(def, inputs)) ==
      if DueInRange(def, anchor)
      then Ok(Some((anchor, Temporal.Walk(Temporal.Denoted(anchor), def.effect.daysAfter)))) else Err(InvalidInput)
  {
    DaysDecide(def, inputs);
    SatisfiedExactly(def, inputs);
    var anchors := AnchorDates(def, inputs);
    anchor := EarliestDate(anchors);
    OnlyMember(anchors, anchor);
    Temporal.CheckedAddDaysIsWalk(anchor, def.effect.daysAfter);
    assert forall d :: IsAnchorDay(def, inputs, d) <==> d == anchor;
    hide AnchorDates, MissingPredicates, FailedPredicates, Temporal.CheckedAddDays, Temporal.Walk, Temporal.Denoted,
      Disagrees, IsAnchorDay;
  }

  /** The names an evaluation inserts are not there. */
  ghost predicate EvaluationNamesUnused(t: Tables, q: EvaluationRequest, satisfied: bool) {
    && AuditRow(q.audit) !in t.log && q.evaluation !in t.evaluations
    && (satisfied ==> q.obligation !in t.obligations && q.deadline !in t.deadlines && q.work !in t.tasks)
  }

  ghost predicate IsRemembered(t: Tables, inputs: set<RuleInput>, q: EvaluationRequest)
    requires ClaimsDiffer(inputs)
  {
    exists e :: e in t.evaluations && t.evaluations[e].caseId == q.caseId && t.evaluations[e].version == q.version
      && t.evaluations[e].inputs == Recorded(inputs)
  }

  /** Concluding from inputs: refused as invalid exactly when the due date leaves its range; otherwise
      answered from memory when the question was answered before, stored as a whole when the case is
      known and the names are new, and refused as a conflict in the remaining cases. */
  lemma ConcludingExactly(t: Tables, inputs: set<RuleInput>, q: EvaluationRequest)
    requires EvaluationsOk(t) && InputsFit(t, inputs, q)
    ensures var (u, r) := Conclude(t, inputs, q);
      var def := t.versions[q.version].definition;
      var unused := q.caseId in t.cases
        && EvaluationNamesUnused(t, q, Judge(def, inputs).verdict == Satisfied);
      && (r == Err(InvalidInput) <==> !InTime(def, inputs))
      && (r.Ok? <==> InTime(def, inputs) && (IsRemembered(t, inputs, q) || unused))
      && (r.Err? ==> (r.error == InvalidInput || r.error == Conflict))
      && (r.Err? || IsRemembered(t, inputs, q) ==> u == t)
      && (r.Ok? && !IsRemembered(t, inputs, q) ==>
           && Caused(def, inputs, q, r.value) && u.evaluations == t.evaluations[q.evaluation := r.value.evaluation]
           && u.log == t.log + {AuditRow(q.audit)})
  {
    hide Conclude, Fresh, LoadWorkflow, EvaluationsOk, Judge, InTime, InputOk, Recorded, Caused, EvaluationNamesUnused;
    if IsRemembered(t, inputs, q) {
      ConcludingAgain(t, inputs, q);
    } else {
      ConcludingAnew(t, inputs, q);
    }
  }

  lemma ConcludingAgain(t: Tables, inputs: set<RuleInput>, q: EvaluationRequest)
    requires EvaluationsOk(t) && InputsFit(t, inputs, q) && IsRemembered(t, inputs, q)
    ensures var def := t.versions[q.version].definition;
      && Conclude(t, inputs, q).0 == t
      && if InTime(def, inputs) then Conclude(t, inputs, q).1.Ok? else Conclude(t, inputs, q).1 == Err(InvalidInput)
  {
    MaterializingExactly(t.versions[q.version].definition, inputs, q);
    ConcludeBranches(t, inputs, q);
    assert HasMemo(t, inputs, q) by {
      hide Conclude, Materialize, InTime, Recorded, EvaluationsOk;
      var e :| e in t.evaluations && t.evaluations[e].caseId == q.caseId && t.evaluations[e].version == q.version
        && t.evaluations[e].inputs == Recorded(inputs);
      assert IsMemo(t, e, q.caseId, q.version, Recorded(inputs));
    }
    WorkflowsLoad(t);
    hide Conclude, Materialize, LoadWorkflow, EvaluationsOk, InTime, InputOk, Recorded, Caused;
  }

  lemma WorkflowsLoad(t: Tables)
    requires EvaluationsOk(t)
    ensures forall e | e in t.evaluations :: LoadWorkflow(t, e).Ok?
  {
    hide LoadWorkflow, InputsOk, RowsOk, UsesOk;
    forall e | e in t.evaluations
      ensures LoadWorkflow(t, e).Ok?
    {
      assert Reproducible(t, e);
    }
  }

  lemma ConcludingAnew(t: Tables, inputs: set<RuleInput>, q: EvaluationRequest)
    requires InputsFit(t, inputs, q) && !IsRemembered(t, inputs, q)
    ensures var (u, r) := Conclude(t, inputs, q); var def := t.versions[q.version].definition;
      && (!InTime(def, inputs) ==> u == t && r == Err(InvalidInput))
      && (InTime(def, inputs) ==>
           if q.caseId in t.cases && EvaluationNamesUnused(t, q, Judge(def, inputs).verdict == Satisfied)
           then
             && r.Ok? && Caused(def, inputs, q, r.value)
             && u.evaluations == t.evaluations[q.evaluation := r.value.evaluation]
                && u.log == t.log + {AuditRow(q.audit)}
           else u == t && r == Err(Conflict))
  {
    var def := t.versions[q.version].definition;
    MaterializingExactly(def, inputs, q);
    ConcludeBranches(t, inputs, q);
    assert !HasMemo(t, inputs, q);
    hide Conclude, Materialize, LoadWorkflow, InTime, InputOk, Recorded, Judge;
    if InTime(def, inputs) {
      NamesDecide(t, def, inputs, q, Fresh(t, inputs, q).value);
    }
    hide Caused, Clashes, EvaluationNamesUnused;
  }

  lemma NamesDecide(t: Tables, def: Definition, inputs: set<RuleInput>, q: EvaluationRequest, m: Materialization)
    requires ClaimsDiffer(inputs) && Caused(def, inputs, q, m)
    ensures m.evaluation.id == q.evaluation
    ensures Clashes(t, m, q.audit) <==>
      q.caseId !in t.cases || !EvaluationNamesUnused(t, q, Judge(def, inputs).verdict == Satisfied)
  {
    hide Judge, Recorded, Temporal.Walk, Temporal.Denoted;
  }

  /** An evaluation nothing comes between: not found exactly without the rule version; otherwise it
      concludes from the current inputs. */
  lemma EvaluatingExactly(t: Tables, q: EvaluationRequest)
    requires Inv(t) && ClaimsKeyed(t)
    ensures Evaluate(t, q).1 == Err(NotFound) <==> q.version !in t.versions
    ensures q.version !in t.versions ==> Evaluate(t, q).0 == t
    ensures q.version in t.versions ==>
      var def, inputs := t.versions[q.version].definition, CurrentInputs(t, q);
      && ClaimsDiffer(inputs) && Evaluate(t, q) == Conclude(t, inputs, q)
      && (Evaluate(t, q).1.Ok? <==>
           && InTime(def, inputs)
           && (IsRemembered(t, inputs, q)
               || (q.caseId in t.cases && EvaluationNamesUnused(t, q, Judge(def, inputs).verdict == Satisfied))))
  {
    hide Conclude, CurrentInputs, InTime, IsRemembered, EvaluationNamesUnused, Judge, ClaimsKeyed;
    if q.version in t.versions {
      PartsForEvaluating(t, q);
      assert EvaluationsOk(t);
      hide Evaluate, Inv, EvaluationsOk, InputOk;
      ConcludingExactly(t, CurrentInputs(t, q), q);
    }
  }
}
