/** The evidence repository as an object whose methods run one transaction each, and the service
    that evaluates rules against it. Every method does what its operation says on the whole tables. */
module Repository {
  import opened Wrappers
  import opened Ordering
  import opened Values
  import opened Records
  import opened Rules
  import opened Evidence
  import opened Operations
  import opened Links
  import opened States
  import opened Evaluations
  import opened History

  // ---- One prior claim at a time ----

  /** An edge with a derived name at a claim not yet in the store is not there under another guise. */
  lemma DerivedEdgeIsNew(t: Tables, q: ClaimRequest, priors: seq<Claim>, e: Edge)
    requires EdgesOk(t) && q.claim !in t.claims && e.relation != SupportedBy
    requires e.id == EdgeId(e.source, e.relation, e.target) && e.caseId == q.caseId
      && (e.source == q.claim || e.target == q.claim)
    ensures var edges := InsertEdge(t.edges, SupportEdge(q)) + RelationEdges(ExternalClaim(q), priors);
      InsertEdge(edges, e) == edges + {e}
  {
    var edges := InsertEdge(t.edges, SupportEdge(q)) + RelationEdges(ExternalClaim(q), priors);
    RelationEdgesMembers(ExternalClaim(q), priors);
    hide RelationEdges;
    forall x | x in edges
      && (x.id == e.id || (x.source == e.source && x.relation == e.relation && x.target == e.target))
      ensures x == e
    {
      assert x !in t.edges && x != SupportEdge(q);
    }
  }

  /** The two edges of a contradiction. */
  lemma EdgePairIsNew(t: Tables, q: ClaimRequest, priors: seq<Claim>, p: Claim)
    requires EdgesOk(t) && q.claim !in t.claims && p.id in t.claims
    ensures var claim := ExternalClaim(q); var edges := InsertEdge(t.edges, SupportEdge(q))
      + RelationEdges(claim, priors);
      var there, back := ClaimEdge(claim.caseId, claim.id, Contradicts, p.id),
        ClaimEdge(claim.caseId, p.id, Contradicts, claim.id);
      InsertEdge(InsertEdge(edges, there), back) == edges + {there} + {back}
  {
    var claim := ExternalClaim(q);
    var edges := InsertEdge(t.edges, SupportEdge(q)) + RelationEdges(claim, priors);
    DerivedEdgeIsNew(t, q, priors, ClaimEdge(claim.caseId, claim.id, Contradicts, p.id));
    DerivedEdgeIsNew(t, q, priors, ClaimEdge(claim.caseId, p.id, Contradicts, claim.id));
    hide RelationEdges;
  }

  lemma RelationEdgesOfNext(claim: Claim, priors: seq<Claim>, p: Claim)
    ensures RelationEdges(claim, priors + [p]) == RelationEdges(claim, priors) + RelationEdges(claim, [p])
  {
    RelationEdgesMembers(claim, priors);
    RelationEdgesMembers(claim, priors + [p]);
    RelationEdgesMembers(claim, [p]);
    hide RelationEdges;
    assert forall e :: IsRelationEdge(claim, priors + [p], e) <==>
      IsRelationEdge(claim, priors, e) || IsRelationEdge(claim, [p], e);
  }

  /** The contradiction with a prior is not in the tables yet under another name. */
  lemma ContradictionIsNew(t: Tables, q: ClaimRequest, priors: seq<Claim>, p: Claim)
    requires ContradictionsOk(t) && q.claim !in t.claims && p.id in t.claims
      && forall x :: x in priors ==> x.id in t.claims
    ensures var rows, k := t.contradictions + ContradictionSet(ExternalClaim(q), priors, q.at),
      ContradictionRow(ExternalClaim(q), p, q.at);
      && InsertContradiction(rows, k) == rows + {k}
      && forall x :: x in rows + {k} && x.id == k.id ==> x == k
  {
    var claim := ExternalClaim(q);
    var rows, k := t.contradictions + ContradictionSet(claim, priors, q.at), ContradictionRow(claim, p, q.at);
    RowOfPair(claim, p, q.at);
    forall x | x in rows && (x.id == k.id || (x.a == k.a && x.b == k.b))
      ensures x == k
    {
      assert x !in t.contradictions;
      var y :| y in priors && x == ContradictionRow(claim, y, q.at);
      RowOfPair(claim, y, q.at);
    }
  }

  lemma ContradictionSetOfNext(claim: Claim, priors: seq<Claim>, p: Claim, at: int)
    ensures ContradictionSet(claim, priors + [p], at)
      == ContradictionSet(claim, priors, at) + if Conflicting(claim, p) then {ContradictionRow(claim, p, at)} else {}
  {
    hide ContradictionRow, Conflicting;
  }

  /** The state changes a contradiction derives are not in the log yet. */
  lemma ChangesAreNew(t: Tables, q: ClaimRequest, priors: seq<Claim>, p: Claim)
    requires ChangesOk(t) && q.claim !in t.claims && p.id in t.claims && p !in priors
    requires forall x :: x in priors ==> x.id in t.claims && t.claims[x.id] == x
    requires t.claims[p.id] == p
    ensures var changes := t.changes + ContradictedChanges(ExternalClaim(q), Conflicts(ExternalClaim(q), priors), q.at);
      var pair := ContradictedPair(ExternalClaim(q), p, q.at);
      InsertChange(InsertChange(changes, pair[0]), pair[1]) == changes + pair
  {
    var claim := ExternalClaim(q);
    var conflicts := Conflicts(claim, priors);
    var changes, pair := t.changes + ContradictedChanges(claim, conflicts, q.at), ContradictedPair(claim, p, q.at);
    ConflictsMembers(claim, priors);
    ContradictedChangesMembers(claim, conflicts, q.at);
    RowOfPair(claim, p, q.at);
    hide Conflicts, ContradictedChanges;
    forall x | x in changes
      ensures x.id != pair[0].id && x.id != pair[1].id
    {
      if x !in t.changes {
        var y :| y in conflicts && IsPairChange(claim, y, q.at, x);
        RowOfPair(claim, y, q.at);
      }
    }
    hide ContradictedPair;
    InsertTwo(changes, pair[0], pair[1]);
    assert pair == [pair[0], pair[1]];
  }

  lemma InsertTwo(changes: seq<StateChange>, x: StateChange, y: StateChange)
    requires x.id != y.id && forall z :: z in changes ==> z.id != x.id && z.id != y.id
    ensures InsertChange(InsertChange(changes, x), y) == changes + [x, y]
  {
  }

  lemma ConflictsOfNext(claim: Claim, priors: seq<Claim>, p: Claim, at: int)
    ensures ContradictedChanges(claim, Conflicts(claim, priors + [p]), at) ==
      ContradictedChanges(claim, Conflicts(claim, priors), at)
      + if Conflicting(claim, p) then ContradictedPair(claim, p, at) else []
    ensures ContradictionRows(claim, Conflicts(claim, priors + [p]), at) ==
      ContradictionRows(claim, Conflicts(claim, priors), at)
      + if Conflicting(claim, p) then [ContradictionRow(claim, p, at)] else []
    ensures Ids(Agreements(claim, priors + [p])) == Ids(Agreements(claim, priors)) + if Agreeing(claim, p) then [p.id]
      else []
  {
    hide ContradictionRow, ContradictedPair, Conflicting, Agreeing, ContradictedChanges, ContradictionRows, Ids;
    assert (priors + [p])[..|priors|] == priors;
    var conflicts, agreements := Conflicts(claim, priors), Agreements(claim, priors);
    assert Conflicts(claim, priors + [p]) == conflicts + if Conflicting(claim, p) then [p] else [];
    assert Agreements(claim, priors + [p]) == agreements + if Agreeing(claim, p) then [p] else [];
    hide Conflicts, Agreements;
    assert conflicts + [] == conflicts && agreements + [] == agreements;
    RowsOfNext(claim, conflicts, p, at);
    IdsOfNext(agreements, p);
  }

  lemma RowsOfNext(claim: Claim, conflicts: seq<Claim>, p: Claim, at: int)
    ensures ContradictedChanges(claim, conflicts + [p], at) ==
      ContradictedChanges(claim, conflicts, at) + ContradictedPair(claim, p, at)
    ensures ContradictionRows(claim, conflicts + [p], at) ==
      ContradictionRows(claim, conflicts, at) + [ContradictionRow(claim, p, at)]
  {
    hide ContradictionRow, ContradictedPair;
    assert (conflicts + [p])[..|conflicts|] == conflicts;
  }

  lemma IdsOfNext(claims: seq<Claim>, p: Claim)
    ensures Ids(claims + [p]) == Ids(claims) + [p.id]
  {
    assert (claims + [p])[..|claims|] == claims;
  }

  lemma RelationEdgesOfOne(claim: Claim, p: Claim)
    ensures RelationEdges(claim, [p]) ==
      if Agreeing(claim, p) then {ClaimEdge(claim.caseId, claim.id, Corroborates, p.id)}
      else if Conflicting(claim, p) then
        {ClaimEdge(claim.caseId, claim.id, Contradicts, p.id)} + {ClaimEdge(claim.caseId, p.id, Contradicts, claim.id)}
      else {}
  {
    RelationEdgesMembers(claim, [p]);
    hide RelationEdges;
  }

  /** The live priors are the same whether or not the claim itself is stored. */
  lemma PriorsBeforeInsertion(t: Tables, u: Tables, claim: Claim)
    requires ClaimsKeyed(t) && claim.id !in t.claims && u.claims == t.claims[claim.id := claim]
      && u.changes == t.changes
    ensures ClaimsKeyed(u) && OrderedPriors(u, claim) == OrderedPriors(t, claim)
  {
    assert forall c | c in t.claims :: CurrentState(u, c) == CurrentState(t, c);
    hide CurrentState;
    assert LivePriors(u, claim) == LivePriors(t, claim);
  }

  lemma NewAgreement(t: Tables, q: ClaimRequest, priors: seq<Claim>, p: Claim)
    requires EdgesOk(t) && q.claim !in t.claims
    ensures var claim := ExternalClaim(q);
      var edges, e := InsertEdge(t.edges, SupportEdge(q)) + RelationEdges(claim, priors),
        ClaimEdge(claim.caseId, claim.id, Corroborates, p.id);
      InsertEdge(edges, e) == edges + {e}
  {
    var claim := ExternalClaim(q);
    DerivedEdgeIsNew(t, q, priors, ClaimEdge(claim.caseId, claim.id, Corroborates, p.id));
  }

  lemma NewConflict(t: Tables, q: ClaimRequest, priors: seq<Claim>, p: Claim)
    requires EdgesOk(t) && ContradictionsOk(t) && ChangesOk(t) && q.claim !in t.claims && p !in priors
    requires forall x :: x in priors + [p] ==> x.id in t.claims && t.claims[x.id] == x
    ensures var claim := ExternalClaim(q); var edges := InsertEdge(t.edges, SupportEdge(q))
      + RelationEdges(claim, priors);
      var there, back := ClaimEdge(claim.caseId, claim.id, Contradicts, p.id),
        ClaimEdge(claim.caseId, p.id, Contradicts, claim.id);
      InsertEdge(InsertEdge(edges, there), back) == edges + {there} + {back}
    ensures var rows, k := t.contradictions + ContradictionSet(ExternalClaim(q), priors, q.at),
      ContradictionRow(ExternalClaim(q), p, q.at);
      InsertContradiction(rows, k) == rows + {k} && forall x :: x in rows + {k} && x.id == k.id ==> x == k
    ensures var changes := t.changes + ContradictedChanges(ExternalClaim(q), Conflicts(ExternalClaim(q), priors), q.at);
      var row := ContradictionRow(ExternalClaim(q), p, q.at);
      InsertChange(InsertChange(changes, StateChange(ContradictedId(row.id, row.a), row.a, Contradicted, q.at)),
        StateChange(ContradictedId(row.id, row.b), row.b, Contradicted, q.at)) == changes
          + ContradictedPair(ExternalClaim(q), p, q.at)
  {
    assert p in priors + [p];
    hide EdgesOk, ContradictionsOk, ChangesOk, RelationEdges, ContradictionSet, InsertEdge, InsertContradiction,
      InsertChange, ContradictionRow;
    EdgePairIsNew(t, q, priors, p);
    ContradictionIsNew(t, q, priors, p);
    ChangesAreNew(t, q, priors, p);
  }

  ghost predicate StoredPriors(t: Tables, priors: seq<Claim>) {
    && (forall p :: p in priors ==> p.id in t.claims && t.claims[p.id] == p)
    && forall i | 0 <= i < |priors| :: priors[i] !in priors[..i]
  }

  /** The priors are stored claims, none listed twice. */
  lemma PriorsAreStored(t: Tables, claim: Claim)
    requires ClaimsKeyed(t)
    ensures var priors := OrderedPriors(t, claim);
      StoredPriors(t, priors)
  {
    hide OrderedPriors;
    var priors := OrderedPriors(t, claim);
    assert Sorted(priors, ClaimLess);
    forall i, j | 0 <= i < j < |priors|
      ensures priors[i] != priors[j]
    {
      TextLessTrichotomy(priors[i].id, priors[j].id);
      assert ClaimLess(priors[i], priors[j]);
    }
  }

  /** The rows and results of relating a new claim to the priors seen so far. */
  datatype Progress = Progress(
    edges: set<Edge>, rows: set<Contradiction>, changes: seq<StateChange>, contradictions: seq<Contradiction>,
      corroborates: seq<Id>)

  function Related(t: Tables, q: ClaimRequest, seen: seq<Claim>): Progress {
    var claim := ExternalClaim(q);
    Progress(
      InsertEdge(t.edges, SupportEdge(q)) + RelationEdges(claim, seen),
      t.contradictions + ContradictionSet(claim, seen, q.at),
      t.changes + ContradictedChanges(claim, Conflicts(claim, seen), q.at),
      ContradictionRows(claim, Conflicts(claim, seen), q.at),
      Ids(Agreements(claim, seen)))
  }

  /** What one more prior adds. */
  lemma NextPrior(t: Tables, q: ClaimRequest, seen: seq<Claim>, p: Claim)
    ensures var claim, before, after := ExternalClaim(q), Related(t, q, seen), Related(t, q, seen + [p]);
      && (!Agreeing(claim, p) && !Conflicting(claim, p) ==> after == before)
      && (Agreeing(claim, p) ==>
           after == before.(edges := before.edges + {ClaimEdge(claim.caseId, claim.id, Corroborates, p.id)},
                            corroborates := before.corroborates + [p.id]))
      && (Conflicting(claim, p) ==>
           after == Progress(
             before.edges + {ClaimEdge(claim.caseId, claim.id, Contradicts, p.id)}
               + {ClaimEdge(claim.caseId, p.id, Contradicts, claim.id)},
             before.rows + {ContradictionRow(claim, p, q.at)}, before.changes + ContradictedPair(claim, p, q.at),
             before.contradictions + [ContradictionRow(claim, p, q.at)], before.corroborates))
  {
    var claim := ExternalClaim(q);
    RelationEdgesOfNext(claim, seen, p);
    RelationEdgesOfOne(claim, p);
    ContradictionSetOfNext(claim, seen, p, q.at);
    ConflictsOfNext(claim, seen, p, q.at);
    hide RelationEdges, InsertEdge, ContradictionSet, ContradictedChanges, SupportEdge, ClaimEdge, ContradictionRow,
      ContradictedPair,
      Conflicts, Agreements, ContradictionRows, Ids;
  }

  /** Compares a new claim with the live priors on its key one by one and relates it to each. The
      result is that of relating it to all of them at once. */
  method RelatePriors(t: Tables, q: ClaimRequest, priors: seq<Claim>) returns (d: Progress)
    requires EdgesOk(t) && ContradictionsOk(t) && ChangesOk(t) && q.claim !in t.claims && StoredPriors(t, priors)
    ensures d == Related(t, q, priors)
  {
    hide InsertEdge, RelationEdges, ContradictionSet, ContradictedChanges, SupportEdge, EdgesOk, ContradictionsOk,
      ChangesOk,
      InsertContradiction, InsertChange, ClaimEdge, ContradictionRow, ContradictedPair, Conflicts, Agreements,
        ContradictionRows, Ids;
    var claim := ExternalClaim(q);
    NoPriors(claim, q.at);
    d := Progress(InsertEdge(t.edges, SupportEdge(q)), t.contradictions, t.changes, [], []);
    for i := 0 to |priors|
      invariant d == Related(t, q, priors[..i])
    {
      var prior := priors[i];
      assert priors[..i + 1] == priors[..i] + [prior];
      NextPrior(t, q, priors[..i], prior);
      if claim.value.Known? && prior.value.Known? {
        if prior.value == claim.value {
          NewAgreement(t, q, priors[..i], prior);
          hide Related;
          d := d.(edges := InsertEdge(d.edges, ClaimEdge(claim.caseId, claim.id, Corroborates, prior.id)),
                  corroborates := d.corroborates + [prior.id]);
        } else {
          NewConflict(t, q, priors[..i], prior);
          hide Related;
          var row := ContradictionRow(claim, prior, q.at);
          var rows := InsertContradiction(d.rows, row);
          var stored :| stored in rows && stored.id == row.id;
          var there, back := ClaimEdge(claim.caseId, claim.id, Contradicts, prior.id),
            ClaimEdge(claim.caseId, prior.id, Contradicts, claim.id);
          var changes := InsertChange(d.changes, StateChange(ContradictedId(row.id, row.a), row.a, Contradicted, q.at));
          d := Progress(
            InsertEdge(InsertEdge(d.edges, there), back), rows,
            InsertChange(changes, StateChange(ContradictedId(row.id, row.b), row.b, Contradicted, q.at)),
            d.contradictions + [stored], d.corroborates);
        }
      }
    }
    assert priors[..|priors|] == priors;
  }

  lemma NoPriors(claim: Claim, at: int)
    ensures RelationEdges(claim, []) == {} && ContradictionSet(claim, [], at) == {}
      && ContradictedChanges(claim, Conflicts(claim, []), at) == []
    ensures ContradictionRows(claim, Conflicts(claim, []), at) == [] && Ids(Agreements(claim, [])) == []
  {
  }

  // ---- Queries for single rows ----

  method FindObligation(rows: map<Id, Obligation>, evaluation: Id,
    ghost evaluations: set<Id>) returns (r: Option<Obligation>)
    requires ObligationsOk(rows, evaluations)
    ensures r == ObligationFor(rows, evaluation)
  {
    if !exists o :: o in rows && rows[o].evaluation == evaluation { return None; }
    var o :| o in rows && rows[o].evaluation == evaluation;
    r := Some(rows[o]);
  }

  method FindDeadline(rows: map<Id, DeadlineRow>, obligation: Id,
    ghost obligations: set<Id>) returns (r: Option<DeadlineRow>)
    requires DeadlinesOk(rows, obligations)
    ensures r == DeadlineFor(rows, obligation)
  {
    if !exists d :: d in rows && rows[d].obligation == obligation { return None; }
    var d :| d in rows && rows[d].obligation == obligation;
    r := Some(rows[d]);
  }

  method FindTask(rows: map<Id, WorkflowTask>, obligation: Id,
    ghost obligations: set<Id>) returns (r: Option<WorkflowTask>)
    requires TasksOk(rows, obligations)
    ensures r == TaskFor(rows, obligation)
  {
    if !exists k :: k in rows && rows[k].obligation == obligation { return None; }
    var k :| k in rows && rows[k].obligation == obligation;
    r := Some(rows[k]);
  }

  /** The uses of evidence of an evaluation, one row per distinct evidence record. */
  method InsertUses(uses: set<(Id, Id)>, e: Evaluation) returns (more: set<(Id, Id)>)
    ensures more == uses + UsesOf(e)
  {
    var evidence := ListedTexts(set i, ev | i in e.inputs && ev in i.evidence :: ev);
    more := uses;
    for k := 0 to |evidence|
      invariant forall u :: u in more <==> u in uses || (u.0 == e.id && u.1 in evidence[..k])
    {
      assert evidence[..k + 1] == evidence[..k] + [evidence[k]];
      more := more + {(e.id, evidence[k])};
    }
    assert evidence[..|evidence|] == evidence;
  }

  /** Inserts the rows of a materialisation, table by table, unless one of them is refused. */
  method InsertRows(t: Tables, m: Materialization, audit: Id) returns (r: Option<Tables>)
    requires m.deadline.Some? ==> HasDates(m.deadline.value)
    ensures r == if Clashes(t, m, audit) then None else Some(WithRows(t, m, audit))
  {
    hide HasDates, RowOf, UsesOf;
    if AuditRow(audit) in t.log || m.evaluation.caseId !in t.cases || m.evaluation.id in t.evaluations { return None; }
    var evaluations := t.evaluations[m.evaluation.id := m.evaluation];
    var uses := InsertUses(t.uses, m.evaluation);
    var obligations, deadlines, tasks := t.obligations, t.deadlines, t.tasks;
    if m.obligation.Some? {
      if m.obligation.value.id in obligations { return None; }
      obligations := obligations[m.obligation.value.id := m.obligation.value];
    }
    if m.deadline.Some? {
      if m.deadline.value.id in deadlines { return None; }
      deadlines := deadlines[m.deadline.value.id := RowOf(m.deadline.value)];
    }
    if m.work.Some? {
      if m.work.value.id in tasks { return None; }
      tasks := tasks[m.work.value.id := m.work.value];
    }
    r := Some(t.(evaluations := evaluations, uses := uses, obligations := obligations, deadlines := deadlines,
      tasks := tasks,
      log := t.log + {AuditRow(audit)}));
  }

  /** The inserts of a review, up to the first that is refused. */
  method InsertReview(t: Tables, q: ReviewRequest) returns (u: Tables, r: Result<()>)
    ensures (u, r) == ReviewClaim(t, q)
    ensures r.Err? ==> u == t
  {
    hide InsertChange;
    u := t;
    if q.claim !in t.claims { return u, Err(NotFound); }
    if q.decision == Correct { return u, Err(InvalidInput); }
    if !(ReviewRows(q) !! t.log) { return u, Err(Conflict); }
    var changes := InsertChange(t.changes, StateChange(Generated(q.change), q.claim, DecidedState(q.decision), q.at));
    var facts := t.facts;
    if q.decision == Verify {
      if q.claim in facts || exists f :: f in facts && facts[f].id == q.fact { return u, Err(Conflict); }
      facts := facts[q.claim := Fact(q.fact, q.claim, t.claims[q.claim].value)];
    }
    u := t.(changes := changes, facts := facts, log := t.log + ReviewRows(q));
    r := Ok(());
  }

  /** The inserts of a correction, up to the first that is refused. */
  method InsertCorrection(t: Tables, q: CorrectionRequest) returns (u: Tables, r: Result<Correction>)
    ensures (u, r) == CorrectClaim(t, q)
    ensures r.Err? ==> u == t
  {
    hide InsertChange, InsertEdge, Affected, ClaimEdge, CorrectedClaim, CorrectionRows;
    u := t;
    if q.original !in t.claims { return u, Err(NotFound); }
    var claim := CorrectedClaim(t, q);
    if !(CorrectionRows(q) !! t.log) || q.corrected in t.claims { return u, Err(Conflict); }
    var affected := Affected(t, q.original);
    if q.correction in t.corrections { return u, Err(Conflict); }
    var correction := Correction(q.correction, q.original, q.corrected, affected);
    var changes := InsertChange(t.changes, StateChange(Generated(q.originalChange), q.original, Superseded, q.at));
    changes := InsertChange(changes, StateChange(Generated(q.correctedChange), q.corrected, Verified, q.at));
    var edge := ClaimEdge(t.claims[q.original].caseId, q.corrected, Supersedes, q.original);
    u := t.(claims := t.claims[q.corrected := claim], corrections := t.corrections[q.correction := correction],
            changes := changes, edges := InsertEdge(t.edges, edge), log := t.log + CorrectionRows(q));
    r := Ok(correction);
  }

  class SqliteEvidenceRepository {
    var tables: Tables

    ghost predicate Valid()
      reads this
    {
      Inv(tables)
    }

    constructor ()
      ensures Valid() && tables == EMPTY
    {
      tables := EMPTY;
      new;
      EmptyIsValid();
    }

    method RecordClaim(q: ClaimRequest) returns (r: Result<ClaimResult>)
      requires Valid() && Admissible(tables, Record(q))
      modifies this
      ensures Valid() && (tables, r) == Evidence.RecordClaim(old(tables), q)
    {
      hide EdgesOk, ContradictionsOk, SupportOk, RelationsOk, FactsOk, EvaluationsOk, Admissible;
      var claim := ExternalClaim(q);
      StepKeepsInv(tables, Record(q));
      hide OrderedPriors;
      if q.caseId !in tables.cases { return Err(NotFound); }
      if !(RecordRows(q) !! tables.log) || q.claim in tables.claims
        || q.evidence in tables.evidence { return Err(Conflict); }
      var draft := tables.(claims := tables.claims[q.claim := claim], evidence := tables.evidence + {q.evidence});
      PriorsBeforeInsertion(tables, draft, claim);
      PriorsAreStored(tables, claim);
      var priors := OrderedPriors(draft, claim);
      var d := RelatePriors(tables, q, priors);
      hide Inv, InsertEdge, RelationEdges, ContradictionSet, ContradictedChanges, Conflicts;
      tables := draft.(edges := d.edges, contradictions := d.rows, changes := d.changes,
        log := draft.log + RecordRows(q));
      r := Ok(ClaimResult(claim, d.contradictions, d.corroborates));
    }

    method CreateCase(caseId: Id, audit: Id) returns (r: Result<()>)
      requires Valid()
      modifies this
      ensures Valid() && (tables, r) == Evidence.CreateCase(old(tables), caseId, audit)
    {
      StepKeepsInv(tables, OpenCase(caseId, audit));
      hide Inv;
      if caseId in tables.cases || AuditRow(audit) in tables.log { return Err(Conflict); }
      tables := tables.(cases := tables.cases + {caseId}, log := tables.log + {AuditRow(audit)});
      r := Ok(());
    }

    /** Appends the decided state, and for a verification the fact, all or nothing. */
    method ReviewClaim(q: ReviewRequest) returns (r: Result<()>)
      requires Valid() && Admissible(tables, Review(q))
      modifies this
      ensures Valid() && (tables, r) == Evidence.ReviewClaim(old(tables), q)
    {
      hide EdgesOk, SupportOk, ContradictionsOk, RelationsOk, ChangesOk, FactsOk, EvaluationsOk, Admissible,
        Evidence.ReviewClaim;
      StepKeepsInv(tables, Review(q));
      hide Inv;
      var draft;
      draft, r := InsertReview(tables, q);
      if r.Ok? { tables := draft; }
    }

    /** Appends the corrected claim, supersedes the original, and reports the evaluations found
        through the evidence of the original. */
    method CorrectClaim(q: CorrectionRequest) returns (r: Result<Correction>)
      requires Valid() && Admissible(tables, CorrectOp(q))
      modifies this
      ensures Valid() && (tables, r) == Evidence.CorrectClaim(old(tables), q)
    {
      hide EdgesOk, SupportOk, ContradictionsOk, RelationsOk, ChangesOk, FactsOk, EvaluationsOk, Admissible,
        Evidence.CorrectClaim;
      StepKeepsInv(tables, CorrectOp(q));
      hide Inv;
      var draft;
      draft, r := InsertCorrection(tables, q);
      if r.Ok? { tables := draft; }
    }

    method RegisterRule(v: RuleVersion, rule: Id, audit: Id) returns (r: Result<RuleVersion>)
      requires Valid()
      modifies this
      ensures Valid() && (tables, r) == Evidence.RegisterRule(old(tables), v, rule, audit)
    {
      StepKeepsInv(tables, Register(v, rule, audit));
      hide Inv;
      var registered := exists x ::
        x in tables.versions && tables.versions[x].package == v.package && tables.versions[x].key == v.key;
      if registered {
        return Err(Conflict);
      }
      if !({RuleRow(rule), AuditRow(audit)} !! tables.log) || v.id in tables.versions { return Err(Conflict); }
      tables := tables.(versions := tables.versions[v.id := v], log := tables.log + {RuleRow(rule), AuditRow(audit)});
      r := Ok(v);
    }

    /** The claims of a case in order of creation. */
    method ListClaims(caseId: Id) returns (claims: seq<Claim>)
      requires Valid()
      ensures IsListing(tables, caseId, claims)
    {
      assert ClaimsKeyed(tables);
      hide Inv, ClaimLess;
      CaseClaims(tables, caseId);
      claims := Listed(CaseClaimSet(tables, caseId), ClaimLess);
    }

    /** Claims listed before, each with its current state and evidence. */
    method GroundClaims(claims: seq<Claim>) returns (grounded: seq<GroundedClaim>)
      requires Valid() && AreStored(tables, claims)
      ensures |grounded| == |claims| && Grounds(tables, claims, grounded)
    {
      grounded := GroundEach(tables, claims);
    }

    /** The claims of a case in order of creation, each once, with its current state and evidence. */
    method ListGroundedClaims(caseId: Id) returns (grounded: seq<GroundedClaim>)
      requires Valid()
      ensures Members(grounded) == Grounded(tables, caseId) && DistinctClaims(grounded)
      ensures forall i, j :: 0 <= i < j < |grounded| ==> ClaimLess(grounded[i].claim, grounded[j].claim)
    {
      assert ClaimsKeyed(tables);
      hide Inv, ClaimLess, Grounds, Members, DistinctClaims, Grounded;
      var claims := ListClaims(caseId);
      grounded := GroundClaims(claims);
      ListingIsComplete(tables, tables, caseId, claims, grounded);
      GroundedIsAmong(tables, caseId);
    }

    /** Joins an evaluation with its rows. */
    method LoadWorkflow(evaluation: Id) returns (r: Result<Materialization>)
      requires Valid() && evaluation in tables.evaluations
      ensures r == Evidence.LoadWorkflow(tables, evaluation)
    {
      hide LinksOk, FactsOk, StoredOk, MemosUnique, UsesOk, ObligationsOk, DeadlinesOk, TasksOk, ObligationFor,
        DeadlineFor, TaskFor, DeadlineOf;
      var e := tables.evaluations[evaluation];
      var obligation := FindObligation(tables.obligations, evaluation, tables.evaluations.Keys);
      if obligation.None? { return Ok(Materialization(e, None, None, None)); }
      var row := FindDeadline(tables.deadlines, obligation.value.id, tables.obligations.Keys);
      var work := FindTask(tables.tasks, obligation.value.id, tables.obligations.Keys);
      if row.None? { return Ok(Materialization(e, obligation, None, work)); }
      match DeadlineOf(row.value)
      case Err(error) => r := Err(error);
      case Ok(deadline) => r := Ok(Materialization(e, obligation, Some(deadline), work));
    }

    /** Inserts the rows of a new materialisation, or returns the one remembered for its inputs. Rows
        of any other origin than the rule service would not keep the invariant; `ConcludeRule`, the
        only caller, restores it. */
    method RecordEvaluation(m: Materialization, audit: Id) returns (r: Result<Materialization>)
      requires Valid() && (m.deadline.Some? ==> HasDates(m.deadline.value))
      modifies this
      ensures (tables, r) == Evidence.RecordEvaluation(old(tables), m, audit)
    {
      hide LinksOk, FactsOk, StoredOk, RowsOk, UsesOk, WithRows, Clashes, Evidence.LoadWorkflow;
      var evaluation := m.evaluation;
      var remembered := exists e ::
        e in tables.evaluations && IsMemo(tables, e, evaluation.caseId, evaluation.version, evaluation.inputs);
      if remembered {
        var e :| e in tables.evaluations && IsMemo(tables, e, evaluation.caseId, evaluation.version, evaluation.inputs);
        r := LoadWorkflow(e);
        return;
      }
      hide Inv;
      var draft := InsertRows(tables, m, audit);
      if draft.None? { return Err(Conflict); }
      tables := draft.value;
      r := Ok(m);
    }
  }

  /** The listed claims, as far as they are grounded yet. */
  ghost predicate Grounds(t: Tables, claims: seq<Claim>, grounded: seq<GroundedClaim>) {
    |grounded| <= |claims| && forall k :: 0 <= k < |grounded| ==>
      claims[k].id in t.claims && t.claims[claims[k].id] == claims[k] && grounded[k] == Grounding(t, claims[k].id)
  }

  ghost predicate AreStored(t: Tables, claims: seq<Claim>) {
    forall c :: c in claims ==> c.id in t.claims && t.claims[c.id] == c
  }

  method GroundEach(t: Tables, claims: seq<Claim>) returns (grounded: seq<GroundedClaim>)
    requires AreStored(t, claims)
    ensures Grounds(t, claims, grounded) && |grounded| == |claims|
  {
    hide CurrentState, EvidenceOf;
    grounded := [];
    for i := 0 to |claims|
      invariant |grounded| == i && Grounds(t, claims, grounded)
    {
      assert claims[i] in claims;
      grounded := grounded + [GroundedClaim(claims[i], CurrentState(t, claims[i].id), EvidenceOf(t, claims[i].id))];
    }
  }

  function CaseClaimSet(t: Tables, caseId: Id): set<Claim> {
    set c | c in t.claims && t.claims[c].caseId == caseId :: t.claims[c]
  }

  /** Exactly the claims of a case, in order of creation. */
  ghost predicate IsListing(t: Tables, caseId: Id, claims: seq<Claim>) {
    && Sorted(claims, ClaimLess)
    && forall c :: c in claims <==> c.id in t.claims && t.claims[c.id] == c && c.caseId == caseId
  }

  lemma CaseClaims(t: Tables, caseId: Id)
    requires ClaimsKeyed(t)
    ensures OrdersOn(CaseClaimSet(t, caseId), ClaimLess)
    ensures forall c ::
      c in CaseClaimSet(t, caseId) <==> c.id in t.claims && t.claims[c.id] == c && c.caseId == caseId
  {
    ClaimsOrdered(CaseClaimSet(t, caseId));
  }

  lemma GroundedIsAmong(t: Tables, caseId: Id)
    ensures Grounded(t, caseId) == GroundedAmong(t, t, caseId)
  {
    hide Grounding;
  }

  /** No claim of the listing has changed since. */
  ghost predicate ClaimsStay(listed: Tables, t: Tables) {
    forall c | c in listed.claims :: c in t.claims && t.claims[c] == listed.claims[c]
  }

  lemma ListingIsComplete(
    listed: Tables, t: Tables, caseId: Id, claims: seq<Claim>, grounded: seq<GroundedClaim>)
    requires ClaimsKeyed(listed) && ClaimsStay(listed, t) && IsListing(listed, caseId, claims)
    requires |grounded| == |claims| && Grounds(t, claims, grounded)
    ensures Members(grounded) == GroundedAmong(listed, t, caseId) && DistinctClaims(grounded)
    ensures forall i, j :: 0 <= i < j < |grounded| ==> ClaimLess(grounded[i].claim, grounded[j].claim)
  {
    hide CurrentState, EvidenceOf;
    forall i, j | 0 <= i < j < |grounded|
      ensures grounded[i].claim.id != grounded[j].claim.id && ClaimLess(grounded[i].claim, grounded[j].claim)
    {
      TextLessTrichotomy(claims[i].id, claims[j].id);
      assert ClaimLess(claims[i], claims[j]);
      assert claims[i] in claims && claims[j] in claims;
    }
    forall g | g in GroundedAmong(listed, t, caseId)
      ensures g in Members(grounded)
    {
      assert g.claim in claims;
      var k :| 0 <= k < |claims| && claims[k] == g.claim;
      assert grounded[k] == g;
    }
    forall g | g in grounded
      ensures g in GroundedAmong(listed, t, caseId)
    {
      var k :| 0 <= k < |grounded| && grounded[k] == g;
      assert claims[k] in claims;
    }
  }

  /** What judged inputs cause: the evaluation, and for a satisfied rule its obligation, deadline and task. */
  method Consequences(def: Definition, inputs: seq<RuleInput>, judgement: Judgement, q: EvaluationRequest)
    returns (r: Result<Materialization>)
    requires ClaimsDiffer(Members(inputs)) && inputs == Recorded(Members(inputs))
      && judgement == Judge(def, Members(inputs))
    ensures r == Materialize(def, Members(inputs), q)
  {
    hide Judge, DueDate, Recorded, Members, ClaimsDiffer;
    var evaluation := Evaluation(q.evaluation, q.caseId, q.version, inputs, judgement.verdict, judgement.explanation,
      q.at, q.correlation);
    var due := DueDate(def, judgement);
    if due.Err? { return Err(due.error); }
    if due.value.None? { return Ok(Materialization(evaluation, None, None, None)); }
    var (anchor, day) := due.value.value;
    var obligation := Obligation(
      q.obligation, q.caseId, q.evaluation, def.effect.kind, def.effect.description, q.at);
    var deadline := Deadline(
      q.deadline, q.caseId, q.obligation, Some(day), Some(day), anchor, def.effect.daysAfter, def.effect.anchor, q.at);
    var work := WorkflowTask(q.work, q.caseId, q.obligation, def.effect.title, q.at);
    r := Ok(Materialization(evaluation, Some(obligation), Some(deadline), Some(work)));
  }

  /** The rule version and the judged inputs of a question, read from a listing and later tables. */
  ghost function Read(listed: Tables, t: Tables, q: EvaluationRequest): Result<(Definition, seq<RuleInput>, Judgement)>
    requires ClaimsKeyed(t)
  {
    if q.version !in t.versions then Err(NotFound)
    else
      ReadsDiffer(listed, t, q);
      var def, inputs := t.versions[q.version].definition, ReadInputs(listed, t, q);
      Ok((def, Recorded(inputs), Judge(def, inputs)))
  }

  class RuleWorkflowService {
    const repository: SqliteEvidenceRepository

    constructor (repository: SqliteEvidenceRepository)
      ensures this.repository == repository
    {
      this.repository := repository;
    }

    /** Grounds claims listed before, collects the verified ones a rule version concerns, and judges
        them. Other operations may have come since the listing. */
    method CollectInputs(claims: seq<Claim>, ghost listed: Tables, q: EvaluationRequest)
      returns (r: Result<(Definition, seq<RuleInput>, Judgement)>)
      requires repository.Valid() && ClaimsKeyed(listed) && ClaimsStay(listed, repository.tables)
      requires IsListing(listed, q.caseId, claims)
      ensures ClaimsKeyed(repository.tables) && r == Read(listed, repository.tables, q)
    {
      assert ClaimsKeyed(repository.tables);
      hide Inv, Judge, Recorded, Grounds, Members, DistinctClaims, GroundedAmong, RelevantInputs;
      if q.version !in repository.tables.versions { return Err(NotFound); }
      var def := repository.tables.versions[q.version].definition;
      assert AreStored(repository.tables, claims);
      var grounded := repository.GroundClaims(claims);
      ListingIsComplete(listed, repository.tables, q.caseId, claims, grounded);
      var inputs, judgement := Collect(def, grounded);
      r := Ok((def, inputs, judgement));
    }

    /** Materialises the consequences of inputs judged before, and stores them unless they are
        remembered. Other operations may have come since the inputs were read. */
    method ConcludeRule(def: Definition, inputs: seq<RuleInput>, judgement: Judgement, q: EvaluationRequest)
      returns (r: Result<Materialization>)
      requires repository.Valid() && InputsFit(repository.tables, Members(inputs), q)
      requires def == repository.tables.versions[q.version].definition && inputs == Recorded(Members(inputs))
      requires judgement == Judge(def, Members(inputs))
      modifies repository
      ensures repository.Valid() && (repository.tables, r) == Conclude(old(repository.tables), Members(inputs), q)
    {
      hide EdgesOk, SupportOk, ContradictionsOk, RelationsOk, ChangesOk, FactsOk, EvaluationsOk, Materialize, Judge,
        Recorded, Evidence.RecordEvaluation, InputOk, Members;
      StepKeepsInv(repository.tables, ConcludeOp(Members(inputs), q));
      hide Inv;
      var m := Consequences(def, inputs, judgement, q);
      if m.Err? { return Err(m.error); }
      MaterializedDates(def, Members(inputs), q);
      r := repository.RecordEvaluation(m.value, q.audit);
    }

    /** An evaluation that nothing comes between. */
    method EvaluateRule(q: EvaluationRequest) returns (r: Result<Materialization>)
      requires repository.Valid()
      modifies repository
      ensures repository.Valid() && (repository.tables, r) == Evaluate(old(repository.tables), q)
    {
      ghost var t := repository.tables;
      assert ClaimsKeyed(t);
      hide Inv, Evaluate, Conclude, Recorded, Judge, ReadInputs, CurrentInputs, InputOk, IsListing;
      EvaluateUnknown(t, q);
      var claims := repository.ListClaims(q.caseId);
      var read := CollectInputs(claims, t, q);
      if read.Err? { return Err(read.error); }
      var (def, inputs, judgement) := read.value;
      PartsForEvaluating(t, q);
      ReadsOfOneState(t, q);
      r := ConcludeRule(def, inputs, judgement, q);
    }
  }

  lemma EvaluateUnknown(t: Tables, q: EvaluationRequest)
    requires ClaimsKeyed(t)
    ensures q.version !in t.versions ==> Evaluate(t, q) == (t, Err(NotFound))
  {
  }

  /** No claim is read twice. */
  lemma ReadsDiffer(listed: Tables, t: Tables, q: EvaluationRequest)
    requires q.version in t.versions && ClaimsKeyed(t)
    ensures ClaimsDiffer(ReadInputs(listed, t, q))
  {
    hide CurrentState, EvidenceOf, Relevant;
  }
}
