/** Claims and the links between them: support, corroboration, contradiction, state changes.
    What every operation keeps about them. */
module Links {
  import opened Wrappers
  import opened Ordering
  import opened Values
  import opened Records
  import opened Evidence
  import opened Operations

  // ---- Invariants of claims and the links between them ----

  ghost predicate ClaimsOk(t: Tables) {
    ClaimsKeyed(t) && forall c | c in t.claims ::
      && t.claims[c].caseId in t.cases
      && (t.claims[c].origin == External || t.claims[c].origin == Human)
      && (t.claims[c].origin == External ==> t.claims[c].initial == Extracted)
  }

  /** A change identifier was generated, or derives from a contradiction of known claims. */
  ghost predicate ChangeIdOk(t: Tables, id: RowId) {
    id.Generated?
    || (id.ContradictedId? && id.contradiction.ContradictionId? && id.contradiction.a in t.claims
       && id.contradiction.b in t.claims)
  }

  ghost predicate ChangesOk(t: Tables) {
    forall x | x in t.changes :: x.claim in t.claims && ChangeIdOk(t, x.id)
  }

  ghost predicate EdgesOk(t: Tables) {
    forall e | e in t.edges ::
      && e.source in t.claims && e.caseId == t.claims[e.source].caseId
      && if e.relation == SupportedBy then e.id.Generated? && e.target in t.evidence
         else e.target in t.claims && e.id == EdgeId(e.source, e.relation, e.target)
  }

  ghost predicate IsSupport(t: Tables, e: Edge) { e in t.edges && e.relation == SupportedBy }

  /** Every external claim has exactly one evidence record of its own; no other claim has any. */
  ghost predicate SupportOk(t: Tables) {
    && (forall e, f | IsSupport(t, e) && IsSupport(t, f) :: e.target == f.target <==> e.source == f.source)
    && (forall c | c in t.claims :: t.claims[c].origin == External <==> exists e :: IsSupport(t, e) && e.source == c)
  }

  ghost predicate Comparable(t: Tables, a: Id, b: Id) {
    && a in t.claims && b in t.claims && a != b && t.claims[a].SameKey(t.claims[b])
    && t.claims[a].value.Known? && t.claims[b].value.Known?
  }

  /** Each contradiction joins once, the smaller identifier first, two claims on the same key with
      unequal known values, and has edges both ways. */
  ghost predicate ContradictionsOk(t: Tables) {
    && (forall k | k in t.contradictions ::
         && k.id == ContradictionId(k.a, k.b) && TextLess(k.a, k.b)
         && Comparable(t, k.a, k.b) && t.claims[k.a].value != t.claims[k.b].value
         && k.caseId == t.claims[k.a].caseId
         && ClaimEdge(k.caseId, k.a, Contradicts, k.b) in t.edges
         && ClaimEdge(k.caseId, k.b, Contradicts, k.a) in t.edges)
    && (forall k, l | k in t.contradictions && l in t.contradictions :: k.a == l.a && k.b == l.b ==> k == l)
  }

  ghost predicate RelationsOk(t: Tables) {
    forall e | e in t.edges ::
      && (e.relation == Corroborates ==>
         Comparable(t, e.source, e.target) && t.claims[e.source].value == t.claims[e.target].value)
      && (e.relation == Contradicts ==>
         Comparable(t, e.source, e.target) && t.claims[e.source].value != t.claims[e.target].value)
  }

  ghost predicate LinksOk(t: Tables) {
    ClaimsOk(t) && ChangesOk(t) && EdgesOk(t) && SupportOk(t) && ContradictionsOk(t) && RelationsOk(t)
  }

  // ---- Recording a claim ----

  lemma {:induction false} ConflictsMembers(claim: Claim, priors: seq<Claim>)
    ensures forall p :: p in Conflicts(claim, priors) <==> p in priors && Conflicting(claim, p)
    ensures forall p :: p in Agreements(claim, priors) <==> p in priors && Agreeing(claim, p)
  {
    if priors != [] {
      ConflictsMembers(claim, priors[..|priors| - 1]);
      assert priors == priors[..|priors| - 1] + [priors[|priors| - 1]];
    }
  }

  /** A change to contradicted of either claim of a pair, under the name of their contradiction. */
  predicate IsPairChange(claim: Claim, prior: Claim, at: int, x: StateChange) {
    && (x.claim == claim.id || x.claim == prior.id)
    && x == StateChange(ContradictedId(ContradictionRow(claim, prior, at).id, x.claim), x.claim, Contradicted, at)
  }

  lemma PairChanges(claim: Claim, prior: Claim, at: int)
    ensures forall x :: x in ContradictedPair(claim, prior, at) <==> IsPairChange(claim, prior, at, x)
  {
    var pair := ContradictedPair(claim, prior, at);
    assert pair[0] in pair && pair[1] in pair;
  }

  lemma {:induction false} ContradictedChangesMembers(claim: Claim, conflicts: seq<Claim>, at: int)
    ensures forall x :: x in ContradictedChanges(claim, conflicts, at) <==> exists p ::
      p in conflicts && IsPairChange(claim, p, at, x)
  {
    hide IsPairChange, ContradictedPair;
    if conflicts != [] {
      PairChanges(claim, conflicts[|conflicts| - 1], at);
      ContradictedChangesMembers(claim, conflicts[..|conflicts| - 1], at);
      assert conflicts == conflicts[..|conflicts| - 1] + [conflicts[|conflicts| - 1]];
    }
  }

  lemma RowOfPair(claim: Claim, prior: Claim, at: int)
    requires claim.id != prior.id
    ensures var row := ContradictionRow(claim, prior, at);
      && row.id == ContradictionId(row.a, row.b) && TextLess(row.a, row.b) && row.caseId == claim.caseId
      && ((row.a == claim.id && row.b == prior.id) || (row.a == prior.id && row.b == claim.id))
  {
    TextLessTrichotomy(claim.id, prior.id);
  }

  ghost predicate RecordAccepted(t: Tables, q: ClaimRequest)
    requires ClaimsKeyed(t)
  {
    RecordClaim(t, q).1.Ok?
  }

  lemma RecordIsWithClaim(t: Tables, q: ClaimRequest)
    requires ClaimsKeyed(t)
    ensures var u := RecordClaim(t, q).0;
      if RecordAccepted(t, q) then q.claim !in t.claims && u == WithClaim(t, q, OrderedPriors(t, ExternalClaim(q)))
        else u == t
  {
    hide OrderedPriors, WithClaim, ResultOf, ClaimsKeyed;
  }

  /** How an accepted claim changes the tables of claims and links, given the live priors on its key. */
  ghost predicate RecordedRows(t: Tables, u: Tables, q: ClaimRequest, priors: seq<Claim>) {
    var claim := ExternalClaim(q);
    && q.claim !in t.claims && q.caseId in t.cases && q.evidence !in t.evidence
    && u.cases == t.cases && u.claims == t.claims[q.claim := claim] && u.evidence == t.evidence + {q.evidence}
    && u.edges == t.edges + {SupportEdge(q)} + RelationEdges(claim, priors)
    && u.contradictions == t.contradictions + ContradictionSet(claim, priors, q.at)
    && forall p :: p in priors ==> p.id in t.claims && t.claims[p.id] == p && p.SameKey(claim) && p.id != q.claim
  }

  lemma RecordTables(t: Tables, q: ClaimRequest)
    requires ClaimsOk(t) && EdgesOk(t) && Admissible(t, Record(q)) && RecordAccepted(t, q)
    ensures RecordedRows(t, RecordClaim(t, q).0, q, OrderedPriors(t, ExternalClaim(q)))
  {
    assert forall x :: x in t.edges ==> x.id != SupportEdge(q).id && x.source != q.claim;
  }

  /** The edges a new claim brings besides its support: one corroboration, or a contradiction both
      ways, for each comparable prior. */
  ghost predicate IsRelationEdge(claim: Claim, priors: seq<Claim>, e: Edge) {
    exists p :: p in priors
      && ((Agreeing(claim, p) && e == ClaimEdge(claim.caseId, claim.id, Corroborates, p.id))
          || (Conflicting(claim, p)
              && (e == ClaimEdge(claim.caseId, claim.id, Contradicts, p.id)
                 || e == ClaimEdge(claim.caseId, p.id, Contradicts, claim.id))))
  }

  lemma RelationEdgesMembers(claim: Claim, priors: seq<Claim>)
    ensures forall e :: e in RelationEdges(claim, priors) <==> IsRelationEdge(claim, priors, e)
  {
  }

  lemma RelationEdgesAreSound(t: Tables, u: Tables, q: ClaimRequest, priors: seq<Claim>, e: Edge)
    requires RecordedRows(t, u, q, priors) && IsRelationEdge(ExternalClaim(q), priors, e)
    ensures e.caseId == q.caseId && e.id == EdgeId(e.source, e.relation, e.target)
    ensures e.relation == Corroborates || e.relation == Contradicts
    ensures (e.source == q.claim || e.target == q.claim) && Comparable(u, e.source, e.target)
    ensures u.claims[e.source].value == u.claims[e.target].value <==> e.relation == Corroborates
  {
    hide RelationEdges, ContradictionSet;
  }

  lemma NewEdges(t: Tables, u: Tables, q: ClaimRequest, priors: seq<Claim>)
    requires RecordedRows(t, u, q, priors)
    ensures forall e :: e in u.edges <==>
      e in t.edges || e == SupportEdge(q) || IsRelationEdge(ExternalClaim(q), priors, e)
    ensures forall e :: IsRelationEdge(ExternalClaim(q), priors, e) ==>
      && e.caseId == q.caseId && e.id == EdgeId(e.source, e.relation, e.target)
      && (e.relation == Corroborates || e.relation == Contradicts)
      && (e.source == q.claim || e.target == q.claim) && Comparable(u, e.source, e.target)
      && (u.claims[e.source].value == u.claims[e.target].value <==> e.relation == Corroborates)
  {
    hide RelationEdges, ContradictionSet, IsRelationEdge, Comparable;
    RelationEdgesMembers(ExternalClaim(q), priors);
    forall e | IsRelationEdge(ExternalClaim(q), priors, e)
      ensures
        && e.caseId == q.caseId && e.id == EdgeId(e.source, e.relation, e.target)
        && (e.relation == Corroborates || e.relation == Contradicts)
        && (e.source == q.claim || e.target == q.claim) && Comparable(u, e.source, e.target)
        && e.source in u.claims && e.target in u.claims
        && (u.claims[e.source].value == u.claims[e.target].value <==> e.relation == Corroborates)
    {
      RelationEdgesAreSound(t, u, q, priors, e);
      ComparableClaims(u, e.source, e.target);
    }
  }

  lemma ComparableClaims(t: Tables, a: Id, b: Id)
    requires Comparable(t, a, b)
    ensures a in t.claims && b in t.claims
  {
  }

  lemma RecordKeepsClaims(t: Tables, u: Tables, q: ClaimRequest, priors: seq<Claim>)
    requires ClaimsOk(t) && RecordedRows(t, u, q, priors)
    ensures ClaimsOk(u)
  {
    hide RelationEdges, ContradictionSet;
  }

  lemma RecordKeepsEdges(t: Tables, u: Tables, q: ClaimRequest, priors: seq<Claim>)
    requires EdgesOk(t) && RecordedRows(t, u, q, priors)
    ensures EdgesOk(u)
  {
    NewEdges(t, u, q, priors);
    hide RelationEdges, ContradictionSet, IsRelationEdge;
  }

  lemma RecordKeepsRelations(t: Tables, u: Tables, q: ClaimRequest, priors: seq<Claim>)
    requires EdgesOk(t) && RelationsOk(t) && RecordedRows(t, u, q, priors)
    ensures RelationsOk(u)
  {
    NewEdges(t, u, q, priors);
    hide RelationEdges, ContradictionSet, IsRelationEdge;
    forall a, b | Comparable(t, a, b)
      ensures Comparable(u, a, b) && u.claims[a] == t.claims[a] && u.claims[b] == t.claims[b]
    {
    }
    hide Comparable;
  }

  /** Only the new claim's own evidence is added to the supports. */
  lemma NewSupport(t: Tables, u: Tables, q: ClaimRequest, priors: seq<Claim>)
    requires RecordedRows(t, u, q, priors) && EdgesOk(t)
    ensures forall e :: IsSupport(u, e) <==> IsSupport(t, e) || e == SupportEdge(q)
    ensures forall e :: IsSupport(t, e) ==> e.source in t.claims && e.source != q.claim && e.target != q.evidence
  {
    NewEdges(t, u, q, priors);
    hide RelationEdges, ContradictionSet, IsRelationEdge, Comparable;
  }

  lemma RecordKeepsSupport(t: Tables, u: Tables, q: ClaimRequest, priors: seq<Claim>)
    requires ClaimsOk(t) && EdgesOk(t) && SupportOk(t) && RecordedRows(t, u, q, priors)
    ensures SupportOk(u)
    ensures SupportOf(u, q.claim) == {q.evidence}
    ensures forall c | c in t.claims :: SupportOf(u, c) == SupportOf(t, c)
  {
    NewSupport(t, u, q, priors);
    hide RelationEdges, ContradictionSet, EdgesOk, ClaimsOk, IsSupport, SupportOf;
    var support := SupportEdge(q);
    forall c | c in t.claims
      ensures SupportOf(u, c) == SupportOf(t, c)
    {
      SupportsAlike(t, u, c);
    }
    SupportIsUnique(u, support);
  }

  lemma SupportsAlike(t: Tables, u: Tables, c: Id)
    requires forall e: Edge | e.source == c :: IsSupport(t, e) <==> IsSupport(u, e)
    ensures SupportOf(u, c) == SupportOf(t, c)
  {
    forall x | x in SupportOf(u, c)
      ensures x in SupportOf(t, c)
    {
      var e :| e in u.edges && e.source == c && e.relation == SupportedBy && e.target == x;
      assert IsSupport(u, e);
    }
    forall x | x in SupportOf(t, c)
      ensures x in SupportOf(u, c)
    {
      var e :| e in t.edges && e.source == c && e.relation == SupportedBy && e.target == x;
      assert IsSupport(t, e);
    }
  }

  lemma SupportIsUnique(t: Tables, support: Edge)
    requires IsSupport(t, support) && forall e :: IsSupport(t, e) && e.source == support.source ==> e == support
    ensures SupportOf(t, support.source) == {support.target}
  {
    forall x | x in SupportOf(t, support.source)
      ensures x == support.target
    {
      var e :| e in t.edges && e.source == support.source && e.relation == SupportedBy && e.target == x;
      assert IsSupport(t, e);
    }
  }

  /** A new contradiction, in full. */
  lemma NewContradiction(t: Tables, u: Tables, q: ClaimRequest, priors: seq<Claim>, p: Claim)
    requires RecordedRows(t, u, q, priors) && p in priors && Conflicting(ExternalClaim(q), p)
    ensures var k := ContradictionRow(ExternalClaim(q), p, q.at);
      && k in u.contradictions && k.id == ContradictionId(k.a, k.b) && TextLess(k.a, k.b)
      && ((k.a == q.claim && k.b == p.id) || (k.a == p.id && k.b == q.claim))
      && Comparable(u, k.a, k.b) && u.claims[k.a].value != u.claims[k.b].value
      && k.caseId == u.claims[k.a].caseId && k.at == q.at
      && ClaimEdge(k.caseId, k.a, Contradicts, k.b) in u.edges && ClaimEdge(k.caseId, k.b, Contradicts, k.a) in u.edges
  {
    var claim := ExternalClaim(q);
    assert ContradictionRow(claim, p, q.at) in ContradictionSet(claim, priors, q.at);
    hide RelationEdges, ContradictionSet, ContradictionRow;
    RowOfPair(claim, p, q.at);
    RelationEdgesMembers(claim, priors);
    assert IsRelationEdge(claim, priors, ClaimEdge(claim.caseId, claim.id, Contradicts, p.id));
    assert IsRelationEdge(claim, priors, ClaimEdge(claim.caseId, p.id, Contradicts, claim.id));
    hide IsRelationEdge;
  }

  lemma ContradictionSetMembers(claim: Claim, priors: seq<Claim>, at: int)
    ensures forall k :: k in ContradictionSet(claim, priors, at) <==>
      exists p :: p in priors && Conflicting(claim, p) && k == ContradictionRow(claim, p, at)
  {
    hide ContradictionRow, Conflicting;
  }

  lemma RecordKeepsContradictions(t: Tables, u: Tables, q: ClaimRequest, priors: seq<Claim>)
    requires ContradictionsOk(t) && RecordedRows(t, u, q, priors)
    ensures ContradictionsOk(u)
  {
    var claim := ExternalClaim(q);
    ContradictionSetMembers(claim, priors, q.at);
    hide ContradictionSet, RelationEdges, ContradictionRow, Conflicting;
    forall k | k in u.contradictions && k !in t.contradictions
      ensures
        && k.id == ContradictionId(k.a, k.b) && TextLess(k.a, k.b) && (k.a == q.claim || k.b == q.claim)
        && Comparable(u, k.a, k.b) && u.claims[k.a].value != u.claims[k.b].value && k.caseId == u.claims[k.a].caseId
        && ClaimEdge(k.caseId, k.a, Contradicts, k.b) in u.edges
           && ClaimEdge(k.caseId, k.b, Contradicts, k.a) in u.edges
      ensures k == Contradiction(ContradictionId(k.a, k.b), q.caseId, k.a, k.b, q.at)
    {
      var p :| p in priors && Conflicting(claim, p) && k == ContradictionRow(claim, p, q.at);
      NewContradiction(t, u, q, priors, p);
      RowOfPair(claim, p, q.at);
    }
  }

  /** The state changes an accepted claim appends: both claims of each new contradiction. */
  lemma RecordChanges(t: Tables, q: ClaimRequest)
    requires ClaimsOk(t) && EdgesOk(t) && Admissible(t, Record(q)) && RecordAccepted(t, q)
    ensures var u, claim := RecordClaim(t, q).0, ExternalClaim(q);
      var priors := OrderedPriors(t, claim);
      && t.changes <= u.changes
      && forall x :: x in u.changes[|t.changes|..] <==>
           exists p :: p in priors && Conflicting(claim, p) && IsPairChange(claim, p, q.at, x)
  {
    var u, claim := RecordClaim(t, q).0, ExternalClaim(q);
    var priors := OrderedPriors(t, claim);
    var conflicts := Conflicts(claim, priors);
    assert u.changes[|t.changes|..] == ContradictedChanges(claim, conflicts, q.at);
    hide RecordClaim, IsPairChange, InsertEdge, OrderedPriors;
    ConflictsMembers(claim, priors);
    ContradictedChangesMembers(claim, conflicts, q.at);
  }

  lemma RecordKeepsChanges(t: Tables, q: ClaimRequest)
    requires ClaimsOk(t) && ChangesOk(t) && EdgesOk(t) && Admissible(t, Record(q)) && RecordAccepted(t, q)
    ensures var u := RecordClaim(t, q).0; var more := u.changes[|t.changes|..];
      && ChangesOk(u) && u.changes == t.changes + more
      && forall x :: x in more ==> x.at == q.at && x.state == Contradicted
  {
    var u, claim := RecordClaim(t, q).0, ExternalClaim(q);
    var priors := OrderedPriors(t, claim);
    var more := u.changes[|t.changes|..];
    RecordChanges(t, q);
    RecordTables(t, q);
    hide RecordClaim, OrderedPriors, RecordedRows, IsPairChange, EdgesOk, ChangeIdOk, ExternalClaim, Admissible,
      Conflicting;
    assert u.changes == t.changes + more;
    forall x | x in more
      ensures x.at == q.at && x.state == Contradicted && x.claim in u.claims && ChangeIdOk(u, x.id)
    {
      var p :| p in priors && Conflicting(claim, p) && IsPairChange(claim, p, q.at, x);
      PairChangeParts(t, u, q, priors, p, x);
    }
    forall x | x in t.changes
      ensures x.claim in u.claims && ChangeIdOk(u, x.id)
    {
      KnownClaimsStay(t, u, q, priors, x.id);
    }
  }

  lemma PairChangeParts(t: Tables, u: Tables, q: ClaimRequest, priors: seq<Claim>, p: Claim, x: StateChange)
    requires RecordedRows(t, u, q, priors) && p in priors && IsPairChange(ExternalClaim(q), p, q.at, x)
    ensures x.at == q.at && x.state == Contradicted && x.claim in u.claims && ChangeIdOk(u, x.id)
  {
    RowOfPair(ExternalClaim(q), p, q.at);
    hide ContradictionRow, RelationEdges, ContradictionSet;
  }

  lemma KnownClaimsStay(t: Tables, u: Tables, q: ClaimRequest, priors: seq<Claim>, id: RowId)
    requires RecordedRows(t, u, q, priors) && ChangeIdOk(t, id)
    ensures ChangeIdOk(u, id) && t.claims.Keys <= u.claims.Keys
  {
    hide RelationEdges, ContradictionSet;
  }

  lemma RecordKeepsLinks(t: Tables, q: ClaimRequest)
    requires LinksOk(t) && Admissible(t, Record(q)) && RecordAccepted(t, q)
    ensures LinksOk(RecordClaim(t, q).0)
  {
    var u, priors := RecordClaim(t, q).0, OrderedPriors(t, ExternalClaim(q));
    hide RecordClaim, OrderedPriors, SupportOk, EdgesOk, ContradictionsOk, RelationsOk, ClaimsOk, ChangesOk,
      RecordedRows, Admissible;
    RecordTables(t, q);
    RecordKeepsClaims(t, u, q, priors);
    RecordKeepsEdges(t, u, q, priors);
    RecordKeepsRelations(t, u, q, priors);
    RecordKeepsSupport(t, u, q, priors);
    RecordKeepsContradictions(t, u, q, priors);
    RecordKeepsChanges(t, q);
  }

  // ---- The other operations ----

  /** Operations that leave claims and edges alone, and at most open cases or append one generated
      change of a known claim. */
  lemma QuietOperationKeepsLinks(t: Tables, u: Tables)
    requires LinksOk(t) && t.cases <= u.cases && u.claims == t.claims && u.edges == t.edges
    requires u.evidence == t.evidence && u.contradictions == t.contradictions
    requires u.changes == t.changes
      || exists x :: u.changes == t.changes + [x] && x.claim in t.claims && x.id.Generated?
    ensures LinksOk(u)
  {
    SameComparisons(t, u);
    SameSupports(t, u);
    hide EdgesOk, SupportOk, ContradictionsOk, RelationsOk;
    assert forall id :: ChangeIdOk(t, id) ==> ChangeIdOk(u, id);
    hide ChangeIdOk;
  }

  lemma SameComparisons(t: Tables, u: Tables)
    requires u.claims == t.claims && u.edges == t.edges && u.contradictions == t.contradictions
    ensures RelationsOk(t) ==> RelationsOk(u)
    ensures ContradictionsOk(t) ==> ContradictionsOk(u)
  {
    assert forall a, b :: Comparable(t, a, b) == Comparable(u, a, b);
    hide Comparable;
  }

  lemma SameSupports(t: Tables, u: Tables)
    requires u.claims == t.claims && u.edges == t.edges && u.evidence == t.evidence
    ensures SupportOk(t) ==> SupportOk(u)
    ensures EdgesOk(t) ==> EdgesOk(u)
  {
    assert forall e :: IsSupport(t, e) == IsSupport(u, e);
    hide IsSupport;
  }

  ghost predicate CorrectionAccepted(t: Tables, q: CorrectionRequest) { CorrectClaim(t, q).1.Ok? }

  /** How an accepted correction changes the tables of claims and links. */
  ghost predicate CorrectedRows(t: Tables, u: Tables, q: CorrectionRequest) {
    && q.original in t.claims && q.corrected !in t.claims
    && u.cases == t.cases && u.evidence == t.evidence && u.contradictions == t.contradictions && u.facts == t.facts
    && u.claims == t.claims[q.corrected := CorrectedClaim(t, q)]
    && u.edges == t.edges + {ClaimEdge(t.claims[q.original].caseId, q.corrected, Supersedes, q.original)}
    && u.changes == t.changes + [StateChange(Generated(q.originalChange), q.original, Superseded, q.at),
                                 StateChange(Generated(q.correctedChange), q.corrected, Verified, q.at)]
  }

  lemma CorrectionTables(t: Tables, q: CorrectionRequest)
    requires EdgesOk(t) && Admissible(t, CorrectOp(q)) && CorrectionAccepted(t, q)
    ensures CorrectedRows(t, CorrectClaim(t, q).0, q)
  {
    var e := ClaimEdge(t.claims[q.original].caseId, q.corrected, Supersedes, q.original);
    assert forall x :: x in t.edges ==> x.source != q.corrected && x.id != e.id;
  }

  lemma CorrectionKeepsLinks(t: Tables, q: CorrectionRequest)
    requires LinksOk(t) && Admissible(t, CorrectOp(q)) && CorrectionAccepted(t, q)
    ensures LinksOk(CorrectClaim(t, q).0)
    ensures SupportOf(CorrectClaim(t, q).0, q.corrected) == {}
    ensures forall c | c in t.claims :: SupportOf(CorrectClaim(t, q).0, c) == SupportOf(t, c)
  {
    var u := CorrectClaim(t, q).0;
    CorrectionTables(t, q);
    hide CorrectClaim, Admissible;
    assert forall e :: IsSupport(t, e) <==> IsSupport(u, e);
    hide ContradictionsOk, RelationsOk, SupportOk, EdgesOk, ClaimsOk, ChangesOk, SupportOf;
    CorrectionKeepsRows(t, u, q);
    CorrectionKeepsComparisons(t, u, q);
    SupportAfterCorrection(t, u, q);
    forall c | c in u.claims
      ensures SupportOf(u, c) == SupportOf(t, c)
    {
      SupportsAlike(t, u, c);
    }
    assert SupportOf(u, q.corrected) == {} by { NoSupportYet(t, q.corrected); }
  }

  lemma NoSupportYet(t: Tables, c: Id)
    requires EdgesOk(t) && c !in t.claims
    ensures SupportOf(t, c) == {}
  {
  }

  lemma CorrectionKeepsRows(t: Tables, u: Tables, q: CorrectionRequest)
    requires CorrectedRows(t, u, q) && ClaimsOk(t) && ChangesOk(t) && EdgesOk(t)
    ensures ClaimsOk(u) && ChangesOk(u) && EdgesOk(u)
  {
  }

  lemma SupportAfterCorrection(t: Tables, u: Tables, q: CorrectionRequest)
    requires CorrectedRows(t, u, q) && SupportOk(t) && EdgesOk(t) && forall e :: IsSupport(t, e) <==> IsSupport(u, e)
    ensures SupportOk(u)
  {
    assert forall e :: IsSupport(t, e) ==> e.source != q.corrected;
    hide EdgesOk, IsSupport;
  }

  lemma CorrectionKeepsComparisons(t: Tables, u: Tables, q: CorrectionRequest)
    requires CorrectedRows(t, u, q) && ContradictionsOk(t) && RelationsOk(t)
    ensures ContradictionsOk(u) && RelationsOk(u)
  {
    assert forall a, b :: Comparable(t, a, b) ==>
      Comparable(u, a, b) && u.claims[a] == t.claims[a] && u.claims[b] == t.claims[b];
    hide Comparable;
  }
}
