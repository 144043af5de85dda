/** Current states of claims as the latest of their recorded changes, and the facts that
    verification leaves behind. */
module States {
  import opened Ordering
  import opened Wrappers
  import opened Records
  import opened Evidence
  import opened Operations
  import opened Links

  /** A claim that is verified now was verified by a review, which left a fact, unless a human entered it. */
  ghost predicate FactsOk(t: Tables)
    requires ClaimsKeyed(t)
  {
    && (forall c | c in t.facts :: c in t.claims && t.facts[c].claim == c && t.facts[c].value == t.claims[c].value)
    && (forall c | c in t.claims :: CurrentState(t, c) == Verified ==> c in t.facts || t.claims[c].origin == Human)
  }

  // ---- Latest changes ----

  lemma LatestIsMember(changes: seq<StateChange>, claim: Id)
    ensures match Latest(changes, claim)
      case None => forall x :: x in changes ==> x.claim != claim
      case Some(x) => x in changes && x.claim == claim
  {
    if changes != [] {
      LatestIsMember(changes[..|changes| - 1], claim);
      assert changes == changes[..|changes| - 1] + [changes[|changes| - 1]];
    }
  }

  lemma LatestOfAppended(changes: seq<StateChange>, x: StateChange, claim: Id)
    ensures Latest(changes + [x], claim) ==
      var rest := Latest(changes, claim);
      if x.claim == claim && (rest.None? || !Later(rest.value, x)) then Some(x) else rest
  {
    assert (changes + [x])[..|changes|] == changes;
  }

  /** Without any assumption on the clock: the current state is that of a change of the claim with
      the greatest pair of time and identifier. Equal times are decided by the identifier. */
  lemma LatestIsGreatest(changes: seq<StateChange>, claim: Id)
    ensures match Latest(changes, claim)
      case None => forall x :: x in changes ==> x.claim != claim
      case Some(x) => x in changes && x.claim == claim && forall y :: y in changes && y.claim == claim ==>
        y.at < x.at || (y.at == x.at && !TextLess(RowText(x.id), RowText(y.id)))
  {
    GreatestByOrder(changes, claim);
  }

  lemma {:induction false} GreatestByOrder(changes: seq<StateChange>, claim: Id)
    ensures match Latest(changes, claim)
      case None => forall x :: x in changes ==> x.claim != claim
      case Some(x) => x in changes && x.claim == claim && forall y :: y in changes && y.claim == claim ==> !Later(y, x)
  {
    hide Later;
    if changes != [] {
      var init, last := changes[..|changes| - 1], changes[|changes| - 1];
      GreatestByOrder(init, claim);
      assert changes == init + [last];
      LaterIsOrder(last, last, last);
      if Latest(init, claim).Some? {
        var x := Latest(init, claim).value;
        LaterIsOrder(x, last, last);
        forall y | y in init && y.claim == claim
          ensures !Later(x, last) ==> !Later(y, last)
        {
          LaterIsOrder(y, last, x);
        }
      }
    }
  }

  /** Times and then identifiers order changes: irreflexive, asymmetric, and negatively transitive. */
  lemma LaterIsOrder(x: StateChange, y: StateChange, z: StateChange)
    ensures !Later(x, x) && (Later(x, y) ==> !Later(y, x))
    ensures Later(x, y) ==> Later(x, z) || Later(z, y)
  {
    Ordering.TextLessTrichotomy(RowText(x.id), RowText(y.id));
    Ordering.TextLessTrichotomy(RowText(x.id), RowText(z.id));
    Ordering.TextLessTrichotomy(RowText(y.id), RowText(z.id));
    if Ordering.TextLess(RowText(z.id), RowText(x.id)) && Ordering.TextLess(RowText(y.id), RowText(z.id)) {
      Ordering.TextLessTransitive(RowText(y.id), RowText(z.id), RowText(x.id));
    }
    hide RowText;
    if Ordering.TextLess(RowText(y.id), RowText(x.id)) && Ordering.TextLess(RowText(x.id), RowText(z.id)) {
      Ordering.TextLessTransitive(RowText(y.id), RowText(x.id), RowText(z.id));
    }
  }

  /** Changes at a later time decide the state of the claims they concern, and of no other. */
  lemma {:induction false} LatestOfLater(changes: seq<StateChange>, more: seq<StateChange>, claim: Id, at: int)
    requires forall x :: x in changes ==> x.at < at
    requires forall x :: x in more ==> x.at == at
    ensures var latest := Latest(changes + more, claim);
      if exists x :: x in more && x.claim == claim
      then latest.Some? && latest.value in more && latest.value.claim == claim
      else latest == Latest(changes, claim)
  {
    if more == [] {
      assert changes + more == changes;
    } else {
      var init, last := more[..|more| - 1], more[|more| - 1];
      LatestOfLater(changes, init, claim, at);
      LatestIsMember(changes, claim);
      assert changes + more == (changes + init) + [last] && more == init + [last];
      LatestOfAppended(changes + init, last, claim);
      hide Latest;
    }
  }

  /** A change appended at a later time is the state of its claim. */
  lemma StateOfAppended(t: Tables, u: Tables, x: StateChange)
    requires Afterwards(t, x.at) && u.changes == t.changes + [x]
    ensures forall c | c in u.claims :: c != x.claim ==> Latest(u.changes, c) == Latest(t.changes, c)
    ensures Latest(u.changes, x.claim) == Some(x)
  {
    forall c: Id
      ensures Latest(u.changes, c) == if c == x.claim then Some(x) else Latest(t.changes, c)
    {
      LatestOfLater(t.changes, [x], c, x.at);
    }
  }

  // ---- States after an operation ----

  /** A new claim contradicts every live prior it conflicts with, itself included, and changes no
      other state. */
  lemma RecordStates(t: Tables, q: ClaimRequest)
    requires LinksOk(t) && Admissible(t, Record(q)) && RecordAccepted(t, q)
    ensures var u, claim := RecordClaim(t, q).0, ExternalClaim(q);
      && u.claims.Keys == t.claims.Keys + {q.claim}
      && CurrentState(u, q.claim) == (if exists p ::
         p in LivePriors(t, claim) && Conflicting(claim, p) then Contradicted else Extracted)
      && forall c | c in t.claims ::
           CurrentState(u, c) == if t.claims[c] in LivePriors(t, claim)
             && Conflicting(claim, t.claims[c]) then Contradicted else CurrentState(t, c)
  {
    hide RecordClaim, LivePriors, Latest;
    var claim := ExternalClaim(q);
    RecordTables(t, q);
    PriorsOf(t, q);
    RecordStateOf(t, q, q.claim);
    forall c | c in t.claims
      ensures CurrentState(RecordClaim(t, q).0, c) ==
        if t.claims[c] in LivePriors(t, claim) && Conflicting(claim, t.claims[c]) then Contradicted
          else CurrentState(t, c)
    {
      RecordStateOf(t, q, c);
    }
    LatestIsMember(t.changes, q.claim);
  }

  lemma PriorsOf(t: Tables, q: ClaimRequest)
    requires ClaimsOk(t)
    ensures forall p :: p in OrderedPriors(t, ExternalClaim(q)) <==> p in LivePriors(t, ExternalClaim(q))
    ensures forall p :: p in LivePriors(t, ExternalClaim(q)) ==>
      p.id in t.claims && t.claims[p.id] == p && p.id != q.claim
  {
  }

  /** Whether an accepted claim appends a change of the state of `c`. */
  lemma ChangedClaim(t: Tables, q: ClaimRequest, c: Id)
    requires LinksOk(t) && Admissible(t, Record(q)) && RecordAccepted(t, q)
    ensures var u, claim := RecordClaim(t, q).0, ExternalClaim(q); var more := u.changes[|t.changes|..];
      (exists x :: x in more && x.claim == c) <==>
        exists p :: p in OrderedPriors(t, claim) && Conflicting(claim, p) && (c == p.id || c == q.claim)
  {
    assert ClaimsKeyed(t);
    hide RecordClaim, RecordAccepted, OrderedPriors, EdgesOk, SupportOk, ContradictionsOk, RelationsOk, Conflicting,
      Admissible;
    var u, claim := RecordClaim(t, q).0, ExternalClaim(q);
    var priors, more := OrderedPriors(t, claim), u.changes[|t.changes|..];
    RecordChanges(t, q);
    hide ClaimsOk, ChangesOk;
    if p :| p in priors && Conflicting(claim, p) && (c == p.id || c == q.claim) {
      assert IsPairChange(claim, p, q.at,
        StateChange(ContradictedId(ContradictionRow(claim, p, q.at).id, c), c, Contradicted, q.at));
    }
  }

  lemma RecordStateOf(t: Tables, q: ClaimRequest, c: Id)
    requires LinksOk(t) && Admissible(t, Record(q)) && RecordAccepted(t, q)
    ensures var u, claim := RecordClaim(t, q).0, ExternalClaim(q);
      match Latest(u.changes, c)
      case Some(x) =>
        if exists p ::
          p in OrderedPriors(t, claim) && Conflicting(claim, p)
          && (c == p.id || c == q.claim) then x.state == Contradicted
        else Latest(t.changes, c) == Some(x)
      case None =>
        Latest(t.changes, c) == None
        && !exists p :: p in OrderedPriors(t, claim) && Conflicting(claim, p) && (c == p.id || c == q.claim)
  {
    var more := RecordClaim(t, q).0.changes[|t.changes|..];
    RecordKeepsChanges(t, q);
    LatestOfLater(t.changes, more, c, q.at);
    ChangedClaim(t, q, c);
    hide RecordClaim, LinksOk, OrderedPriors, Latest, Conflicting;
  }

  /** An accepted review in one equation, and what it means that it was accepted. */
  lemma ReviewIsWithReview(t: Tables, q: ReviewRequest)
    ensures if ReviewClaim(t, q).1.Ok?
      then q.claim in t.claims && q.decision != Correct && (q.decision == Verify ==> q.claim !in t.facts)
           && ReviewClaim(t, q).0 == WithReview(t, q)
      else ReviewClaim(t, q).0 == t
  {
    hide WithReview, ReviewRows;
  }

  lemma ReviewStates(t: Tables, q: ReviewRequest)
    requires Admissible(t, Review(q)) && ReviewClaim(t, q).1.Ok?
    ensures var u := ReviewClaim(t, q).0;
      && q.claim in t.claims && q.decision != Correct && u.claims == t.claims
      && CurrentState(u, q.claim) == DecidedState(q.decision)
      && (q.decision == Verify <==> CurrentState(u, q.claim) == Verified)
      && (q.decision == Reject <==> CurrentState(u, q.claim) == Rejected)
      && (q.decision == NeedsMoreEvidence <==> CurrentState(u, q.claim) == Unresolved)
      && forall c | c in t.claims && c != q.claim :: CurrentState(u, c) == CurrentState(t, c)
  {
    hide ReviewClaim;
    ReviewIsWithReview(t, q);
    StateOfAppended(t, ReviewClaim(t, q).0, StateChange(Generated(q.change), q.claim, DecidedState(q.decision), q.at));
  }

  lemma CorrectionStates(t: Tables, q: CorrectionRequest)
    requires EdgesOk(t) && ChangesOk(t) && Admissible(t, CorrectOp(q)) && CorrectionAccepted(t, q)
    ensures var u := CorrectClaim(t, q).0;
      && u.claims.Keys == t.claims.Keys + {q.corrected}
      && CurrentState(u, q.original) == Superseded && CurrentState(u, q.corrected) == Verified
      && forall c | c in t.claims && c != q.original :: CurrentState(u, c) == CurrentState(t, c)
  {
    var u := CorrectClaim(t, q).0;
    CorrectionTables(t, q);
    var x := StateChange(Generated(q.originalChange), q.original, Superseded, q.at);
    var y := StateChange(Generated(q.correctedChange), q.corrected, Verified, q.at);
    assert u.changes == t.changes + [x, y];
    hide CorrectClaim, EdgesOk, ChangesOk, Latest;
    forall c: Id
      ensures Latest(u.changes, c) == if c == x.claim then Some(x) else if c == y.claim then Some(y)
        else Latest(t.changes, c)
    {
      LatestOfTwo(t.changes, x, y, c);
    }
  }

  lemma LatestOfTwo(changes: seq<StateChange>, x: StateChange, y: StateChange, claim: Id)
    requires x.at == y.at && x.claim != y.claim && forall z :: z in changes ==> z.at < x.at
    ensures Latest(changes + [x, y], claim) ==
      if claim == x.claim then Some(x) else if claim == y.claim then Some(y) else Latest(changes, claim)
  {
    LatestOfLater(changes, [x, y], claim, x.at);
    hide Latest;
    assert [x, y][0] == x && [x, y][1] == y;
  }

  // ---- Facts ----

  /** Facts stay right when nothing becomes verified without a fact. */
  lemma FactsStay(t: Tables, u: Tables)
    requires ClaimsKeyed(t) && ClaimsKeyed(u) && FactsOk(t)
    requires forall c | c in t.claims :: c in u.claims && u.claims[c] == t.claims[c]
    requires forall c | c in t.facts :: c in u.facts
    requires forall c | c in u.facts :: c in u.claims && u.facts[c].claim == c && u.facts[c].value == u.claims[c].value
    requires forall c | c in u.claims && CurrentState(u, c) == Verified ::
      c in u.facts || u.claims[c].origin == Human || (c in t.claims && CurrentState(t, c) == Verified)
    ensures FactsOk(u)
  {
    hide CurrentState;
  }

  lemma RecordFrame(t: Tables, q: ClaimRequest)
    requires ClaimsKeyed(t)
    ensures var u := RecordClaim(t, q).0;
      && u.facts == t.facts && u.versions == t.versions && u.evaluations == t.evaluations && u.uses == t.uses
      && u.obligations == t.obligations && u.deadlines == t.deadlines && u.tasks == t.tasks
    ensures RecordAccepted(t, q) ==>
      RecordClaim(t, q).0.claims == t.claims[q.claim := ExternalClaim(q)] && q.claim !in t.claims
  {
    hide RecordClaim, RecordAccepted, OrderedPriors, ClaimsKeyed, WithClaim;
    RecordIsWithClaim(t, q);
    WithClaimFrame(t, q, OrderedPriors(t, ExternalClaim(q)));
  }

  lemma WithClaimFrame(t: Tables, q: ClaimRequest, priors: seq<Claim>)
    ensures var u := WithClaim(t, q, priors);
      && u.facts == t.facts && u.versions == t.versions && u.evaluations == t.evaluations && u.uses == t.uses
      && u.obligations == t.obligations && u.deadlines == t.deadlines && u.tasks == t.tasks
      && u.claims == t.claims[q.claim := ExternalClaim(q)]
  {
    hide InsertEdge, RelationEdges, ContradictionSet, ContradictedChanges, Conflicts, RecordRows, ExternalClaim;
  }

  /** Recording verifies nothing. */
  lemma RecordVerifiesNothing(t: Tables, q: ClaimRequest)
    requires LinksOk(t) && Admissible(t, Record(q)) && RecordAccepted(t, q)
    ensures forall c | c in RecordClaim(t, q).0.claims && CurrentState(RecordClaim(t, q).0, c) == Verified ::
      c in t.claims && CurrentState(t, c) == Verified
  {
    hide RecordClaim, RecordAccepted, LivePriors, CurrentState, LinksOk, Admissible, Conflicting;
    RecordStates(t, q);
  }

  lemma RecordKeepsFacts(t: Tables, q: ClaimRequest)
    requires LinksOk(t) && FactsOk(t) && Admissible(t, Record(q)) && RecordAccepted(t, q)
    ensures ClaimsOk(RecordClaim(t, q).0) && FactsOk(RecordClaim(t, q).0)
  {
    assert ClaimsKeyed(t) && ClaimsOk(t) && EdgesOk(t);
    hide RecordClaim, RecordAccepted, CurrentState, LinksOk, ClaimsOk, OrderedPriors, RecordedRows, Admissible, EdgesOk,
      ExternalClaim, FactsOk;
    var u, priors := RecordClaim(t, q).0, OrderedPriors(t, ExternalClaim(q));
    RecordFrame(t, q);
    RecordTables(t, q);
    RecordKeepsClaims(t, u, q, priors);
    KeyedClaims(u);
    RecordVerifiesNothing(t, q);
    FactsAfterRecording(t, u, q);
  }

  lemma KeyedClaims(t: Tables)
    requires ClaimsOk(t)
    ensures ClaimsKeyed(t)
  {
  }

  lemma FactsAfterRecording(t: Tables, u: Tables, q: ClaimRequest)
    requires ClaimsKeyed(t) && ClaimsKeyed(u) && FactsOk(t)
    requires q.claim !in t.claims && u.claims == t.claims[q.claim := ExternalClaim(q)] && u.facts == t.facts
    requires forall c | c in u.claims && CurrentState(u, c) == Verified ::
      c in t.claims && CurrentState(t, c) == Verified
    ensures FactsOk(u)
  {
    hide CurrentState, ExternalClaim, ClaimsKeyed;
    FactsStay(t, u);
  }

  lemma ReviewKeepsFacts(t: Tables, q: ReviewRequest)
    requires ClaimsOk(t) && FactsOk(t) && Admissible(t, Review(q)) && ReviewClaim(t, q).1.Ok?
    ensures ClaimsOk(ReviewClaim(t, q).0) && FactsOk(ReviewClaim(t, q).0)
    ensures t.facts.Keys <= ReviewClaim(t, q).0.facts.Keys
  {
    var u := ReviewClaim(t, q).0;
    ReviewStates(t, q);
    ReviewedRows(t, q);
    hide CurrentState, ReviewClaim, ClaimsOk, Admissible;
    FactsStay(t, u);
  }

  lemma ReviewedRows(t: Tables, q: ReviewRequest)
    requires ClaimsOk(t) && ReviewClaim(t, q).1.Ok?
    ensures var u := ReviewClaim(t, q).0;
      && q.claim in t.claims && u.claims == t.claims && ClaimsOk(u)
      && u.facts == (if q.decision == Verify then t.facts[q.claim := Fact(q.fact, q.claim, t.claims[q.claim].value)]
         else t.facts)
      && q.decision != Correct && (DecidedState(q.decision) == Verified <==> q.decision == Verify)
      && (q.decision == Verify ==> q.claim !in t.facts)
  {
    hide ReviewClaim, InsertChange, ReviewRows;
    ReviewIsWithReview(t, q);
  }

  lemma CorrectionKeepsFacts(t: Tables, q: CorrectionRequest)
    requires LinksOk(t) && FactsOk(t) && Admissible(t, CorrectOp(q)) && CorrectionAccepted(t, q)
    ensures ClaimsOk(CorrectClaim(t, q).0) && FactsOk(CorrectClaim(t, q).0)
  {
    assert ClaimsKeyed(t);
    hide CorrectClaim, CorrectionAccepted, CurrentState, Admissible, EdgesOk, ChangesOk, SupportOk, ContradictionsOk,
      RelationsOk, SupportOf;
    CorrectionStates(t, q);
    CorrectionTables(t, q);
    CorrectionKeepsLinks(t, q);
    FactsStay(t, CorrectClaim(t, q).0);
  }
}
