/** The operations of the evidence store as steps, and what is assumed of the identifiers and
    times they are called with. */
module Operations {
  import opened Records
  import opened Evidence
  import opened Rules

  datatype Op =
    | OpenCase(caseId: Id, audit: Id)
    | Record(claim: ClaimRequest)
    | Review(review: ReviewRequest)
    | CorrectOp(correction: CorrectionRequest)
    | Register(version: RuleVersion, rule: Id, audit: Id)
    | EvaluateOp(evaluation: EvaluationRequest)
    | ConcludeOp(inputs: set<RuleInput>, conclusion: EvaluationRequest)

  /** The tables after one operation; a refused operation leaves them unchanged. */
  ghost function Step(t: Tables, op: Op): Tables
    requires ClaimsKeyed(t)
  {
    match op
    case OpenCase(caseId, audit) => CreateCase(t, caseId, audit).0
    case Record(q) => RecordClaim(t, q).0
    case Review(q) => ReviewClaim(t, q).0
    case CorrectOp(q) => CorrectClaim(t, q).0
    case Register(v, rule, audit) => RegisterRule(t, v, rule, audit).0
    case EvaluateOp(q) => Evaluate(t, q).0
    case ConcludeOp(inputs, q) =>
      if q.version in t.versions && ClaimsDiffer(inputs) then Conclude(t, inputs, q).0 else t
  }

  // ---- What is assumed of identifiers and of the clock ----

  /** Later than every state change so far. */
  ghost predicate Afterwards(t: Tables, at: int) { forall x :: x in t.changes ==> x.at < at }

  ghost predicate FreshChange(t: Tables, id: Id) { forall x :: x in t.changes ==> x.id != Generated(id) }

  ghost predicate FreshEdge(t: Tables, id: Id) { forall e :: e in t.edges ==> e.id != Generated(id) }

  /** An input is the verified claim it names, with that claim's evidence; an external claim
      has been reviewed. */
  ghost predicate InputOk(t: Tables, caseId: Id, i: RuleInput) {
    && i.claim in t.claims && t.claims[i.claim].caseId == caseId
    && i == RuleInput(i.claim, EvidenceOf(t, i.claim), t.claims[i.claim].subject, t.claims[i.claim].attribute,
       t.claims[i.claim].value)
    && (t.claims[i.claim].origin == External ==> i.claim in t.facts)
  }

  /** Inputs that can be concluded from: one per claim, each right about its claim. Inputs read from
      any earlier state are. */
  ghost predicate InputsFit(t: Tables, inputs: set<RuleInput>, q: EvaluationRequest) {
    q.version in t.versions && ClaimsDiffer(inputs) && forall i | i in inputs :: InputOk(t, q.caseId, i)
  }

  /** Identifiers that are inserted without a conflict check are fresh, and time moves on. Other
      identifiers need no assumption: their tables refuse duplicates. */
  ghost predicate Admissible(t: Tables, op: Op) {
    match op
    case Record(q) => Afterwards(t, q.at) && FreshEdge(t, q.edge)
    case Review(q) => Afterwards(t, q.at) && FreshChange(t, q.change)
    case CorrectOp(q) =>
      Afterwards(t, q.at) && FreshChange(t, q.originalChange) && FreshChange(t, q.correctedChange)
      && q.originalChange != q.correctedChange
    case ConcludeOp(inputs, q) => InputsFit(t, inputs, q)
    case _ => true
  }
}
