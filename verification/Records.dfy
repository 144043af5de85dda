/** The records of the evidence store that its transactions and the rule evaluator touch. */
module Records {
  import opened Wrappers
  import opened Temporal
  import opened Values

  type Id = string

  datatype ClaimState =
    | Observed | Extracted | Inferred | Corroborated | Disputed
    | Contradicted | Superseded | Verified | Rejected | Unresolved

  datatype Origin = External | Human | ByRule | BySystem

  /** An assertion; `attribute` is the source's predicate name. */
  datatype Claim = Claim(
    id: Id, caseId: Id, subject: string, attribute: string, value: KnowledgeValue,
    origin: Origin, initial: ClaimState, createdAt: int)
  {
    /** Two claims are about the same thing. */
    predicate SameKey(other: Claim) {
      caseId == other.caseId && subject == other.subject && attribute == other.attribute
    }
  }

  datatype Relation = SupportedBy | Corroborates | Contradicts | Supersedes

  /** Row identifiers: issued by the generator, or derived by hashing a kind and its parts.
      A derived identifier is modelled by what is hashed, so distinct parts give distinct rows. */
  datatype RowId =
    | Generated(id: Id)
    | EdgeId(source: Id, relation: Relation, target: Id)
    | ContradictionId(a: Id, b: Id)
    | ContradictedId(contradiction: RowId, claim: Id)

  /** A directed edge from a claim to a claim, or to an evidence record when it is support. */
  datatype Edge = Edge(id: RowId, caseId: Id, source: Id, relation: Relation, target: Id)

  datatype StateChange = StateChange(id: RowId, claim: Id, state: ClaimState, at: int)

  datatype Contradiction = Contradiction(id: RowId, caseId: Id, a: Id, b: Id, at: int)

  datatype Fact = Fact(id: Id, claim: Id, value: KnowledgeValue)

  datatype Correction = Correction(id: Id, original: Id, corrected: Id, affected: seq<Id>)

  /** Rows that are written and never read again, by table and identifier. */
  datatype LogRow =
    | ProvenanceRow(id: Id) | ObservationRow(id: Id) | ReviewRow(id: Id) | RuleRow(id: Id) | AuditRow(id: Id)

  datatype Decision = Verify | Reject | Correct | NeedsMoreEvidence

  datatype Condition = Condition(subject: string, attribute: string, expected: KnowledgeValue)

  datatype Effect = Effect(kind: string, description: string, anchor: string, daysAfter: nat, title: string)

  datatype Definition = Definition(all: seq<Condition>, effect: Effect)

  datatype RuleVersion = RuleVersion(id: Id, package: string, key: string, definition: Definition)

  datatype RuleInput = RuleInput(claim: Id, evidence: seq<Id>, subject: string, attribute: string,
    value: KnowledgeValue)

  datatype GroundedClaim = GroundedClaim(claim: Claim, state: ClaimState, evidence: seq<Id>)

  datatype Verdict = Satisfied | NotSatisfied | Indeterminate

  /** The explanation texts, by their variable parts. */
  datatype Explanation =
    | FactsDisagree
    | FactsMissing(predicates: seq<string>)
    | ConditionsFailed(predicates: seq<string>)
    | AnchorMissing(anchor: string)
    | Established

  /** `inputs` also stands for the digest of its canonical text, which identifies it. */
  datatype Evaluation = Evaluation(
    id: Id, caseId: Id, version: Id, inputs: seq<RuleInput>, verdict: Verdict, explanation: Explanation,
    at: int, correlation: Id)

  datatype Obligation = Obligation(id: Id, caseId: Id, evaluation: Id, kind: string, description: string, at: int)

  datatype Deadline = Deadline(
    id: Id, caseId: Id, obligation: Id, dueEarliest: Option<Date>, dueLatest: Option<Date>,
    anchor: Date, daysAfter: nat, anchorPredicate: string, at: int)

  datatype WorkflowTask = WorkflowTask(id: Id, caseId: Id, obligation: Id, title: string, at: int)

  /** Everything one evaluation causes. */
  datatype Materialization = Materialization(
    evaluation: Evaluation, obligation: Option<Obligation>, deadline: Option<Deadline>, work: Option<WorkflowTask>)
}
