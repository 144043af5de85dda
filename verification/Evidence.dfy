/** The evidence store's tables, its queries, and what each of its transactions does to them. */
module Evidence {
  import opened Wrappers
  import opened Ordering
  import opened Temporal
  import opened Values
  import opened Records
  import opened Rules
  import IsoDates

  /** Deadline dates are stored as text. */
  datatype DeadlineRow = DeadlineRow(
    id: Id, caseId: Id, obligation: Id, dueEarliest: Option<string>, dueLatest: Option<string>,
    anchor: Date, daysAfter: nat, anchorPredicate: string, at: int)

  datatype Tables = Tables(
    cases: set<Id>,
    claims: map<Id, Claim>,
    changes: seq<StateChange>,
    evidence: set<Id>,
    edges: set<Edge>,
    contradictions: set<Contradiction>,
    facts: map<Id, Fact>,
    corrections: map<Id, Correction>,
    versions: map<Id, RuleVersion>,
    evaluations: map<Id, Evaluation>,
    uses: set<(Id, Id)>,
    obligations: map<Id, Obligation>,
    deadlines: map<Id, DeadlineRow>,
    tasks: map<Id, WorkflowTask>,
    log: set<LogRow>)

  const EMPTY := Tables({}, map[], [], {}, {}, {}, map[], map[], map[], map[], {}, map[], map[], map[], {})

  // ---- Queries ----

  /** The text a row identifier is, or is hashed from; it breaks ties between equal times. */
  function RowText(id: RowId): string {
    match id
    case Generated(text) => text
    case EdgeId(source, relation, target) => "edge " + source + " " + target
    case ContradictionId(a, b) => "contradiction " + a + " " + b
    case ContradictedId(contradiction, claim) => "claim_state " + RowText(contradiction) + " " + claim
  }

  predicate Later(x: StateChange, y: StateChange) {
    x.at > y.at || (x.at == y.at && TextLess(RowText(y.id), RowText(x.id)))
  }

  /** The latest state change of a claim, by time and then identifier. */
  function Latest(changes: seq<StateChange>, claim: Id): Option<StateChange> {
    if changes == [] then None
    else
      var rest, last := Latest(changes[..|changes| - 1], claim), changes[|changes| - 1];
      if last.claim == claim && (rest.None? || !Later(rest.value, last)) then Some(last) else rest
  }

  function CurrentState(t: Tables, claim: Id): ClaimState
    requires claim in t.claims
  {
    match Latest(t.changes, claim)
    case None => t.claims[claim].initial
    case Some(change) => change.state
  }

  function SupportOf(t: Tables, claim: Id): set<Id> {
    set e | e in t.edges && e.source == claim && e.relation == SupportedBy :: e.target
  }

  function EvidenceOf(t: Tables, claim: Id): seq<Id> { ListedTexts(SupportOf(t, claim)) }

  function Grounding(t: Tables, claim: Id): GroundedClaim
    requires claim in t.claims
  {
    GroundedClaim(t.claims[claim], CurrentState(t, claim), EvidenceOf(t, claim))
  }

  function Grounded(t: Tables, caseId: Id): set<GroundedClaim> {
    set c | c in t.claims && t.claims[c].caseId == caseId :: Grounding(t, c)
  }

  predicate ClaimLess(x: Claim, y: Claim) {
    x.createdAt < y.createdAt || (x.createdAt == y.createdAt && TextLess(x.id, y.id))
  }

  ghost predicate ClaimsKeyed(t: Tables) { forall c | c in t.claims :: t.claims[c].id == c }

  /** Live claims with the key of a claim: neither rejected nor superseded. */
  function LivePriors(t: Tables, claim: Claim): set<Claim> {
    set c | c in t.claims && c != claim.id && t.claims[c].SameKey(claim)
            && CurrentState(t, c) != Rejected && CurrentState(t, c) != Superseded :: t.claims[c]
  }

  lemma ClaimsOrdered(s: set<Claim>)
    requires forall x, y | x in s && y in s :: x.id == y.id ==> x == y
    ensures OrdersOn(s, ClaimLess)
  {
    forall x, y | x in s && y in s
      ensures !ClaimLess(x, x) && (x != y ==> ClaimLess(x, y) || ClaimLess(y, x))
    {
      TextLessTrichotomy(x.id, y.id);
    }
    forall x, y, z | x in s && y in s && z in s && ClaimLess(x, y) && ClaimLess(y, z)
      ensures ClaimLess(x, z)
    {
      if x.createdAt == y.createdAt == z.createdAt { TextLessTransitive(x.id, y.id, z.id); }
    }
  }

  /** The priors in the order of creation. */
  function OrderedPriors(t: Tables, claim: Claim): (priors: seq<Claim>)
    requires ClaimsKeyed(t)
    ensures Sorted(priors, ClaimLess) && forall p :: p in priors <==> p in LivePriors(t, claim)
  {
    ClaimsOrdered(LivePriors(t, claim));
    Listed(LivePriors(t, claim), ClaimLess)
  }

  /** Evaluations that used an evidence record supporting the claim, computed through the evidence
      joins and not from the inputs of the evaluations. */
  function Affected(t: Tables, claim: Id): seq<Id> {
    ListedTexts(set u | u in t.uses && u.1 in SupportOf(t, claim) :: u.0)
  }

  // ---- Insertions that ignore rows already there ----

  function InsertEdge(edges: set<Edge>, e: Edge): set<Edge> {
    if exists x ::
      x in edges && (x.id == e.id || (x.source == e.source && x.relation == e.relation && x.target == e.target))
    then edges else edges + {e}
  }

  function InsertContradiction(rows: set<Contradiction>, k: Contradiction): set<Contradiction> {
    if !TextLess(k.a, k.b) || exists x :: x in rows && (x.id == k.id || (x.a == k.a && x.b == k.b))
    then rows else rows + {k}
  }

  function InsertChange(changes: seq<StateChange>, x: StateChange): seq<StateChange> {
    if exists y :: y in changes && y.id == x.id then changes else changes + [x]
  }

  // ---- Recording an external claim ----

  datatype ClaimRequest = ClaimRequest(
    claim: Id, caseId: Id, subject: string, attribute: string, value: KnowledgeValue, evidence: Id, edge: Id,
    provenance: Id, observation: Id, audit: Id, at: int)

  function RecordRows(q: ClaimRequest): set<LogRow> {
    {ProvenanceRow(q.provenance), ObservationRow(q.observation), AuditRow(q.audit)}
  }

  function ExternalClaim(q: ClaimRequest): Claim {
    Claim(q.claim, q.caseId, q.subject, q.attribute, q.value, External, Extracted, q.at)
  }

  datatype ClaimResult = ClaimResult(claim: Claim, contradictions: seq<Contradiction>, corroborates: seq<Id>)

  predicate Conflicting(claim: Claim, prior: Claim) {
    claim.value.Known? && prior.value.Known? && prior.value != claim.value
  }

  predicate Agreeing(claim: Claim, prior: Claim) {
    claim.value.Known? && prior.value.Known? && prior.value == claim.value
  }

  function Ordered(x: Id, y: Id): (Id, Id) { if TextLess(x, y) then (x, y) else (y, x) }

  function ContradictionRow(claim: Claim, prior: Claim, at: int): Contradiction {
    var (a, b) := Ordered(claim.id, prior.id);
    Contradiction(ContradictionId(a, b), claim.caseId, a, b, at)
  }

  function ClaimEdge(caseId: Id, source: Id, relation: Relation, target: Id): Edge {
    Edge(EdgeId(source, relation, target), caseId, source, relation, target)
  }

  function SupportEdge(q: ClaimRequest): Edge { Edge(Generated(q.edge), q.caseId, q.claim, SupportedBy, q.evidence) }

  /** The two state changes of a contradiction, the smaller claim first. */
  function ContradictedPair(claim: Claim, prior: Claim, at: int): seq<StateChange> {
    var row := ContradictionRow(claim, prior, at);
    [StateChange(ContradictedId(row.id, row.a), row.a, Contradicted, at),
     StateChange(ContradictedId(row.id, row.b), row.b, Contradicted, at)]
  }

  function Conflicts(claim: Claim, priors: seq<Claim>): seq<Claim> {
    if priors == [] then []
    else
      Conflicts(claim, priors[..|priors| - 1])
      + if Conflicting(claim, priors[|priors| - 1]) then [priors[|priors| - 1]] else []
  }

  function Agreements(claim: Claim, priors: seq<Claim>): seq<Claim> {
    if priors == [] then []
    else
      Agreements(claim, priors[..|priors| - 1])
      + if Agreeing(claim, priors[|priors| - 1]) then [priors[|priors| - 1]] else []
  }

  function ContradictedChanges(claim: Claim, conflicts: seq<Claim>, at: int): seq<StateChange> {
    if conflicts == [] then []
    else
      ContradictedChanges(claim, conflicts[..|conflicts| - 1], at)
      + ContradictedPair(claim, conflicts[|conflicts| - 1], at)
  }

  function ContradictionRows(claim: Claim, conflicts: seq<Claim>, at: int): seq<Contradiction> {
    seq(|conflicts|, i requires 0 <= i < |conflicts| => ContradictionRow(claim, conflicts[i], at))
  }

  function Ids(claims: seq<Claim>): seq<Id> {
    seq(|claims|, i requires 0 <= i < |claims| => claims[i].id)
  }

  /** All edges between a new claim and the priors it agrees or conflicts with. */
  function RelationEdges(claim: Claim, priors: seq<Claim>): set<Edge> {
    (set p | p in priors && Agreeing(claim, p) :: ClaimEdge(claim.caseId, claim.id, Corroborates, p.id))
    + (set p | p in priors && Conflicting(claim, p) :: ClaimEdge(claim.caseId, claim.id, Contradicts, p.id))
    + (set p | p in priors && Conflicting(claim, p) :: ClaimEdge(claim.caseId, p.id, Contradicts, claim.id))
  }

  function ContradictionSet(claim: Claim, priors: seq<Claim>, at: int): set<Contradiction> {
    set p | p in priors && Conflicting(claim, p) :: ContradictionRow(claim, p, at)
  }

  /** The tables with a new claim, its support, and its relations to the priors. */
  function WithClaim(t: Tables, q: ClaimRequest, priors: seq<Claim>): Tables {
    var claim := ExternalClaim(q);
    t.(claims := t.claims[q.claim := claim],
       evidence := t.evidence + {q.evidence},
       edges := InsertEdge(t.edges, SupportEdge(q)) + RelationEdges(claim, priors),
       contradictions := t.contradictions + ContradictionSet(claim, priors, q.at),
       changes := t.changes + ContradictedChanges(claim, Conflicts(claim, priors), q.at),
       log := t.log + RecordRows(q))
  }

  function ResultOf(q: ClaimRequest, priors: seq<Claim>): ClaimResult {
    var claim := ExternalClaim(q);
    ClaimResult(claim, ContradictionRows(claim, Conflicts(claim, priors), q.at), Ids(Agreements(claim, priors)))
  }

  /** A recorded claim, compared with every live prior on its key at once. */
  function RecordClaim(t: Tables, q: ClaimRequest): (Tables, Result<ClaimResult>)
    requires ClaimsKeyed(t)
  {
    if q.caseId !in t.cases then (t, Err(NotFound))
    else if !(RecordRows(q) !! t.log) || q.claim in t.claims || q.evidence in t.evidence then (t, Err(Conflict))
    else
      var priors := OrderedPriors(t, ExternalClaim(q));
      (WithClaim(t, q, priors), Ok(ResultOf(q, priors)))
  }

  // ---- Reviews and corrections ----

  datatype ReviewRequest = ReviewRequest(
    claim: Id, decision: Decision, change: Id, fact: Id, review: Id, audit: Id, at: int)

  function ReviewRows(q: ReviewRequest): set<LogRow> { {ReviewRow(q.review), AuditRow(q.audit)} }

  function DecidedState(d: Decision): ClaimState
    requires d != Correct
  {
    match d
    case Verify => Verified
    case Reject => Rejected
    case NeedsMoreEvidence => Unresolved
  }

  /** The tables with a decided state and, for a verification, a fact. */
  function WithReview(t: Tables, q: ReviewRequest): Tables
    requires q.claim in t.claims && q.decision != Correct
  {
    var fact := Fact(q.fact, q.claim, t.claims[q.claim].value);
    t.(changes := InsertChange(t.changes, StateChange(Generated(q.change), q.claim, DecidedState(q.decision), q.at)),
       facts := if q.decision == Verify then t.facts[q.claim := fact] else t.facts,
       log := t.log + ReviewRows(q))
  }

  function ReviewClaim(t: Tables, q: ReviewRequest): (Tables, Result<()>) {
    if q.claim !in t.claims then (t, Err(NotFound))
    else if q.decision == Correct then (t, Err(InvalidInput))
    else if !(ReviewRows(q) !! t.log) then (t, Err(Conflict))
    else if q.decision == Verify && (q.claim in t.facts || exists f :: f in t.facts && t.facts[f].id == q.fact)
    then (t, Err(Conflict))
    else (WithReview(t, q), Ok(()))
  }

  datatype CorrectionRequest = CorrectionRequest(
    original: Id, corrected: Id, value: KnowledgeValue, correction: Id, originalChange: Id, correctedChange: Id,
    provenance: Id, review: Id, audit: Id, at: int)

  function CorrectionRows(q: CorrectionRequest): set<LogRow> {
    {ProvenanceRow(q.provenance), ReviewRow(q.review), AuditRow(q.audit)}
  }

  function CorrectedClaim(t: Tables, q: CorrectionRequest): Claim
    requires q.original in t.claims
  {
    var original := t.claims[q.original];
    Claim(q.corrected, original.caseId, original.subject, original.attribute, q.value, Human, Verified, q.at)
  }

  function CorrectionRow(t: Tables, q: CorrectionRequest): Correction {
    Correction(q.correction, q.original, q.corrected, Affected(t, q.original))
  }

  /** The tables with a corrected claim in place of a superseded one. */
  function WithCorrected(t: Tables, q: CorrectionRequest): Tables
    requires q.original in t.claims
  {
    var superseded := StateChange(Generated(q.originalChange), q.original, Superseded, q.at);
    var verified := StateChange(Generated(q.correctedChange), q.corrected, Verified, q.at);
    var caseId := t.claims[q.original].caseId;
    t.(claims := t.claims[q.corrected := CorrectedClaim(t, q)],
       corrections := t.corrections[q.correction := CorrectionRow(t, q)],
       changes := InsertChange(InsertChange(t.changes, superseded), verified),
       edges := InsertEdge(t.edges, ClaimEdge(caseId, q.corrected, Supersedes, q.original)),
       log := t.log + CorrectionRows(q))
  }

  function CorrectClaim(t: Tables, q: CorrectionRequest): (Tables, Result<Correction>) {
    if q.original !in t.claims then (t, Err(NotFound))
    else if !(CorrectionRows(q) !! t.log) || q.corrected in t.claims
      || q.correction in t.corrections then (t, Err(Conflict))
    else (WithCorrected(t, q), Ok(CorrectionRow(t, q)))
  }

  // ---- Rules and evaluations ----

  function CreateCase(t: Tables, caseId: Id, audit: Id): (Tables, Result<()>) {
    if caseId in t.cases || AuditRow(audit) in t.log then (t, Err(Conflict))
    else (t.(cases := t.cases + {caseId}, log := t.log + {AuditRow(audit)}), Ok(()))
  }

  /** One rule identity per package and key; registering it again is refused. */
  function RegisterRule(t: Tables, v: RuleVersion, rule: Id, audit: Id): (Tables, Result<RuleVersion>) {
    var rows := {RuleRow(rule), AuditRow(audit)};
    if !(rows !! t.log) || v.id in t.versions || exists x ::
      x in t.versions && t.versions[x].package == v.package && t.versions[x].key == v.key
    then (t, Err(Conflict))
    else (t.(versions := t.versions[v.id := v], log := t.log + rows), Ok(v))
  }

  datatype EvaluationRequest = EvaluationRequest(
    caseId: Id, version: Id, evaluation: Id, obligation: Id, deadline: Id, work: Id, audit: Id, correlation: Id,
    at: int)

  /** The due date of a satisfied rule; none for other verdicts. */
  function DueDate(def: Definition, j: Judgement): Result<Option<(Date, Date)>> {
    if j.verdict != Satisfied || j.anchors == {} then Ok(None)
    else if def.effect.daysAfter > I32_MAX then Err(InvalidInput)
    else
      var anchor := EarliestDate(j.anchors);
      match CheckedAddDays(anchor, def.effect.daysAfter)
      case Err(e) => Err(e)
      case Ok(due) => Ok(Some((anchor, due)))
  }

  lemma DatesOrdered(s: set<Date>)
    ensures OrdersOn(s, Before)
  {
  }

  /** The first date of an ordered set of dates. */
  function EarliestDate(dates: set<Date>): (d: Date)
    requires dates != {}
    ensures d in dates
  {
    DatesOrdered(dates);
    Listed(dates, Before)[0]
  }

  /** Everything an evaluation of the given inputs causes, with the identifiers of the request. */
  function Materialize(def: Definition, inputs: set<RuleInput>, q: EvaluationRequest): Result<Materialization>
    requires ClaimsDiffer(inputs)
  {
    var j := Judge(def, inputs);
    var evaluation := Evaluation(q.evaluation, q.caseId, q.version, Recorded(inputs), j.verdict, j.explanation, q.at,
      q.correlation);
    match DueDate(def, j)
    case Err(e) => Err(e)
    case Ok(None) => Ok(Materialization(evaluation, None, None, None))
    case Ok(Some((anchor, due))) =>
      Ok(Materialization(evaluation,
        Some(Obligation(q.obligation, q.caseId, q.evaluation, def.effect.kind, def.effect.description, q.at)),
        Some(Deadline(q.deadline, q.caseId, q.obligation, Some(due), Some(due), anchor, def.effect.daysAfter,
          def.effect.anchor, q.at)),
        Some(WorkflowTask(q.work, q.caseId, q.obligation, def.effect.title, q.at))))
  }

  // ---- Splitting a materialisation into rows and joining it again ----

  function IsoOf(d: Option<Date>): Option<string>
    requires d.Some? ==> IsDate(d.value)
  {
    if d.None? then None else Some(IsoDates.ToIso(d.value))
  }

  function DateOf(s: Option<string>): Result<Option<Date>> {
    match s
    case None => Ok(None)
    case Some(text) =>
      match IsoDates.ParseIso(text)
      case Err(e) => Err(e)
      case Ok(d) => Ok(Some(d))
  }

  predicate HasDates(d: Deadline) {
    (d.dueEarliest.Some? ==> IsDate(d.dueEarliest.value)) && (d.dueLatest.Some? ==> IsDate(d.dueLatest.value))
  }

  function RowOf(d: Deadline): DeadlineRow
    requires HasDates(d)
  {
    DeadlineRow(d.id, d.caseId, d.obligation, IsoOf(d.dueEarliest), IsoOf(d.dueLatest), d.anchor, d.daysAfter,
      d.anchorPredicate, d.at)
  }

  function DeadlineOf(r: DeadlineRow): Result<Deadline> {
    match (DateOf(r.dueEarliest), DateOf(r.dueLatest))
    case (Ok(earliest), Ok(latest)) =>
      Ok(Deadline(r.id, r.caseId, r.obligation, earliest, latest, r.anchor, r.daysAfter, r.anchorPredicate, r.at))
    case (Err(e), _) => Err(e)
    case (_, Err(e)) => Err(e)
  }

  predicate IsMemo(t: Tables, e: Id, caseId: Id, version: Id, inputs: seq<RuleInput>) {
    e in t.evaluations && t.evaluations[e].caseId == caseId && t.evaluations[e].version == version
    && t.evaluations[e].inputs == inputs
  }

  ghost function ObligationFor(rows: map<Id, Obligation>, evaluation: Id): Option<Obligation> {
    if o :| o in rows && rows[o].evaluation == evaluation then Some(rows[o]) else None
  }

  ghost function DeadlineFor(rows: map<Id, DeadlineRow>, obligation: Id): Option<DeadlineRow> {
    if d :| d in rows && rows[d].obligation == obligation then Some(rows[d]) else None
  }

  ghost function TaskFor(rows: map<Id, WorkflowTask>, obligation: Id): Option<WorkflowTask> {
    if k :| k in rows && rows[k].obligation == obligation then Some(rows[k]) else None
  }

  /** An evaluation joined with the obligation it created and that obligation's deadline and work. */
  ghost function LoadWorkflow(t: Tables, evaluation: Id): Result<Materialization>
    requires evaluation in t.evaluations
  {
    match ObligationFor(t.obligations, evaluation)
    case None => Ok(Materialization(t.evaluations[evaluation], None, None, None))
    case Some(o) =>
      var work := TaskFor(t.tasks, o.id);
      match DeadlineFor(t.deadlines, o.id)
      case None => Ok(Materialization(t.evaluations[evaluation], Some(o), None, work))
      case Some(row) =>
        match DeadlineOf(row)
        case Err(e) => Err(e)
        case Ok(d) => Ok(Materialization(t.evaluations[evaluation], Some(o), Some(d), work))
  }

  /** Rows of a materialisation whose identifiers are taken, or whose case is unknown. */
  predicate Clashes(t: Tables, m: Materialization, audit: Id) {
    || AuditRow(audit) in t.log || m.evaluation.caseId !in t.cases || m.evaluation.id in t.evaluations
    || (m.obligation.Some? && m.obligation.value.id in t.obligations)
    || (m.deadline.Some? && m.deadline.value.id in t.deadlines)
    || (m.work.Some? && m.work.value.id in t.tasks)
  }

  function UsesOf(e: Evaluation): set<(Id, Id)> {
    set i, ev | i in e.inputs && ev in i.evidence :: (e.id, ev)
  }

  function WithRows(t: Tables, m: Materialization, audit: Id): Tables
    requires m.deadline.Some? ==> HasDates(m.deadline.value)
  {
    t.(evaluations := t.evaluations[m.evaluation.id := m.evaluation],
       uses := t.uses + UsesOf(m.evaluation),
       obligations := if m.obligation.None? then t.obligations
         else t.obligations[m.obligation.value.id := m.obligation.value],
       deadlines := if m.deadline.None? then t.deadlines
         else t.deadlines[m.deadline.value.id := RowOf(m.deadline.value)],
       tasks := if m.work.None? then t.tasks else t.tasks[m.work.value.id := m.work.value],
       log := t.log + {AuditRow(audit)})
  }

  /** Stores a materialisation, unless the same inputs were evaluated before: then the earlier
      materialisation is the answer and nothing is stored. */
  ghost function RecordEvaluation(t: Tables, m: Materialization, audit: Id): (Tables, Result<Materialization>)
    requires m.deadline.Some? ==> HasDates(m.deadline.value)
  {
    if e :| IsMemo(t, e, m.evaluation.caseId, m.evaluation.version, m.evaluation.inputs) then (t, LoadWorkflow(t, e))
    else if Clashes(t, m, audit) then (t, Err(Conflict))
    else (WithRows(t, m, audit), Ok(m))
  }

  lemma GroundedClaimsDiffer(t: Tables, caseId: Id, def: Definition)
    requires ClaimsKeyed(t)
    ensures ClaimsDiffer(RelevantInputs(def, Grounded(t, caseId)))
  {
  }

  lemma MaterializedDates(def: Definition, inputs: set<RuleInput>, q: EvaluationRequest)
    requires ClaimsDiffer(inputs) && Materialize(def, inputs, q).Ok?
    ensures Materialize(def, inputs, q).value.deadline.Some? ==>
      HasDates(Materialize(def, inputs, q).value.deadline.value)
  {
  }

  /** The second half of an evaluation, on inputs that were read before: judge, materialise, store. */
  ghost function Conclude(t: Tables, inputs: set<RuleInput>, q: EvaluationRequest): (Tables, Result<Materialization>)
    requires q.version in t.versions && ClaimsDiffer(inputs)
  {
    var def := t.versions[q.version].definition;
    match Materialize(def, inputs, q)
    case Err(e) => (t, Err(e))
    case Ok(m) =>
      MaterializedDates(def, inputs, q);
      RecordEvaluation(t, m, q.audit)
  }

  /** An evaluation that nothing comes between: the inputs are those of the same tables. */
  ghost function Evaluate(t: Tables, q: EvaluationRequest): (Tables, Result<Materialization>)
    requires ClaimsKeyed(t)
  {
    if q.version !in t.versions then (t, Err(NotFound))
    else
      var def := t.versions[q.version].definition;
      GroundedClaimsDiffer(t, q.caseId, def);
      Conclude(t, RelevantInputs(def, Grounded(t, q.caseId)), q)
  }
}
