/** Where everything in a reachable state comes from: which operation of the run stored it, and what
    that operation must have found. */
module Origins {
  import opened Wrappers
  import opened Ordering
  import opened Values
  import opened Records
  import opened Rules
  import opened Verdicts
  import opened Evidence
  import opened Operations
  import opened Links
  import opened States
  import opened Evaluations
  import opened History
  import opened Promises
  import opened Guarantees
  import opened Outcomes
  import Temporal

  // ---- Which rows one operation stores ----

  datatype Entry =
    | CaseEntry(caseId: Id) | ClaimEntry(claim: Claim) | FactEntry(fact: Fact) | VersionEntry(version: RuleVersion)
    | CorrectionEntry(correction: Correction)

  ghost predicate Stored(t: Tables, e: Entry) {
    match e
    case CaseEntry(c) => c in t.cases
    case ClaimEntry(c) => c.id in t.claims && t.claims[c.id] == c
    case FactEntry(f) => f.claim in t.facts && t.facts[f.claim] == f
    case VersionEntry(v) => v.id in t.versions && t.versions[v.id] == v
    case CorrectionEntry(x) => x.id in t.corrections && t.corrections[x.id] == x
  }

  /** What the recording of a claim must find. */
  ghost predicate Recordable(t: Tables, q: ClaimRequest) {
    && q.caseId in t.cases && q.claim !in t.claims && q.evidence !in t.evidence
    && ProvenanceRow(q.provenance) !in t.log && ObservationRow(q.observation) !in t.log && AuditRow(q.audit) !in t.log
  }

  ghost predicate Correctable(t: Tables, q: CorrectionRequest) {
    && q.original in t.claims && q.corrected !in t.claims && q.correction !in t.corrections
    && ProvenanceRow(q.provenance) !in t.log && ReviewRow(q.review) !in t.log && AuditRow(q.audit) !in t.log
  }

  ghost predicate Verifiable(t: Tables, q: ReviewRequest) {
    && q.decision == Verify && q.claim in t.claims && q.claim !in t.facts && !IsFactName(t, q.fact)
    && ReviewRow(q.review) !in t.log && AuditRow(q.audit) !in t.log
  }

  ghost predicate Registrable(t: Tables, v: RuleVersion, rule: Id, audit: Id) {
    && v.id !in t.versions && RuleRow(rule) !in t.log && AuditRow(audit) !in t.log && !IsRuleKey(t, v.package, v.key)
  }

  /** What a correction reports: the evaluations that use the original if it was recorded externally. */
  ghost function Reported(t: Tables, original: Id): seq<Id>
    requires original in t.claims
  {
    if t.claims[original].origin == External then ListedTexts(UsersOf(t, original)) else []
  }

  /** The operation stores the row: it finds what it needs, and the row has the requested content. */
  ghost predicate Stores(t: Tables, op: Op, e: Entry) {
    match (op, e)
    case (OpenCase(c, audit), CaseEntry(x)) => x == c && c !in t.cases && AuditRow(audit) !in t.log
    case (Record(q), ClaimEntry(x)) =>
      Recordable(t, q) && x == Claim(q.claim, q.caseId, q.subject, q.attribute, q.value, External, Extracted, q.at)
    case (CorrectOp(q), ClaimEntry(x)) =>
      Correctable(t, q) && var original := t.claims[q.original];
        x == Claim(q.corrected, original.caseId, original.subject, original.attribute, q.value, Human, Verified, q.at)
    case (CorrectOp(q), CorrectionEntry(x)) =>
      Correctable(t, q) && x == Correction(q.correction, q.original, q.corrected, Reported(t, q.original))
    case (Review(q), FactEntry(x)) => Verifiable(t, q) && x == Fact(q.fact, q.claim, t.claims[q.claim].value)
    case (Register(v, rule, audit), VersionEntry(x)) => Registrable(t, v, rule, audit) && x == v
    case _ => false
  }

  lemma ConcludeStores(t: Tables, inputs: set<RuleInput>, q: EvaluationRequest)
    requires q.version in t.versions && ClaimsDiffer(inputs)
    ensures var u := Conclude(t, inputs, q).0;
      && u.cases == t.cases && u.claims == t.claims && u.facts == t.facts && u.versions == t.versions
      && u.corrections == t.corrections
  {
    hide Conclude, Clashes, HasDates;
    ConcludeShape(t, inputs, q);
  }

  lemma ReportedIsAffected(t: Tables, c: Id)
    requires Inv(t) && c in t.claims
    ensures Affected(t, c) == Reported(t, c)
  {
    hide Inv, Affected, UsersOf, ListedTexts;
    AffectedExactly(t, c);
  }

  /** The returned correction names what was asked for and the evaluations that use the original. */
  lemma CorrectionReturns(t: Tables, q: CorrectionRequest)
    requires Inv(t) && CorrectClaim(t, q).1.Ok?
    ensures Correctable(t, q)
    ensures CorrectClaim(t, q).1.value == Correction(q.correction, q.original, q.corrected, Reported(t, q.original))
  {
    CorrectingExactly(t, q);
    assert CorrectClaim(t, q).1.value.affected == Affected(t, q.original);
    ReportedIsAffected(t, q.original);
    hide CorrectClaim, Affected, Reported, Inv;
  }

  lemma CorrectionStores(t: Tables, q: CorrectionRequest, e: Entry)
    requires Inv(t)
    ensures Stored(CorrectClaim(t, q).0, e) <==> Stored(t, e) || Stores(t, CorrectOp(q), e)
  {
    hide CorrectClaim, Affected, Reported, Inv;
    CorrectingExactly(t, q);
    if CorrectClaim(t, q).1.Ok? { CorrectionReturns(t, q); }
  }

  lemma RecordStores(t: Tables, q: ClaimRequest, e: Entry)
    requires ClaimsKeyed(t)
    ensures Stored(RecordClaim(t, q).0, e) <==> Stored(t, e) || Stores(t, Record(q), e)
  {
    hide RecordClaim, ClaimsKeyed;
    RecordingExactly(t, q);
  }

  lemma ReviewStores(t: Tables, q: ReviewRequest, e: Entry)
    ensures Stored(ReviewClaim(t, q).0, e) <==> Stored(t, e) || Stores(t, Review(q), e)
  {
    hide ReviewClaim;
    ReviewingExactly(t, q);
  }

  lemma RegisterStores(t: Tables, v: RuleVersion, rule: Id, audit: Id, e: Entry)
    ensures Stored(RegisterRule(t, v, rule, audit).0, e) <==> Stored(t, e) || Stores(t, Register(v, rule, audit), e)
  {
    hide RegisterRule, IsRuleKey;
    RegisteringExactly(t, v, rule, audit);
  }

  /** One operation adds exactly the rows it stores and loses none. */
  lemma StepStores(t: Tables, op: Op, e: Entry)
    requires Inv(t) && Admissible(t, op)
    ensures ClaimsKeyed(t)
    ensures Stored(Step(t, op), e) <==> Stored(t, e) || Stores(t, op, e)
  {
    KeyedWhenValid(t);
    hide Inv, Admissible, RecordClaim, ReviewClaim, CorrectClaim, RegisterRule, Conclude, Stored, Stores, InputOk,
      CurrentInputs;
    match op
    case OpenCase(c, audit) => CaseStores(t, c, audit, e);
    case Record(q) => RecordStores(t, q, e);
    case Review(q) => ReviewStores(t, q, e);
    case CorrectOp(q) => CorrectionStores(t, q, e);
    case Register(v, rule, audit) => RegisterStores(t, v, rule, audit, e);
    case EvaluateOp(q) =>
      if q.version in t.versions { PartsForEvaluating(t, q); ConclusionStores(t, CurrentInputs(t, q), q, op, e); }
      else { NothingStored(t, op, e); }
    case ConcludeOp(inputs, q) =>
      if q.version in t.versions && ClaimsDiffer(inputs) { ConclusionStores(t, inputs, q, op, e); }
      else { NothingStored(t, op, e); }
  }

  lemma CaseStores(t: Tables, c: Id, audit: Id, e: Entry)
    ensures Stored(CreateCase(t, c, audit).0, e) <==> Stored(t, e) || Stores(t, OpenCase(c, audit), e)
  {
    hide CreateCase;
    OpeningExactly(t, c, audit);
  }

  lemma ConclusionStores(t: Tables, inputs: set<RuleInput>, q: EvaluationRequest, op: Op, e: Entry)
    requires q.version in t.versions && ClaimsDiffer(inputs) && (op.EvaluateOp? || op.ConcludeOp?)
    ensures Stored(Conclude(t, inputs, q).0, e) <==> Stored(t, e) || Stores(t, op, e)
  {
    hide Conclude;
    ConcludeStores(t, inputs, q);
  }

  lemma NothingStored(t: Tables, op: Op, e: Entry)
    requires op.EvaluateOp? || op.ConcludeOp?
    ensures !Stores(t, op, e)
  {
  }

  ghost predicate StoredBefore(states: seq<Tables>, ops: seq<Op>, j: nat, e: Entry)
    requires j <= |ops| && |ops| < |states|
  {
    exists i :: 0 <= i < j && Stores(states[i], ops[i], e)
  }

  lemma StoredNext(states: seq<Tables>, ops: seq<Op>, j: nat, e: Entry)
    requires 0 < j <= |ops| && |ops| < |states|
    ensures StoredBefore(states, ops, j, e) <==>
      StoredBefore(states, ops, j - 1, e) || Stores(states[j - 1], ops[j - 1], e)
  {
    hide Stores;
  }

  /** The cases, claims, facts, rules and corrections of every reachable state are exactly those the
      operations before it stored: each operation that found what it needs, whatever else the tables
      say, and no other. */
  lemma {:induction false} EverythingHasAnOrigin(states: seq<Tables>, ops: seq<Op>, j: nat, e: Entry)
    requires IsHistory(states, ops) && j < |states|
    ensures Stored(states[j], e) <==> StoredBefore(states, ops, j, e)
  {
    hide Stores, Stored, Step, Admissible, Inv, ClaimsKeyed;
    if j == 0 {
      NothingAtFirst(e);
    } else {
      EverythingHasAnOrigin(states, ops, j - 1, e);
      StoredNext(states, ops, j, e);
      hide StoredBefore;
      ReachableIsValid(states, ops, j - 1);
      assert IsStep(states[j - 1], ops[j - 1], states[j]);
      StepStores(states[j - 1], ops[j - 1], e);
    }
  }

  lemma NothingAtFirst(e: Entry)
    ensures !Stored(EMPTY, e)
  {
  }

  /** A correction that is accepted reports exactly the evaluations that use an external original, and
      nothing for another one; it is stored as it is returned, for good. */
  lemma CorrectionsReportExactly(states: seq<Tables>, ops: seq<Op>, i: nat, j: nat, q: CorrectionRequest)
    requires Happens(states, ops, i, CorrectOp(q)) && i < j < |states|
    ensures CorrectClaim(states[i], q).1.Ok? <==> Correctable(states[i], q)
    ensures Correctable(states[i], q) ==>
      var r := CorrectClaim(states[i], q).1.value;
      && r.id == q.correction && r.original == q.original && r.corrected == q.corrected
      && r.affected == (if states[i].claims[q.original].origin == External
         then ListedTexts(UsersOf(states[i], q.original)) else [])
      && q.correction in states[j].corrections && states[j].corrections[q.correction] == r
  {
    ReachableIsValid(states, ops, i);
    CorrectingExactly(states[i], q);
    hide Inv, IsHistory, CorrectClaim, UsersOf, ListedTexts;
    if Correctable(states[i], q) {
      CorrectionReturns(states[i], q);
      var r := CorrectClaim(states[i], q).1.value;
      assert Stores(states[i], ops[i], CorrectionEntry(r));
      hide Correctable;
      EverythingHasAnOrigin(states, ops, j, CorrectionEntry(r));
    }
  }

  // ---- One rule of a key in each package ----

  ghost predicate RuleKeysUnique(t: Tables) {
    && (forall v | v in t.versions :: t.versions[v].id == v)
    && forall v, w | v in t.versions && w in t.versions && t.versions[v].package == t.versions[w].package
         && t.versions[v].key == t.versions[w].key :: v == w
  }

  lemma RegisterKeepsKeys(t: Tables, op: Op, u: Tables)
    requires RuleKeysUnique(t) && forall v :: Stored(u, VersionEntry(v)) <==>
      Stored(t, VersionEntry(v)) || Stores(t, op, VersionEntry(v))
    requires forall v | v in u.versions :: u.versions[v].id == v
    ensures RuleKeysUnique(u)
  {
    forall v, w | v in u.versions && w in u.versions && u.versions[v].package == u.versions[w].package
      && u.versions[v].key == u.versions[w].key
      ensures v == w
    {
      assert Stored(u, VersionEntry(u.versions[v])) && Stored(u, VersionEntry(u.versions[w]));
    }
  }

  /** Only registering touches the rule versions. */
  lemma OtherStepKeepsVersions(t: Tables, op: Op)
    requires Inv(t) && Admissible(t, op) && !op.Register?
    ensures ClaimsKeyed(t) && Step(t, op).versions == t.versions
  {
    KeyedWhenValid(t);
    hide Inv, Admissible, ClaimsKeyed;
    if op.EvaluateOp? {
      EvaluationKeepsVersions(t, op.evaluation);
    } else if op.ConcludeOp? {
      hide Conclude;
      if op.conclusion.version in t.versions && ClaimsDiffer(op.inputs) { ConcludeStores(t, op.inputs, op.conclusion); }
    } else {
      ClaimOperationKeepsVersions(t, op);
    }
  }

  lemma ClaimOperationKeepsVersions(t: Tables, op: Op)
    requires ClaimsKeyed(t) && (op.OpenCase? || op.Record? || op.Review? || op.CorrectOp?)
    ensures Step(t, op).versions == t.versions
  {
    hide RecordClaim, ReviewClaim, CorrectClaim, ClaimsKeyed;
    match op
    case OpenCase(c, audit) =>
    case Record(q) => RecordFrame(t, q);
    case Review(q) => ReviewKeepsVersions(t, q);
    case CorrectOp(q) => CorrectionKeepsVersions(t, q);
  }

  lemma EvaluationKeepsVersions(t: Tables, q: EvaluationRequest)
    requires Inv(t) && ClaimsKeyed(t)
    ensures Evaluate(t, q).0.versions == t.versions
  {
    hide Inv, Conclude, CurrentInputs, InputOk, ClaimsKeyed;
    if q.version in t.versions {
      PartsForEvaluating(t, q);
      hide Evaluate;
      ConcludeStores(t, CurrentInputs(t, q), q);
    }
  }

  lemma ReviewKeepsVersions(t: Tables, q: ReviewRequest)
    ensures ReviewClaim(t, q).0.versions == t.versions
  {
  }

  lemma CorrectionKeepsVersions(t: Tables, q: CorrectionRequest)
    ensures CorrectClaim(t, q).0.versions == t.versions
  {
    hide Affected, InsertChange, InsertEdge;
  }

  lemma VersionsKeyed(t: Tables, op: Op)
    requires Inv(t) && Admissible(t, op) && forall v | v in t.versions :: t.versions[v].id == v
    ensures ClaimsKeyed(t) && forall v | v in Step(t, op).versions :: Step(t, op).versions[v].id == v
  {
    KeyedWhenValid(t);
    if op.Register? {
      RegisteringExactly(t, op.version, op.rule, op.audit);
      hide Inv, Admissible, RegisterRule, ClaimsKeyed;
    } else {
      OtherStepKeepsVersions(t, op);
      hide Inv, Admissible, Step, ClaimsKeyed;
    }
  }

  /** In every reachable state a package has at most one rule of a key. */
  lemma {:induction false} RuleKeysAreUnique(states: seq<Tables>, ops: seq<Op>, j: nat)
    requires IsHistory(states, ops) && j < |states|
    ensures RuleKeysUnique(states[j])
  {
    hide Stores, Stored, Step, Admissible, Inv, ClaimsKeyed;
    if j > 0 {
      RuleKeysAreUnique(states, ops, j - 1);
      ReachableIsValid(states, ops, j - 1);
      assert IsStep(states[j - 1], ops[j - 1], states[j]);
      forall v
        ensures Stored(states[j], VersionEntry(v)) <==>
          Stored(states[j - 1], VersionEntry(v)) || Stores(states[j - 1], ops[j - 1], VersionEntry(v))
      {
        StepStores(states[j - 1], ops[j - 1], VersionEntry(v));
      }
      VersionsKeyed(states[j - 1], ops[j - 1]);
      RegisterKeepsKeys(states[j - 1], ops[j - 1], states[j]);
    }
  }
}
