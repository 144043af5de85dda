/** Stored evaluations: what every operation keeps about their inputs, their evidence and the
    workflow rows they caused. */
module Evaluations {
  import opened Wrappers
  import opened Records
  import opened Rules
  import opened Evidence
  import opened Operations
  import opened Links
  import opened States
  import IsoDates
  import Temporal

  // ---- Joining rows ----

  /** Obligations refer to stored evaluations, each at most once. */
  ghost predicate ObligationsOk(rows: map<Id, Obligation>, evaluations: set<Id>) {
    && (forall o | o in rows :: rows[o].id == o && rows[o].evaluation in evaluations)
    && (forall o, p | o in rows && p in rows :: rows[o].evaluation == rows[p].evaluation ==> o == p)
  }

  /** Deadlines refer to stored obligations, each at most once. */
  ghost predicate DeadlinesOk(rows: map<Id, DeadlineRow>, obligations: set<Id>) {
    && (forall d | d in rows :: rows[d].id == d && rows[d].obligation in obligations)
    && (forall d, e | d in rows && e in rows :: rows[d].obligation == rows[e].obligation ==> d == e)
  }

  /** Workflow tasks refer to stored obligations, each at most once. */
  ghost predicate TasksOk(rows: map<Id, WorkflowTask>, obligations: set<Id>) {
    && (forall k | k in rows :: rows[k].id == k && rows[k].obligation in obligations)
    && (forall k, l | k in rows && l in rows :: rows[k].obligation == rows[l].obligation ==> k == l)
  }

  ghost predicate RowsOk(t: Tables) {
    && (forall e | e in t.evaluations :: t.evaluations[e].id == e)
    && ObligationsOk(t.obligations, t.evaluations.Keys)
    && DeadlinesOk(t.deadlines, t.obligations.Keys)
    && TasksOk(t.tasks, t.obligations.Keys)
  }

  /** The parts of a materialisation belong together: one evaluation, and all three rows or none. */
  ghost predicate Coherent(m: Materialization) {
    && (m.obligation.Some? <==> m.deadline.Some?) && (m.obligation.Some? <==> m.work.Some?)
    && (m.obligation.Some? ==>
         && m.obligation.value.evaluation == m.evaluation.id
         && m.deadline.value.obligation == m.obligation.value.id
         && m.work.value.obligation == m.obligation.value.id
         && HasDates(m.deadline.value))
  }

  /** Adding the obligation of a new evaluation leaves those of the others. */
  lemma AddObligation(rows: map<Id, Obligation>, evaluations: set<Id>, o: Obligation)
    requires ObligationsOk(rows, evaluations) && o.id !in rows && o.evaluation !in evaluations
    ensures ObligationsOk(rows[o.id := o], evaluations + {o.evaluation})
    ensures ObligationFor(rows[o.id := o], o.evaluation) == Some(o)
    ensures forall e | e in evaluations :: ObligationFor(rows[o.id := o], e) == ObligationFor(rows, e)
    ensures forall e | e in evaluations && ObligationFor(rows, e).Some? :: ObligationFor(rows, e).value.id in rows
  {
    var more := rows[o.id := o];
    assert more[o.id] == o;
    forall e | e in evaluations
      ensures ObligationFor(more, e) == ObligationFor(rows, e)
    {
      if p :| p in rows && rows[p].evaluation == e {
        assert more[p].evaluation == e;
      }
    }
  }

  lemma AddDeadline(rows: map<Id, DeadlineRow>, obligations: set<Id>, d: DeadlineRow)
    requires DeadlinesOk(rows, obligations) && d.id !in rows && d.obligation !in obligations
    ensures DeadlinesOk(rows[d.id := d], obligations + {d.obligation})
    ensures DeadlineFor(rows[d.id := d], d.obligation) == Some(d)
    ensures forall o | o in obligations :: DeadlineFor(rows[d.id := d], o) == DeadlineFor(rows, o)
  {
    var more := rows[d.id := d];
    assert more[d.id] == d;
    forall o | o in obligations
      ensures DeadlineFor(more, o) == DeadlineFor(rows, o)
    {
      if e :| e in rows && rows[e].obligation == o {
        assert more[e].obligation == o;
      }
    }
  }

  lemma AddTask(rows: map<Id, WorkflowTask>, obligations: set<Id>, k: WorkflowTask)
    requires TasksOk(rows, obligations) && k.id !in rows && k.obligation !in obligations
    ensures TasksOk(rows[k.id := k], obligations + {k.obligation})
    ensures TaskFor(rows[k.id := k], k.obligation) == Some(k)
    ensures forall o | o in obligations :: TaskFor(rows[k.id := k], o) == TaskFor(rows, o)
  {
    var more := rows[k.id := k];
    assert more[k.id] == k;
    forall o | o in obligations
      ensures TaskFor(more, o) == TaskFor(rows, o)
    {
      if l :| l in rows && rows[l].obligation == o {
        assert more[l].obligation == o;
      }
    }
  }

  lemma NoRowsYet(t: Tables, id: Id)
    requires RowsOk(t) && id !in t.evaluations
    ensures ObligationFor(t.obligations, id) == None
    ensures ObligationsOk(t.obligations, t.evaluations.Keys + {id})
  {
  }

  /** Due dates survive their storage as text. */
  lemma DeadlineRoundTrip(d: Deadline)
    requires HasDates(d)
    ensures DeadlineOf(RowOf(d)) == Ok(d)
  {
    if d.dueEarliest.Some? { IsoDates.ParseAfterRender(d.dueEarliest.value); }
    if d.dueLatest.Some? { IsoDates.ParseAfterRender(d.dueLatest.value); }
    hide IsoDates.ParseIso, IsoDates.ToIso;
  }

  /** The row tables after storing a materialisation with its three rows, or with none. */
  lemma StoredRows(t: Tables, m: Materialization, audit: Id)
    requires RowsOk(t) && Coherent(m) && !Clashes(t, m, audit)
    ensures RowsOk(WithRows(t, m, audit))
    ensures var u := WithRows(t, m, audit);
      && u.evaluations[m.evaluation.id] == m.evaluation
      && ObligationFor(u.obligations, m.evaluation.id) == m.obligation
      && (forall id | id in t.evaluations ::
           && u.evaluations[id] == t.evaluations[id]
           && ObligationFor(u.obligations, id) == ObligationFor(t.obligations, id)
           && (ObligationFor(t.obligations, id).Some? ==> ObligationFor(t.obligations, id).value.id in t.obligations))
      && (forall o | o in t.obligations ::
           DeadlineFor(u.deadlines, o) == DeadlineFor(t.deadlines, o) && TaskFor(u.tasks, o) == TaskFor(t.tasks, o))
      && (m.obligation.Some? ==>
           && DeadlineFor(u.deadlines, m.obligation.value.id) == Some(RowOf(m.deadline.value))
           && TaskFor(u.tasks, m.obligation.value.id) == m.work)
  {
    var u := WithRows(t, m, audit);
    assert u.evaluations.Keys == t.evaluations.Keys + {m.evaluation.id};
    NoRowsYet(t, m.evaluation.id);
    ObligationsExist(t);
    if m.obligation.Some? {
      assert u.obligations.Keys == t.obligations.Keys + {m.obligation.value.id};
      AddObligation(t.obligations, t.evaluations.Keys, m.obligation.value);
      AddDeadline(t.deadlines, t.obligations.Keys, RowOf(m.deadline.value));
      AddTask(t.tasks, t.obligations.Keys, m.work.value);
    }
    hide ObligationFor, DeadlineFor, TaskFor, ObligationsOk, DeadlinesOk, TasksOk, DeadlineOf;
  }

  lemma ObligationsExist(t: Tables)
    requires RowsOk(t)
    ensures forall id :: ObligationFor(t.obligations, id).Some? ==>
      ObligationFor(t.obligations, id).value.id in t.obligations
  {
  }

  lemma LoadedFromRows(u: Tables, m: Materialization)
    requires m.evaluation.id in u.evaluations && u.evaluations[m.evaluation.id] == m.evaluation && Coherent(m)
    requires ObligationFor(u.obligations, m.evaluation.id) == m.obligation
    requires m.obligation.Some? ==>
      && DeadlineFor(u.deadlines, m.obligation.value.id) == Some(RowOf(m.deadline.value))
      && TaskFor(u.tasks, m.obligation.value.id) == m.work
    ensures LoadWorkflow(u, m.evaluation.id) == Ok(m)
  {
    if m.obligation.Some? { DeadlineRoundTrip(m.deadline.value); }
    hide ObligationFor, DeadlineFor, TaskFor, RowOf, DeadlineOf;
  }

  lemma LoadedAlike(t: Tables, u: Tables, id: Id)
    requires id in t.evaluations && id in u.evaluations && u.evaluations[id] == t.evaluations[id]
    requires ObligationFor(u.obligations, id) == ObligationFor(t.obligations, id)
    requires ObligationFor(t.obligations, id).Some? ==>
      var o := ObligationFor(t.obligations, id).value.id;
      DeadlineFor(u.deadlines, o) == DeadlineFor(t.deadlines, o) && TaskFor(u.tasks, o) == TaskFor(t.tasks, o)
    ensures LoadWorkflow(u, id) == LoadWorkflow(t, id)
  {
    hide ObligationFor, DeadlineFor, TaskFor, DeadlineOf;
  }

  /** A stored materialisation is joined again from its rows without loss, and storing it
      changes nothing of those stored before. */
  lemma StoredIsLoaded(t: Tables, m: Materialization, audit: Id)
    requires RowsOk(t) && Coherent(m) && !Clashes(t, m, audit)
    ensures m.evaluation.id in WithRows(t, m, audit).evaluations
      && LoadWorkflow(WithRows(t, m, audit), m.evaluation.id) == Ok(m)
    ensures forall id | id in t.evaluations ::
      id in WithRows(t, m, audit).evaluations && LoadWorkflow(WithRows(t, m, audit), id) == LoadWorkflow(t, id)
  {
    var u := WithRows(t, m, audit);
    StoredRows(t, m, audit);
    assert u.evaluations.Keys == t.evaluations.Keys + {m.evaluation.id};
    hide ObligationFor, DeadlineFor, TaskFor, RowsOk, RowOf, DeadlineOf, Clashes, WithRows, LoadWorkflow, Coherent;
    LoadedFromRows(u, m);
    forall id | id in t.evaluations
      ensures id in u.evaluations && LoadWorkflow(u, id) == LoadWorkflow(t, id)
    {
      LoadedAlike(t, u, id);
    }
  }

  // ---- Stored evaluations are reproducible ----

  ghost predicate InputsOk(t: Tables, e: Evaluation) {
    && ClaimsDiffer(Members(e.inputs)) && e.inputs == Recorded(Members(e.inputs))
    && forall i | i in e.inputs :: InputOk(t, e.caseId, i)
  }

  /** A stored evaluation and its workflow are what its rule version makes of its recorded inputs. */
  ghost predicate Reproducible(t: Tables, id: Id)
    requires id in t.evaluations
  {
    var e := t.evaluations[id];
    && e.version in t.versions && ClaimsDiffer(Members(e.inputs))
    && exists q :: Reproduces(t, id, q)
  }

  ghost predicate Reproduces(t: Tables, id: Id, q: EvaluationRequest)
    requires id in t.evaluations && t.evaluations[id].version in t.versions
      && ClaimsDiffer(Members(t.evaluations[id].inputs))
  {
    var e := t.evaluations[id];
    q.caseId == e.caseId && q.version == e.version
    && LoadWorkflow(t, id) == Materialize(t.versions[e.version].definition, Members(e.inputs), q)
       && LoadWorkflow(t, id).Ok?
  }

  predicate SameQuestion(e: Evaluation, f: Evaluation) {
    e.caseId == f.caseId && e.version == f.version && e.inputs == f.inputs
  }

  /** At most one evaluation for a case, a rule version and inputs. */
  ghost predicate MemosUnique(evaluations: map<Id, Evaluation>) {
    forall e, f | e in evaluations && f in evaluations && SameQuestion(evaluations[e], evaluations[f]) :: e == f
  }

  /** The recorded uses of evidence are those of the stored inputs. */
  ghost predicate UsesOk(evaluations: map<Id, Evaluation>, uses: set<(Id, Id)>) {
    && (forall e | e in evaluations :: evaluations[e].id == e)
    && forall u :: u in uses <==> u.0 in evaluations && u in UsesOf(evaluations[u.0])
  }

  ghost predicate StoredOk(t: Tables) {
    forall e | e in t.evaluations :: InputsOk(t, t.evaluations[e]) && Reproducible(t, e)
  }

  ghost predicate EvaluationsOk(t: Tables) {
    RowsOk(t) && StoredOk(t) && MemosUnique(t.evaluations) && UsesOk(t.evaluations, t.uses)
  }

  /** Everything an evaluation rests on is kept: claims, facts, rule versions, and support. */
  ghost predicate Grows(t: Tables, u: Tables) {
    && (forall c | c in t.claims :: c in u.claims && u.claims[c] == t.claims[c] && SupportOf(u, c) == SupportOf(t, c))
    && t.facts.Keys <= u.facts.Keys
    && (forall v | v in t.versions :: v in u.versions && u.versions[v] == t.versions[v])
  }

  ghost predicate SameEvaluations(t: Tables, u: Tables) {
    u.evaluations == t.evaluations && u.uses == t.uses && u.obligations == t.obligations
    && u.deadlines == t.deadlines && u.tasks == t.tasks
  }

  lemma InputsStay(t: Tables, u: Tables, e: Evaluation)
    requires Grows(t, u) && InputsOk(t, e)
    ensures InputsOk(u, e)
  {
    hide SupportOf;
  }

  lemma WorkflowIsRows(t: Tables, u: Tables, id: Id)
    requires SameEvaluations(t, u) && id in t.evaluations
    ensures LoadWorkflow(u, id) == LoadWorkflow(t, id)
  {
    LoadedAlike(t, u, id);
  }

  /** Operations that store no evaluation keep every stored one as it is. */
  lemma EvaluationsStay(t: Tables, u: Tables)
    requires EvaluationsOk(t) && Grows(t, u) && SameEvaluations(t, u)
    ensures EvaluationsOk(u)
    ensures forall e | e in t.evaluations :: LoadWorkflow(u, e) == LoadWorkflow(t, e)
  {
    hide Reproducible, InputsOk, LoadWorkflow, Grows, ObligationsOk, DeadlinesOk, TasksOk, MemosUnique, UsesOk;
    assert u.evaluations == t.evaluations;
    forall e | e in t.evaluations
      ensures LoadWorkflow(u, e) == LoadWorkflow(t, e) && InputsOk(u, t.evaluations[e]) && Reproducible(u, e)
    {
      EvaluationStays(t, u, e);
    }
  }

  lemma EvaluationStays(t: Tables, u: Tables, e: Id)
    requires e in t.evaluations && InputsOk(t, t.evaluations[e]) && Reproducible(t, e)
    requires Grows(t, u) && SameEvaluations(t, u)
    ensures LoadWorkflow(u, e) == LoadWorkflow(t, e) && InputsOk(u, t.evaluations[e]) && Reproducible(u, e)
  {
    WorkflowIsRows(t, u, e);
    InputsStay(t, u, t.evaluations[e]);
    hide LoadWorkflow, InputsOk, Materialize, SupportOf;
    var q :| Reproduces(t, e, q);
    assert Reproduces(u, e, q);
  }

  // ---- Evaluating ----

  ghost predicate Inv(t: Tables) { LinksOk(t) && FactsOk(t) && EvaluationsOk(t) }

  /** The inputs an evaluation of a case would use now. */
  ghost function CurrentInputs(t: Tables, q: EvaluationRequest): set<RuleInput>
    requires q.version in t.versions
  {
    RelevantInputs(t.versions[q.version].definition, Grounded(t, q.caseId))
  }

  lemma CurrentInputsOk(t: Tables, q: EvaluationRequest)
    requires ClaimsOk(t) && FactsOk(t) && q.version in t.versions
    ensures ClaimsDiffer(CurrentInputs(t, q))
    ensures forall i | i in CurrentInputs(t, q) :: InputOk(t, q.caseId, i) && CurrentState(t, i.claim) == Verified
    ensures Members(Recorded(CurrentInputs(t, q))) == CurrentInputs(t, q)
  {
    GroundedClaimsDiffer(t, q.caseId, t.versions[q.version].definition);
    hide CurrentState, EvidenceOf, Relevant;
  }

  /** The claims of a case that were there in one state, with their states and evidence in a later one. */
  ghost function GroundedAmong(listed: Tables, t: Tables, caseId: Id): set<GroundedClaim> {
    set c | c in listed.claims && c in t.claims && t.claims[c].caseId == caseId :: Grounding(t, c)
  }

  /** What an evaluation reads when it lists the claims of the case in one state and their states and
      evidence in a later one: a claim recorded in between is not seen. */
  ghost function ReadInputs(listed: Tables, grounded: Tables, q: EvaluationRequest): set<RuleInput>
    requires q.version in grounded.versions
  {
    RelevantInputs(grounded.versions[q.version].definition, GroundedAmong(listed, grounded, q.caseId))
  }

  /** What is read is what an evaluation in the later state would use, less the claims not listed. */
  lemma ReadsAreCurrent(listed: Tables, grounded: Tables, q: EvaluationRequest)
    requires ClaimsKeyed(grounded) && q.version in grounded.versions
    ensures forall i ::
      i in ReadInputs(listed, grounded, q) <==> i in CurrentInputs(grounded, q) && i.claim in listed.claims
  {
    hide CurrentState, EvidenceOf, Relevant;
  }

  /** Reading in one state only, an evaluation uses the current inputs. */
  lemma ReadsOfOneState(t: Tables, q: EvaluationRequest)
    requires ClaimsKeyed(t) && q.version in t.versions
    ensures ReadInputs(t, t, q) == CurrentInputs(t, q) && ClaimsDiffer(CurrentInputs(t, q))
    ensures Members(Recorded(CurrentInputs(t, q))) == CurrentInputs(t, q)
  {
    assert GroundedAmong(t, t, q.caseId) == Grounded(t, q.caseId) by { hide Grounding; }
    GroundedClaimsDiffer(t, q.caseId, t.versions[q.version].definition);
  }

  /** What would be stored or returned if nothing were remembered. */
  ghost function FreshResult(t: Tables, q: EvaluationRequest): Result<Materialization>
    requires ClaimsKeyed(t) && q.version in t.versions
  {
    GroundedClaimsDiffer(t, q.caseId, t.versions[q.version].definition);
    Materialize(t.versions[q.version].definition, CurrentInputs(t, q), q)
  }

  lemma MaterializedParts(def: Definition, inputs: set<RuleInput>, q: EvaluationRequest)
    requires ClaimsDiffer(inputs) && Materialize(def, inputs, q).Ok?
    ensures var m := Materialize(def, inputs, q).value;
      && Coherent(m) && m.evaluation.id == q.evaluation && m.evaluation.caseId == q.caseId
         && m.evaluation.version == q.version
      && m.evaluation.inputs == Recorded(inputs)
      && (m.obligation.Some? <==> m.evaluation.verdict == Satisfied)
  {
    SatisfiedExactly(def, inputs);
  }

  /** The deadline of a satisfied rule: as many days of the calendar after the one anchor date as
      the rule says, or a refusal when that leaves the calendar. */
  lemma DeadlineIsExact(def: Definition, inputs: set<RuleInput>, q: EvaluationRequest)
    requires ClaimsDiffer(inputs) && Judge(def, inputs).verdict == Satisfied
    ensures exists anchor ::
      && AnchorDates(def, inputs) == {anchor}
      && DeadlineFollows(def, anchor, Materialize(def, inputs, q))
  {
    SatisfiedExactly(def, inputs);
    var anchors := AnchorDates(def, inputs);
    var anchor := EarliestDate(anchors);
    OnlyMember(anchors, anchor);
    Temporal.CheckedAddDaysIsWalk(anchor, def.effect.daysAfter);
    hide AnchorDates, Recorded, MissingPredicates, FailedPredicates, Temporal.CheckedAddDays, Temporal.Walk,
      Temporal.Denoted, Disagrees;
  }

  ghost predicate DeadlineFollows(def: Definition, anchor: Temporal.Date, r: Result<Materialization>) {
    var due := Temporal.Walk(Temporal.Denoted(anchor), def.effect.daysAfter);
    if def.effect.daysAfter > Temporal.I32_MAX || !Temporal.InYearRange(due.year) then r == Err(InvalidInput)
    else
      && r.Ok? && r.value.deadline.Some? && r.value.deadline.value.anchor == anchor
      && r.value.deadline.value.dueEarliest == r.value.deadline.value.dueLatest == Some(due)
  }

  lemma OnlyMember<T>(s: set<T>, x: T)
    requires |s| == 1 && x in s
    ensures s == {x}
  {
    assert |s - {x}| == 0;
  }

  /** The evaluation that is stored or returned for given inputs if nothing is remembered. */
  ghost function Fresh(t: Tables, inputs: set<RuleInput>, q: EvaluationRequest): Result<Materialization>
    requires q.version in t.versions && ClaimsDiffer(inputs)
  {
    Materialize(t.versions[q.version].definition, inputs, q)
  }

  ghost predicate HasMemo(t: Tables, inputs: set<RuleInput>, q: EvaluationRequest)
    requires ClaimsDiffer(inputs)
  {
    exists e :: IsMemo(t, e, q.caseId, q.version, Recorded(inputs))
  }

  /** The branches of a conclusion. */
  lemma ConcludeBranches(t: Tables, inputs: set<RuleInput>, q: EvaluationRequest)
    requires q.version in t.versions && ClaimsDiffer(inputs)
    ensures var anew := Fresh(t, inputs, q);
      && (anew.Err? ==> Conclude(t, inputs, q) == (t, Err(anew.error)))
      && (anew.Ok? ==>
           && (HasMemo(t, inputs, q) ==>
                exists e ::
                  IsMemo(t, e, q.caseId, q.version, Recorded(inputs))
                    && Conclude(t, inputs, q) == (t, LoadWorkflow(t, e)))
           && (!HasMemo(t, inputs, q) ==>
                && (anew.value.deadline.Some? ==> HasDates(anew.value.deadline.value))
                && Conclude(t, inputs, q) == if Clashes(t, anew.value, q.audit) then (t, Err(Conflict))
                   else (WithRows(t, anew.value, q.audit), Ok(anew.value))))
  {
    if Fresh(t, inputs, q).Ok? {
      MaterializedParts(t.versions[q.version].definition, inputs, q);
    }
    hide Materialize, LoadWorkflow, WithRows, Clashes, IsMemo, Recorded;
  }

  /** An evaluation concludes from the inputs of its own tables. */
  lemma EvaluateIsConclude(t: Tables, q: EvaluationRequest)
    requires ClaimsOk(t) && FactsOk(t) && q.version in t.versions
    ensures InputsFit(t, CurrentInputs(t, q), q)
    ensures Evaluate(t, q) == Conclude(t, CurrentInputs(t, q), q)
    ensures FreshResult(t, q) == Fresh(t, CurrentInputs(t, q), q)
  {
    CurrentInputsOk(t, q);
    hide FactsOk, Conclude, Materialize, InputOk, Relevant, Grounded;
  }

  lemma StoringGrows(t: Tables, m: Materialization, audit: Id)
    requires m.deadline.Some? ==> HasDates(m.deadline.value)
    ensures Grows(t, WithRows(t, m, audit))
  {
  }

  lemma InputStays(t: Tables, u: Tables, caseId: Id, i: RuleInput)
    requires Grows(t, u) && InputOk(t, caseId, i)
    ensures InputOk(u, caseId, i)
  {
    hide SupportOf;
  }

  /** A new evaluation is stored with right inputs and is reproducible. */
  lemma NewEvaluationOk(t: Tables, inputs: set<RuleInput>, q: EvaluationRequest, u: Tables)
    requires InputsFit(t, inputs, q) && Fresh(t, inputs, q).Ok? && Grows(t, u)
    requires var m := Fresh(t, inputs, q).value;
      && m.evaluation.id in u.evaluations && u.evaluations[m.evaluation.id] == m.evaluation
      && LoadWorkflow(u, m.evaluation.id) == Ok(m)
    ensures var m := Fresh(t, inputs, q).value; InputsOk(u, m.evaluation) && Reproducible(u, m.evaluation.id)
  {
    var def, m := t.versions[q.version].definition, Fresh(t, inputs, q).value;
    MaterializedParts(def, inputs, q);
    assert Members(m.evaluation.inputs) == inputs;
    forall i | i in m.evaluation.inputs
      ensures InputOk(u, q.caseId, i)
    {
      InputStays(t, u, q.caseId, i);
    }
    hide InputOk, LoadWorkflow, Materialize, Recorded;
    assert u.versions[q.version] == t.versions[q.version];
    hide Grows;
    assert Reproduces(u, m.evaluation.id, q);
  }

  lemma OldEvaluationOk(t: Tables, u: Tables, id: Id)
    requires id in t.evaluations && id in u.evaluations && u.evaluations[id] == t.evaluations[id]
    requires Grows(t, u) && InputsOk(t, t.evaluations[id]) && Reproducible(t, id)
    requires LoadWorkflow(u, id) == LoadWorkflow(t, id)
    ensures InputsOk(u, u.evaluations[id]) && Reproducible(u, id)
  {
    InputsStay(t, u, t.evaluations[id]);
    hide LoadWorkflow, InputsOk, Materialize, SupportOf;
    var q :| Reproduces(t, id, q);
    assert Reproduces(u, id, q);
  }

  /** A new evaluation with new inputs. */
  lemma AddEvaluation(evaluations: map<Id, Evaluation>, uses: set<(Id, Id)>, e: Evaluation)
    requires MemosUnique(evaluations) && UsesOk(evaluations, uses) && e.id !in evaluations
    requires forall f | f in evaluations :: !SameQuestion(evaluations[f], e)
    ensures MemosUnique(evaluations[e.id := e]) && UsesOk(evaluations[e.id := e], uses + UsesOf(e))
  {
    assert forall x :: x in UsesOf(e) ==> x.0 == e.id;
    assert forall f, x | f in evaluations && x in UsesOf(evaluations[f]) :: x.0 == f;
    hide UsesOf;
  }

  lemma NoMemo(t: Tables, inputs: set<RuleInput>, q: EvaluationRequest)
    requires q.version in t.versions && ClaimsDiffer(inputs) && !HasMemo(t, inputs, q) && Fresh(t, inputs, q).Ok?
    ensures forall f | f in t.evaluations :: !SameQuestion(t.evaluations[f], Fresh(t, inputs, q).value.evaluation)
  {
    MaterializedParts(t.versions[q.version].definition, inputs, q);
    hide Materialize, Recorded;
    forall f | f in t.evaluations
      ensures !IsMemo(t, f, q.caseId, q.version, Recorded(inputs))
    {
    }
  }

  lemma StoringKeepsEvaluations(t: Tables, inputs: set<RuleInput>, q: EvaluationRequest)
    requires EvaluationsOk(t) && InputsFit(t, inputs, q) && Fresh(t, inputs, q).Ok?
    requires !HasMemo(t, inputs, q) && !Clashes(t, Fresh(t, inputs, q).value, q.audit)
    ensures var m := Fresh(t, inputs, q).value;
      && Coherent(m) && EvaluationsOk(WithRows(t, m, q.audit))
      && m.evaluation.id in WithRows(t, m, q.audit).evaluations
         && LoadWorkflow(WithRows(t, m, q.audit), m.evaluation.id) == Ok(m)
      && forall id | id in t.evaluations ::
           id in WithRows(t, m, q.audit).evaluations && LoadWorkflow(WithRows(t, m, q.audit), id) == LoadWorkflow(t, id)
  {
    hide RowsOk, LoadWorkflow, InputsOk, Reproducible, IsMemo, UsesOf, Grows, Materialize, Fresh, HasMemo, InputOk,
      ObligationFor, DeadlineFor, TaskFor, Coherent, MemosUnique, UsesOk;
    var m := Fresh(t, inputs, q).value;
    NoMemo(t, inputs, q);
    FreshIsCoherent(t, inputs, q);
    StoredIsLoaded(t, m, q.audit);
    StoredRows(t, m, q.audit);
    StoringGrows(t, m, q.audit);
    NewEvaluationOk(t, inputs, q, WithRows(t, m, q.audit));
    AddEvaluation(t.evaluations, t.uses, m.evaluation);
    hide Clashes;
    StoredStaysOk(t, m, q.audit);
  }

  lemma FreshIsCoherent(t: Tables, inputs: set<RuleInput>, q: EvaluationRequest)
    requires q.version in t.versions && ClaimsDiffer(inputs) && Fresh(t, inputs, q).Ok?
    ensures Coherent(Fresh(t, inputs, q).value)
  {
    MaterializedParts(t.versions[q.version].definition, inputs, q);
  }

  lemma StoredStaysOk(t: Tables, m: Materialization, audit: Id)
    requires RowsOk(t) && StoredOk(t) && Coherent(m) && !Clashes(t, m, audit)
    requires InputsOk(WithRows(t, m, audit), m.evaluation)
    requires m.evaluation.id in WithRows(t, m, audit).evaluations
      && Reproducible(WithRows(t, m, audit), m.evaluation.id)
    ensures StoredOk(WithRows(t, m, audit))
  {
    hide RowsOk, LoadWorkflow, InputsOk, Reproducible, Grows, UsesOf;
    StoredIsLoaded(t, m, audit);
    StoringGrows(t, m, audit);
    var u := WithRows(t, m, audit);
    assert u.evaluations == t.evaluations[m.evaluation.id := m.evaluation];
    assert m.evaluation.id !in t.evaluations;
    hide WithRows, Clashes, Coherent;
    forall id | id in t.evaluations
      ensures InputsOk(u, u.evaluations[id]) && Reproducible(u, id)
    {
      OldEvaluationOk(t, u, id);
    }
  }

  /** A conclusion keeps every stored evaluation, whenever its inputs were read. */
  lemma ConcludeKeepsEvaluations(t: Tables, inputs: set<RuleInput>, q: EvaluationRequest)
    requires EvaluationsOk(t) && InputsFit(t, inputs, q)
    ensures EvaluationsOk(Conclude(t, inputs, q).0)
    ensures forall id | id in t.evaluations ::
      id in Conclude(t, inputs, q).0.evaluations && LoadWorkflow(Conclude(t, inputs, q).0, id) == LoadWorkflow(t, id)
    ensures EvaluatedRows(t, Conclude(t, inputs, q).0)
  {
    hide EvaluationsOk, LoadWorkflow, Fresh, HasMemo, InputOk, Clashes, RecordEvaluation, Materialize;
    ConcludeBranches(t, inputs, q);
    if Fresh(t, inputs, q).Ok? && !HasMemo(t, inputs, q) && !Clashes(t, Fresh(t, inputs, q).value, q.audit) {
      StoringKeepsEvaluations(t, inputs, q);
    }
    hide Conclude;
  }

  lemma EvaluateKeepsEvaluations(t: Tables, q: EvaluationRequest)
    requires Inv(t)
    ensures EvaluationsOk(Evaluate(t, q).0)
    ensures forall id | id in t.evaluations ::
      id in Evaluate(t, q).0.evaluations && LoadWorkflow(Evaluate(t, q).0, id) == LoadWorkflow(t, id)
    ensures EvaluatedRows(t, Evaluate(t, q).0)
  {
    assert ClaimsOk(t);
    hide LinksOk, FactsOk, EvaluationsOk, LoadWorkflow, FreshResult, CurrentInputs, Conclude;
    if q.version in t.versions {
      EvaluateIsConclude(t, q);
      hide Evaluate;
      ConcludeKeepsEvaluations(t, CurrentInputs(t, q), q);
    }
  }

  /** An evaluation touches none of the tables its inputs come from. */
  ghost predicate EvaluatedRows(t: Tables, u: Tables) {
    && u.cases == t.cases && u.claims == t.claims && u.changes == t.changes && u.evidence == t.evidence
       && u.edges == t.edges
    && u.contradictions == t.contradictions && u.facts == t.facts && u.versions == t.versions
  }
}
