/** What an evaluation answers, in terms of the claims of the case and their current states. */
module Answers {
  import opened Wrappers
  import opened Ordering
  import opened Values
  import opened Records
  import opened Rules
  import opened Verdicts
  import opened Evidence
  import opened Operations
  import opened Evaluations
  import opened History
  import opened Promises
  import opened Guarantees
  import opened Outcomes
  import Temporal

  ghost predicate IsVerified(t: Tables, caseId: Id, id: Id) {
    id in t.claims && t.claims[id].caseId == caseId && CurrentState(t, id) == Verified
  }

  /** What the verified claims of the case say on the key of a condition. */
  ghost function ValuesVerified(t: Tables, caseId: Id, c: Condition): set<KnowledgeValue> {
    set id | id in t.claims && IsVerified(t, caseId, id) && t.claims[id].subject == c.subject
             && t.claims[id].attribute == c.attribute :: t.claims[id].value
  }

  /** A verified claim of the case gives the date for the anchor, whatever its subject. */
  ghost predicate IsVerifiedDay(t: Tables, caseId: Id, anchor: string, day: Temporal.Date) {
    exists id :: IsVerified(t, caseId, id) && t.claims[id].attribute == anchor && t.claims[id].value == Known(Day(day))
  }

  /** The claim bears on the rule: some condition has its key, or it can be the anchor. */
  ghost predicate BearsOn(def: Definition, c: Claim) {
    c.attribute == def.effect.anchor
    || exists k :: 0 <= k < |def.all| && def.all[k].subject == c.subject && def.all[k].attribute == c.attribute
  }

  ghost function InputFrom(t: Tables, id: Id): RuleInput
    requires id in t.claims
  {
    RuleInput(id, ListedTexts(SupportOf(t, id)), t.claims[id].subject, t.claims[id].attribute, t.claims[id].value)
  }

  /** An evaluation uses exactly the verified claims of its case that bear on the rule, each with its
      whole support. */
  lemma InputsAreClaims(t: Tables, q: EvaluationRequest)
    requires ClaimsKeyed(t) && q.version in t.versions
    ensures var def := t.versions[q.version].definition;
      forall i :: i in CurrentInputs(t, q) <==>
        exists id :: IsVerified(t, q.caseId, id) && BearsOn(def, t.claims[id]) && i == InputFrom(t, id)
  {
    hide CurrentState, SupportOf;
    var def := t.versions[q.version].definition;
    forall id | id in t.claims
      ensures Relevant(def, InputFrom(t, id)) <==> BearsOn(def, t.claims[id])
    {
      if c :| c in def.all && Concerns(c, InputFrom(t, id)) {
        var k :| 0 <= k < |def.all| && def.all[k] == c;
      }
      if BearsOn(def, t.claims[id]) && t.claims[id].attribute != def.effect.anchor {
        var k :| 0 <= k < |def.all| && def.all[k].subject == t.claims[id].subject
          && def.all[k].attribute == t.claims[id].attribute;
        assert def.all[k] in def.all && Concerns(def.all[k], InputFrom(t, id));
      }
    }
    forall i | i in CurrentInputs(t, q)
      ensures exists id :: IsVerified(t, q.caseId, id) && BearsOn(def, t.claims[id]) && i == InputFrom(t, id)
    {
      var g :| g in Grounded(t, q.caseId) && g.state == Verified && Relevant(def, InputOf(g)) && InputOf(g) == i;
      assert InputFrom(t, g.claim.id) == i;
    }
    forall id | IsVerified(t, q.caseId, id) && BearsOn(def, t.claims[id])
      ensures InputFrom(t, id) in CurrentInputs(t, q)
    {
      assert Grounding(t, id) in Grounded(t, q.caseId) && InputOf(Grounding(t, id)) == InputFrom(t, id);
    }
  }

  lemma ValuesAreVerified(t: Tables, q: EvaluationRequest)
    requires ClaimsKeyed(t) && q.version in t.versions
    ensures var def, inputs := t.versions[q.version].definition, CurrentInputs(t, q);
      && (forall c :: c in def.all ==> ValuesOn(c, inputs) == ValuesVerified(t, q.caseId, c))
      && forall d :: IsAnchorDay(def, inputs, d) <==> IsVerifiedDay(t, q.caseId, def.effect.anchor, d)
  {
    InputsAreClaims(t, q);
    hide CurrentInputs, SupportOf, IsVerified;
    var def, inputs := t.versions[q.version].definition, CurrentInputs(t, q);
    forall id | IsVerified(t, q.caseId, id) && BearsOn(def, t.claims[id])
      ensures InputFrom(t, id) in inputs
    {
    }
  }

  ghost predicate AllHold(t: Tables, caseId: Id, def: Definition) {
    forall c :: c in def.all ==> ValuesVerified(t, caseId, c) == {c.expected}
  }

  ghost predicate OneDay(t: Tables, caseId: Id, def: Definition, day: Temporal.Date) {
    forall d :: IsVerifiedDay(t, caseId, def.effect.anchor, d) <==> d == day
  }

  ghost predicate AtMostOneDay(t: Tables, caseId: Id, def: Definition) {
    forall d, e :: IsVerifiedDay(t, caseId, def.effect.anchor, d) && IsVerifiedDay(t, caseId, def.effect.anchor, e) ==>
      d == e
  }

  /** Verified claims are there, and none has the expected value. */
  ghost predicate Fails(t: Tables, caseId: Id, c: Condition) {
    ValuesVerified(t, caseId, c) != {} && c.expected !in ValuesVerified(t, caseId, c)
  }

  lemma JudgedByClaims(t: Tables, q: EvaluationRequest)
    requires ClaimsKeyed(t) && q.version in t.versions
    ensures var def := t.versions[q.version].definition; var verdict := Judge(def, CurrentInputs(t, q)).verdict;
      && (verdict == Satisfied <==> AllHold(t, q.caseId, def) && exists d :: OneDay(t, q.caseId, def, d))
      && (verdict == NotSatisfied <==>
           && AtMostOneDay(t, q.caseId, def)
           && (forall c :: c in def.all ==>
                ValuesVerified(t, q.caseId, c) == {c.expected} || Fails(t, q.caseId, c))
           && exists c :: c in def.all && Fails(t, q.caseId, c))
  {
    var def, inputs := t.versions[q.version].definition, CurrentInputs(t, q);
    ValuesAreVerified(t, q);
    VerdictsExactly(def, inputs);
    hide CurrentInputs, ValuesOn, ValuesVerified, Judge, IsVerifiedDay, IsAnchorDay, ManyAnchorDays;
    DaysCounted(t, q.caseId, def, inputs);
    hide AtMostOneDay, OneDay;
  }

  lemma DaysCounted(t: Tables, caseId: Id, def: Definition, inputs: set<RuleInput>)
    requires forall d :: IsAnchorDay(def, inputs, d) <==> IsVerifiedDay(t, caseId, def.effect.anchor, d)
    ensures ManyAnchorDays(def, inputs) <==> !AtMostOneDay(t, caseId, def)
    ensures (exists d :: IsAnchorDay(def, inputs, d)) && !ManyAnchorDays(def, inputs) <==>
      exists d :: OneDay(t, caseId, def, d)
  {
    hide IsVerifiedDay, IsAnchorDay;
    if AtMostOneDay(t, caseId, def) {
      if d :| IsAnchorDay(def, inputs, d) { assert OneDay(t, caseId, def, d); }
    }
    if d :| OneDay(t, caseId, def, d) { assert IsVerifiedDay(t, caseId, def.effect.anchor, d); }
  }

  /** The words and the due date of what a satisfied rule causes. */
  ghost predicate Follows(def: Definition, day: Temporal.Date, m: Materialization) {
    var due := Temporal.Walk(Temporal.Denoted(day), def.effect.daysAfter);
    && m.obligation.Some? && m.deadline.Some? && m.work.Some?
    && m.obligation.value.kind == def.effect.kind && m.obligation.value.description == def.effect.description
    && m.work.value.title == def.effect.title
    && m.deadline.value.dueEarliest == m.deadline.value.dueLatest == Some(due)
    && m.deadline.value.anchor == day && m.deadline.value.daysAfter == def.effect.daysAfter
  }

  lemma FollowsAlike(def: Definition, day: Temporal.Date, m: Materialization, n: Materialization)
    requires Follows(def, day, n) && Anonymous(m) == Anonymous(n)
    ensures Follows(def, day, m)
  {
    assert Anonymous(m).obligation == Anonymous(n).obligation && Anonymous(m).work == Anonymous(n).work;
    assert Anonymous(m).deadline == Anonymous(n).deadline;
    hide Temporal.Walk, Temporal.Denoted;
  }

  /** What is answered is what the verified claims of the case say now, from memory or not: satisfied
      exactly when every condition is verified with the expected value only and the anchor with one date,
      not satisfied exactly when nothing is missing or disputed and some condition is refuted. A satisfied
      rule gives the obligation, the work and the due date its definition states for that date. */
  lemma AnswersFollowClaims(states: seq<Tables>, ops: seq<Op>, i: nat, q: EvaluationRequest)
    requires Happens(states, ops, i, EvaluateOp(q)) && ClaimsKeyed(states[i]) && Evaluate(states[i], q).1.Ok?
    ensures q.version in states[i].versions
    ensures var t, m, def := states[i], Evaluate(states[i], q).1.value, states[i].versions[q.version].definition;
      && (m.evaluation.verdict == Satisfied <==>
           AllHold(t, q.caseId, def) && exists d :: OneDay(t, q.caseId, def, d))
      && (m.evaluation.verdict == NotSatisfied <==>
           && AtMostOneDay(t, q.caseId, def)
           && (forall c :: c in def.all ==>
                ValuesVerified(t, q.caseId, c) == {c.expected} || Fails(t, q.caseId, c))
           && exists c :: c in def.all && Fails(t, q.caseId, c))
      && (m.evaluation.verdict == Satisfied ==> exists d :: OneDay(t, q.caseId, def, d) && Follows(def, d, m))
      && (m.evaluation.verdict != Satisfied ==> m.obligation == None && m.deadline == None && m.work == None)
  {
    ReachableIsValid(states, ops, i);
    hide IsHistory, Inv, Evaluate;
    AnswerFollowsClaims(states[i], q);
    hide AllHold, OneDay, AtMostOneDay, Fails, Follows;
  }

  lemma AnswerFollowsClaims(t: Tables, q: EvaluationRequest)
    requires Inv(t) && ClaimsKeyed(t) && Evaluate(t, q).1.Ok?
    ensures q.version in t.versions
    ensures var def, m := t.versions[q.version].definition, Evaluate(t, q).1.value;
      && m.evaluation.verdict == Judge(def, CurrentInputs(t, q)).verdict
      && (m.evaluation.verdict == Satisfied ==> exists d :: OneDay(t, q.caseId, def, d) && Follows(def, d, m))
      && (m.evaluation.verdict != Satisfied ==> m.obligation == None && m.deadline == None && m.work == None)
    ensures var def := t.versions[q.version].definition; var verdict := Judge(def, CurrentInputs(t, q)).verdict;
      && (verdict == Satisfied <==> AllHold(t, q.caseId, def) && exists d :: OneDay(t, q.caseId, def, d))
      && (verdict == NotSatisfied <==>
           && AtMostOneDay(t, q.caseId, def)
           && (forall c :: c in def.all ==>
                ValuesVerified(t, q.caseId, c) == {c.expected} || Fails(t, q.caseId, c))
           && exists c :: c in def.all && Fails(t, q.caseId, c))
  {
    assert q.version in t.versions;
    var def := t.versions[q.version].definition;
    hide Inv, Evaluate, CurrentInputs, FreshResult, Anonymous, AllHold, OneDay, AtMostOneDay, Fails, Follows, Judge;
    AnswerIsFresh(t, q);
    JudgedByClaims(t, q);
    FreshFollows(t, q);
    var m, n := Evaluate(t, q).1.value, FreshResult(t, q).value;
    SameParts(m, n);
    if m.evaluation.verdict == Satisfied {
      var d :| OneDay(t, q.caseId, def, d) && Follows(def, d, n);
      FollowsAlike(def, d, m, n);
    }
  }

  lemma SameParts(m: Materialization, n: Materialization)
    requires Anonymous(m) == Anonymous(n)
    ensures m.evaluation.verdict == n.evaluation.verdict
    ensures (m.obligation == None <==> n.obligation == None) && (m.deadline == None <==> n.deadline == None)
      && (m.work == None <==> n.work == None)
  {
    assert Anonymous(m).evaluation == Anonymous(n).evaluation && Anonymous(m).obligation == Anonymous(n).obligation;
    assert Anonymous(m).deadline == Anonymous(n).deadline && Anonymous(m).work == Anonymous(n).work;
  }

  lemma FreshFollows(t: Tables, q: EvaluationRequest)
    requires ClaimsKeyed(t) && q.version in t.versions && FreshResult(t, q).Ok?
    ensures var def, n := t.versions[q.version].definition, FreshResult(t, q).value;
      && n.evaluation.verdict == Judge(def, CurrentInputs(t, q)).verdict
      && (n.evaluation.verdict == Satisfied ==> exists d :: OneDay(t, q.caseId, def, d) && Follows(def, d, n))
      && (n.evaluation.verdict != Satisfied ==> n.obligation == None && n.deadline == None && n.work == None)
  {
    var def := t.versions[q.version].definition;
    hide CurrentInputs, IsVerifiedDay, IsAnchorDay, Judge, Materialize;
    GroundedClaimsDiffer(t, q.caseId, def);
    ReadsOfOneState(t, q);
    JudgedByClaims(t, q);
    ValuesAreVerified(t, q);
    MaterializingExactly(def, CurrentInputs(t, q), q);
    var n := FreshResult(t, q).value;
    hide InTime, Recorded, AllHold, AtMostOneDay, Fails, ValuesVerified, ValuesOn;
    if n.evaluation.verdict == Satisfied {
      var e := OneDayFollows(t, def, CurrentInputs(t, q), q, n);
    }
  }

  lemma OneDayFollows(t: Tables, def: Definition, inputs: set<RuleInput>, q: EvaluationRequest, n: Materialization)
    returns (e: Temporal.Date)
    requires ClaimsDiffer(inputs) && Caused(def, inputs, q, n) && Judge(def, inputs).verdict == Satisfied
    requires forall d :: IsAnchorDay(def, inputs, d) <==> IsVerifiedDay(t, q.caseId, def.effect.anchor, d)
    requires exists d :: OneDay(t, q.caseId, def, d)
    ensures OneDay(t, q.caseId, def, e) && Follows(def, e, n)
  {
    hide Judge, IsAnchorDay, IsVerifiedDay, Temporal.Walk, Temporal.Denoted, Recorded;
    e :| IsAnchorDay(def, inputs, e) && n.deadline == Some(DueAfter(def, e, q));
    var d :| OneDay(t, q.caseId, def, d);
    assert d == e;
  }
}
