/** What every verdict and explanation means, in terms of the values the inputs give. */
module Verdicts {
  import opened Temporal
  import opened Values
  import opened Records
  import opened Rules

  // ---- Verdicts and explanations in terms of the values found ----

  /** What the inputs say on the key of a condition. */
  function ValuesOn(c: Condition, inputs: set<RuleInput>): set<KnowledgeValue> {
    set i | i in inputs && i.subject == c.subject && i.attribute == c.attribute :: i.value
  }

  /** The dates the inputs give for the deadline anchor, whatever their subject. */
  ghost predicate IsAnchorDay(def: Definition, inputs: set<RuleInput>, day: Date) {
    exists i :: i in inputs && i.attribute == def.effect.anchor && i.value == Known(Day(day))
  }

  ghost predicate ManyAnchorDays(def: Definition, inputs: set<RuleInput>) {
    exists d, e :: IsAnchorDay(def, inputs, d) && IsAnchorDay(def, inputs, e) && d != e
  }

  /** Only the expected value is found. */
  ghost predicate Holds(c: Condition, inputs: set<RuleInput>) { ValuesOn(c, inputs) == {c.expected} }

  /** Values are found, the expected one is not among them. */
  ghost predicate Refuted(c: Condition, inputs: set<RuleInput>) {
    ValuesOn(c, inputs) != {} && c.expected !in ValuesOn(c, inputs)
  }

  /** The expected value and others are found. */
  ghost predicate Disputed(c: Condition, inputs: set<RuleInput>) {
    c.expected in ValuesOn(c, inputs) && ValuesOn(c, inputs) != {c.expected}
  }

  ghost predicate Contradictory(def: Definition, inputs: set<RuleInput>) {
    ManyAnchorDays(def, inputs) || exists c :: c in def.all && Disputed(c, inputs)
  }

  /** The names are the attributes of the conditions at the chosen positions, in their order. */
  ghost predicate NamesOf(names: seq<string>, all: seq<Condition>, chosen: set<nat>) {
    exists at :: NamesListed(at, names, all, chosen)
  }

  ghost predicate NamesListed(at: seq<nat>, names: seq<string>, all: seq<Condition>, chosen: set<nat>) {
    && |at| == |names| && (forall k, l :: 0 <= k < l < |at| ==> at[k] < at[l])
    && (forall j :: j in at <==> j in chosen)
    && forall k :: 0 <= k < |at| ==> at[k] < |all| && names[k] == all[at[k]].attribute
  }

  ghost function MissingAt(all: seq<Condition>, inputs: set<RuleInput>): set<nat> {
    set j: nat | j < |all| && ValuesOn(all[j], inputs) == {}
  }

  ghost function RefutedAt(all: seq<Condition>, inputs: set<RuleInput>): set<nat> {
    set j: nat | j < |all| && Refuted(all[j], inputs)
  }

  lemma NamesAppended(names: seq<string>, all: seq<Condition>, c: Condition, chosen: set<nat>)
    requires NamesOf(names, all, chosen)
    ensures NamesOf(names, all + [c], chosen)
    ensures (forall j :: j in chosen ==> j < |all|) ==>
      NamesOf(names + [c.attribute], all + [c], chosen + {|all|})
  {
    var at: seq<nat> :| NamesListed(at, names, all, chosen);
    assert NamesListed(at, names, all + [c], chosen);
    var next := at + [|all|];
    if forall j :: j in chosen ==> j < |all| {
      assert forall j :: j in next <==> j in chosen + {|all|};
      assert NamesListed(next, names + [c.attribute], all + [c], chosen + {|all|});
    }
  }

  lemma ValuesDecide(c: Condition, inputs: set<RuleInput>)
    ensures Misses(c, inputs) <==> ValuesOn(c, inputs) == {}
    ensures Fails(c, inputs) <==> Refuted(c, inputs)
    ensures Disagrees(c, inputs) <==> Disputed(c, inputs)
    ensures Agrees(c, inputs) && !Differs(c, inputs) <==> Holds(c, inputs)
  {
    assert Agrees(c, inputs) <==> c.expected in ValuesOn(c, inputs);
    assert Differs(c, inputs) <==> exists v :: v in ValuesOn(c, inputs) && v != c.expected by {
      if i :| i in inputs && Concerns(c, i) && i.value != c.expected { assert i.value in ValuesOn(c, inputs); }
    }
  }

  /** The explanation lists exactly the missing, or the refuted, conditions in the rule's order. */
  lemma {:induction false} NamesInOrder(all: seq<Condition>, inputs: set<RuleInput>)
    ensures NamesOf(MissingPredicates(all, inputs), all, MissingAt(all, inputs))
    ensures NamesOf(FailedPredicates(all, inputs), all, RefutedAt(all, inputs))
  {
    hide NamesOf, Misses, Fails, ValuesOn, Refuted;
    if all == [] {
      NothingNamed(all);
      assert MissingAt(all, inputs) == {} == RefutedAt(all, inputs);
    } else {
      var init, last := all[..|all| - 1], all[|all| - 1];
      NamesInOrder(init, inputs);
      NamesNext(MissingPredicates(init, inputs), init, last, MissingAt(init, inputs), Misses(last, inputs));
      NamesNext(FailedPredicates(init, inputs), init, last, RefutedAt(init, inputs), Fails(last, inputs));
      NextPositions(init, last, inputs);
      assert all == init + [last];
      hide MissingAt, RefutedAt;
    }
  }

  lemma NamesNext(names: seq<string>, init: seq<Condition>, last: Condition, chosen: set<nat>, picked: bool)
    requires NamesOf(names, init, chosen) && forall j :: j in chosen ==> j < |init|
    ensures NamesOf(names + if picked then [last.attribute] else [], init + [last],
              if picked then chosen + {|init|} else chosen)
  {
    NamesAppended(names, init, last, chosen);
    assert names + [] == names;
    hide NamesOf;
  }

  lemma NextPositions(init: seq<Condition>, last: Condition, inputs: set<RuleInput>)
    ensures MissingAt(init + [last], inputs) ==
      if Misses(last, inputs) then MissingAt(init, inputs) + {|init|} else MissingAt(init, inputs)
    ensures RefutedAt(init + [last], inputs) ==
      if Fails(last, inputs) then RefutedAt(init, inputs) + {|init|} else RefutedAt(init, inputs)
  {
    ValuesDecide(last, inputs);
    hide Misses, Fails, ValuesOn, Refuted;
  }

  lemma NothingNamed(all: seq<Condition>)
    ensures NamesOf([], all, {})
  {
    assert NamesListed([], [], all, {});
  }

  lemma DaysDecide(def: Definition, inputs: set<RuleInput>)
    ensures forall d :: d in AnchorDates(def, inputs) <==> IsAnchorDay(def, inputs, d)
    ensures |AnchorDates(def, inputs)| > 1 <==> ManyAnchorDays(def, inputs)
    ensures |AnchorDates(def, inputs)| == 0 <==> forall d :: !IsAnchorDay(def, inputs, d)
  {
    forall d
      ensures d in AnchorDates(def, inputs) <==> IsAnchorDay(def, inputs, d)
    {
      if IsAnchorDay(def, inputs, d) {
        var i :| i in inputs && i.attribute == def.effect.anchor && i.value == Known(Day(d));
        assert IsAnchor(def, i);
      }
    }
    hide AnchorDates, IsAnchorDay;
    SeveralMembers(AnchorDates(def, inputs));
  }

  lemma SeveralMembers<T>(s: set<T>)
    ensures |s| > 1 <==> exists x, y :: x in s && y in s && x != y
  {
    if |s| > 1 {
      var x :| x in s;
      assert |s - {x}| > 0;
      var y :| y in s - {x};
    }
    forall x, y | x in s && y in s && x != y
      ensures |s| > 1
    {
      assert |s - {x}| > 0 by { assert y in s - {x}; }
    }
  }

  /** Every answer of the evaluator, exactly. Disputed conditions and several anchor dates come first,
      then missing conditions, then refuted ones, then a missing anchor; what remains is satisfied. */
  lemma VerdictsExactly(def: Definition, inputs: set<RuleInput>)
    ensures var j := Judge(def, inputs);
      && (j.verdict == Satisfied <==>
           (forall c :: c in def.all ==> Holds(c, inputs)) && !ManyAnchorDays(def, inputs)
           && exists d :: IsAnchorDay(def, inputs, d))
      && (j.verdict == NotSatisfied <==>
           && !ManyAnchorDays(def, inputs)
           && (forall c :: c in def.all ==> Holds(c, inputs) || Refuted(c, inputs))
           && exists c :: c in def.all && Refuted(c, inputs))
      && (forall d :: d in j.anchors <==> IsAnchorDay(def, inputs, d))
  {
    MissingMeaning(def.all, inputs);
    DaysDecide(def, inputs);
    forall c
      ensures Misses(c, inputs) <==> ValuesOn(c, inputs) == {}
      ensures Fails(c, inputs) <==> Refuted(c, inputs)
      ensures Disagrees(c, inputs) <==> Disputed(c, inputs)
      ensures Agrees(c, inputs) && !Differs(c, inputs) <==> Holds(c, inputs)
    {
      ValuesDecide(c, inputs);
    }
    assert forall c :: Holds(c, inputs) || Refuted(c, inputs) || Disputed(c, inputs) || ValuesOn(c, inputs) == {};
    hide AnchorDates, IsAnchorDay, ValuesOn, MissingPredicates, FailedPredicates, Agrees, Differs;
  }

  /** Every explanation, exactly, with the lists it carries. */
  lemma ExplanationsExactly(def: Definition, inputs: set<RuleInput>)
    ensures var j := Judge(def, inputs); var missing := MissingAt(def.all, inputs);
      && (j.explanation == FactsDisagree <==> Contradictory(def, inputs))
      && (j.explanation.FactsMissing? <==> !Contradictory(def, inputs) && missing != {})
      && (j.explanation.FactsMissing? ==> NamesOf(j.explanation.predicates, def.all, missing))
      && (j.explanation.ConditionsFailed? <==>
           !Contradictory(def, inputs) && missing == {} && RefutedAt(def.all, inputs) != {})
      && (j.explanation.ConditionsFailed? ==>
           NamesOf(j.explanation.predicates, def.all, RefutedAt(def.all, inputs)))
      && (j.explanation.AnchorMissing? <==>
           (forall c :: c in def.all ==> Holds(c, inputs)) && forall d :: !IsAnchorDay(def, inputs, d))
      && (j.explanation.AnchorMissing? ==> j.explanation.anchor == def.effect.anchor)
      && (j.explanation == Established <==> j.verdict == Satisfied)
      && (j.explanation.ConditionsFailed? <==> j.verdict == NotSatisfied)
  {
    NamesInOrder(def.all, inputs);
    EmptyLists(def.all, inputs);
    DaysDecide(def, inputs);
    forall c
      ensures Disagrees(c, inputs) <==> Disputed(c, inputs)
    {
      ValuesDecide(c, inputs);
    }
    assert forall c :: Holds(c, inputs) || Refuted(c, inputs) || Disputed(c, inputs) || ValuesOn(c, inputs) == {};
    hide AnchorDates, IsAnchorDay, ValuesOn, MissingPredicates, FailedPredicates, Disagrees, NamesOf;
  }

  lemma EmptyLists(all: seq<Condition>, inputs: set<RuleInput>)
    ensures MissingPredicates(all, inputs) == [] <==> MissingAt(all, inputs) == {}
    ensures FailedPredicates(all, inputs) == [] <==> RefutedAt(all, inputs) == {}
    ensures MissingAt(all, inputs) == {} <==> forall c :: c in all ==> ValuesOn(c, inputs) != {}
    ensures RefutedAt(all, inputs) == {} <==> forall c :: c in all ==> !Refuted(c, inputs)
  {
    NamesInOrder(all, inputs);
    hide ValuesOn;
    forall c | c in all
      ensures ValuesOn(c, inputs) == {} ==> MissingAt(all, inputs) != {}
      ensures Refuted(c, inputs) ==> RefutedAt(all, inputs) != {}
    {
      var j :| 0 <= j < |all| && all[j] == c;
      assert ValuesOn(c, inputs) == {} ==> j in MissingAt(all, inputs);
      assert Refuted(c, inputs) ==> j in RefutedAt(all, inputs);
    }
    NamesEmpty(MissingPredicates(all, inputs), all, MissingAt(all, inputs));
    NamesEmpty(FailedPredicates(all, inputs), all, RefutedAt(all, inputs));
  }

  lemma NamesEmpty(names: seq<string>, all: seq<Condition>, chosen: set<nat>)
    requires NamesOf(names, all, chosen)
    ensures names == [] <==> chosen == {}
  {
    var at: seq<nat> :| NamesListed(at, names, all, chosen);
    if names != [] { assert at[0] in chosen; }
    if j :| j in chosen { assert j in at; }
  }
}
