/** Deterministic rule evaluation: which verified claims count, and what follows from them. */
module Rules {
  import opened Wrappers
  import opened Ordering
  import opened Temporal
  import opened Values
  import opened Records

  // ---- What a rule definition says about a set of inputs ----

  predicate Concerns(c: Condition, i: RuleInput) { i.subject == c.subject && i.attribute == c.attribute }

  predicate Relevant(def: Definition, i: RuleInput) {
    (exists c :: c in def.all && Concerns(c, i)) || i.attribute == def.effect.anchor
  }

  predicate Agrees(c: Condition, inputs: set<RuleInput>) {
    exists i :: i in inputs && Concerns(c, i) && i.value == c.expected
  }

  predicate Differs(c: Condition, inputs: set<RuleInput>) {
    exists i :: i in inputs && Concerns(c, i) && i.value != c.expected
  }

  predicate Disagrees(c: Condition, inputs: set<RuleInput>) { Agrees(c, inputs) && Differs(c, inputs) }

  predicate Misses(c: Condition, inputs: set<RuleInput>) { !Agrees(c, inputs) && !Differs(c, inputs) }

  predicate Fails(c: Condition, inputs: set<RuleInput>) { !Agrees(c, inputs) && Differs(c, inputs) }

  /** The predicates of the missing conditions, in the order of the definition. */
  function MissingPredicates(all: seq<Condition>, inputs: set<RuleInput>): seq<string> {
    if all == [] then []
    else
      MissingPredicates(all[..|all| - 1], inputs)
      + if Misses(all[|all| - 1], inputs) then [all[|all| - 1].attribute] else []
  }

  function FailedPredicates(all: seq<Condition>, inputs: set<RuleInput>): seq<string> {
    if all == [] then []
    else
      FailedPredicates(all[..|all| - 1], inputs)
      + if Fails(all[|all| - 1], inputs) then [all[|all| - 1].attribute] else []
  }

  predicate IsAnchor(def: Definition, i: RuleInput) {
    i.attribute == def.effect.anchor && i.value.Known? && i.value.value.Day?
  }

  function AnchorDates(def: Definition, inputs: set<RuleInput>): set<Date> {
    set i | i in inputs && IsAnchor(def, i) :: i.value.value.day
  }

  datatype Judgement = Judgement(verdict: Verdict, explanation: Explanation, anchors: set<Date>)

  /** Verdict and explanation from the inputs alone, in the evaluator's order of precedence. */
  function Judge(def: Definition, inputs: set<RuleInput>): Judgement {
    var anchors := AnchorDates(def, inputs);
    if (exists c :: c in def.all && Disagrees(c, inputs))
      || |anchors| > 1 then Judgement(Indeterminate, FactsDisagree, anchors)
    else if MissingPredicates(def.all, inputs) != [] then
      Judgement(Indeterminate, FactsMissing(MissingPredicates(def.all, inputs)), anchors)
    else if FailedPredicates(def.all, inputs) != [] then
      Judgement(NotSatisfied, ConditionsFailed(FailedPredicates(def.all, inputs)), anchors)
    else if anchors == {} then Judgement(Indeterminate, AnchorMissing(def.effect.anchor), anchors)
    else Judgement(Satisfied, Established, anchors)
  }

  function InputOf(g: GroundedClaim): RuleInput {
    RuleInput(g.claim.id, g.evidence, g.claim.subject, g.claim.attribute, g.claim.value)
  }

  /** The inputs of an evaluation: every verified claim that some condition or the anchor concerns. */
  function RelevantInputs(def: Definition, grounded: set<GroundedClaim>): set<RuleInput> {
    set g | g in grounded && g.state == Verified && Relevant(def, InputOf(g)) :: InputOf(g)
  }

  // ---- The recorded order of the inputs ----

  predicate InputLess(x: RuleInput, y: RuleInput) {
    TextLess(x.subject, y.subject)
    || (x.subject == y.subject
        && (TextLess(x.attribute, y.attribute) || (x.attribute == y.attribute && TextLess(x.claim, y.claim))))
  }

  ghost predicate ClaimsDiffer(inputs: set<RuleInput>) {
    forall x, y | x in inputs && y in inputs :: x.claim == y.claim ==> x == y
  }

  lemma InputsOrdered(inputs: set<RuleInput>)
    requires ClaimsDiffer(inputs)
    ensures OrdersOn(inputs, InputLess)
  {
    forall x, y | x in inputs && y in inputs
      ensures !InputLess(x, x) && (x != y ==> InputLess(x, y) || InputLess(y, x))
    {
      TextLessTrichotomy(x.subject, y.subject);
      TextLessTrichotomy(x.attribute, y.attribute);
      TextLessTrichotomy(x.claim, y.claim);
    }
    forall x, y, z | x in inputs && y in inputs && z in inputs && InputLess(x, y) && InputLess(y, z)
      ensures InputLess(x, z)
    {
      InputLessTransitive(x, y, z);
    }
  }

  lemma InputLessTransitive(x: RuleInput, y: RuleInput, z: RuleInput)
    requires InputLess(x, y) && InputLess(y, z)
    ensures InputLess(x, z)
  {
    if TextLess(x.subject, y.subject) && TextLess(y.subject, z.subject) {
      TextLessTransitive(x.subject, y.subject, z.subject);
    } else if x.subject == y.subject == z.subject {
      if TextLess(x.attribute, y.attribute) && TextLess(y.attribute, z.attribute) {
        TextLessTransitive(x.attribute, y.attribute, z.attribute);
      } else if x.attribute == y.attribute == z.attribute {
        TextLessTransitive(x.claim, y.claim, z.claim);
      }
    }
  }

  /** The inputs as recorded: strictly sorted by subject, predicate and claim. */
  function Recorded(inputs: set<RuleInput>): (xs: seq<RuleInput>)
    requires ClaimsDiffer(inputs)
    ensures Sorted(xs, InputLess) && forall i :: i in xs <==> i in inputs
  {
    InputsOrdered(inputs);
    Listed(inputs, InputLess)
  }

  /** The columns of that order, the first that differs decides. */
  lemma RecordedOrder(inputs: set<RuleInput>, i: nat, j: nat)
    requires ClaimsDiffer(inputs) && i < j < |Recorded(inputs)|
    ensures var x, y := Recorded(inputs)[i], Recorded(inputs)[j];
      if x.subject != y.subject then TextLess(x.subject, y.subject)
      else if x.attribute != y.attribute then TextLess(x.attribute, y.attribute)
      else TextLess(x.claim, y.claim)
  {
    var x, y := Recorded(inputs)[i], Recorded(inputs)[j];
    assert InputLess(x, y);
    TextLessTrichotomy(x.subject, y.subject);
    TextLessTrichotomy(x.attribute, y.attribute);
  }

  function Members<T>(xs: seq<T>): set<T> { set x | x in xs }

  /** Removes each input whose claim is that of the input kept before it. */
  function WithoutRepeats(xs: seq<RuleInput>): (kept: seq<RuleInput>)
    ensures xs != [] ==> kept != []
  {
    if |xs| <= 1 then xs
    else
      var kept := WithoutRepeats(xs[..|xs| - 1]);
      if kept[|kept| - 1].claim == xs[|xs| - 1].claim then kept else kept + [xs[|xs| - 1]]
  }

  /** Where equal claims are equal inputs, only repeats are removed. */
  lemma {:induction false} WithoutRepeatsMembers(xs: seq<RuleInput>)
    requires forall x, y :: x in xs && y in xs && x.claim == y.claim ==> x == y
    ensures var kept := WithoutRepeats(xs);
      (forall x :: x in kept <==> x in xs) && (xs != [] ==> kept[|kept| - 1] == xs[|xs| - 1])
  {
    if |xs| > 1 {
      var init, last := xs[..|xs| - 1], xs[|xs| - 1];
      WithoutRepeatsMembers(init);
      assert xs == init + [last];
    }
  }

  lemma {:induction false} WithoutRepeatsOfSorted(xs: seq<RuleInput>, s: set<RuleInput>)
    requires ClaimsDiffer(s) && OrdersOn(s, InputLess) && (forall x :: x in xs ==> x in s)
      && NoInversions(xs, InputLess)
    ensures Sorted(WithoutRepeats(xs), InputLess) && forall x :: x in WithoutRepeats(xs) <==> x in xs
  {
    hide InputLess, OrdersOn;
    WithoutRepeatsMembers(xs);
    if |xs| > 1 {
      var init, last := xs[..|xs| - 1], xs[|xs| - 1];
      var kept := WithoutRepeats(init);
      WithoutRepeatsOfSorted(init, s);
      WithoutRepeatsMembers(init);
      hide ClaimsDiffer;
      assert kept[|kept| - 1] == xs[|xs| - 2] && !InputLess(last, xs[|xs| - 2]);
      if kept[|kept| - 1].claim != last.claim {
        assert WithoutRepeats(xs) == kept + [last];
        hide WithoutRepeats, NoInversions;
        SortedAppended(kept, last, s);
      }
    }
  }

  lemma SortedAppended(kept: seq<RuleInput>, x: RuleInput, s: set<RuleInput>)
    requires OrdersOn(s, InputLess) && Sorted(kept, InputLess) && kept != [] && x in s
      && forall k :: k in kept ==> k in s
    requires kept[|kept| - 1] != x && !InputLess(x, kept[|kept| - 1])
    ensures Sorted(kept + [x], InputLess)
  {
    hide InputLess;
    assert InputLess(kept[|kept| - 1], x);
    forall i | 0 <= i < |kept|
      ensures InputLess(kept[i], x)
    {
      assert kept[i] in s && kept[|kept| - 1] in s;
    }
  }

  /** Sorting and removing adjacent repeats records each input exactly once, in order, whatever
      the order and repetition it was collected in. */
  lemma SortingRecords(xs: seq<RuleInput>)
    requires ClaimsDiffer(Members(xs))
    ensures WithoutRepeats(SortBy(xs, InputLess)) == Recorded(Members(xs))
  {
    var s := Members(xs);
    InputsOrdered(s);
    SortMembers(xs, InputLess);
    SortOrders(xs, InputLess, s);
    WithoutRepeatsOfSorted(SortBy(xs, InputLess), s);
    ListedIsUnique(WithoutRepeats(SortBy(xs, InputLess)), s, InputLess);
  }

  // ---- The evaluator ----

  function VerifiedMatching(grounded: seq<GroundedClaim>, c: Condition): seq<GroundedClaim> {
    if grounded == [] then []
    else
      (if grounded[0].state == Verified && Concerns(c, InputOf(grounded[0])) then [grounded[0]] else [])
      + VerifiedMatching(grounded[1..], c)
  }

  function VerifiedAnchors(grounded: seq<GroundedClaim>, anchor: string): seq<GroundedClaim> {
    if grounded == [] then []
    else
      (if grounded[0].state == Verified && grounded[0].claim.attribute == anchor then [grounded[0]] else [])
      + VerifiedAnchors(grounded[1..], anchor)
  }

  function CountEqual(candidates: seq<GroundedClaim>, expected: KnowledgeValue): nat {
    if candidates == [] then 0
    else (if candidates[0].claim.value == expected then 1 else 0) + CountEqual(candidates[1..], expected)
  }

  function InputsOf(candidates: seq<GroundedClaim>): seq<RuleInput> {
    seq(|candidates|, i requires 0 <= i < |candidates| => InputOf(candidates[i]))
  }

  lemma {:induction false} VerifiedMatchingMembers(grounded: seq<GroundedClaim>, c: Condition)
    ensures forall g :: g in VerifiedMatching(grounded, c) <==>
      g in grounded && g.state == Verified && Concerns(c, InputOf(g))
  {
    if grounded != [] {
      VerifiedMatchingMembers(grounded[1..], c);
    }
  }

  lemma {:induction false} VerifiedAnchorsMembers(grounded: seq<GroundedClaim>, anchor: string)
    ensures forall g :: g in VerifiedAnchors(grounded, anchor) <==>
      g in grounded && g.state == Verified && g.claim.attribute == anchor
  {
    if grounded != [] {
      VerifiedAnchorsMembers(grounded[1..], anchor);
    }
  }

  lemma {:induction false} CountEqualMeaning(candidates: seq<GroundedClaim>, expected: KnowledgeValue)
    ensures CountEqual(candidates, expected) <= |candidates|
    ensures CountEqual(candidates, expected) > 0 <==> exists g :: g in candidates && g.claim.value == expected
    ensures CountEqual(candidates, expected) < |candidates| <==> exists g ::
      g in candidates && g.claim.value != expected
  {
    if candidates != [] {
      CountEqualMeaning(candidates[1..], expected);
      assert forall g :: g in candidates <==> g == candidates[0] || g in candidates[1..];
    }
  }

  ghost predicate DistinctClaims(grounded: seq<GroundedClaim>) {
    forall i, j :: 0 <= i < j < |grounded| ==> grounded[i].claim.id != grounded[j].claim.id
  }

  lemma RelevantClaimsDiffer(def: Definition, grounded: seq<GroundedClaim>)
    requires DistinctClaims(grounded)
    ensures ClaimsDiffer(RelevantInputs(def, Members(grounded)))
  {
  }

  /** The counts of a condition's candidates decide its fate among the relevant inputs. */
  lemma CandidatesDecide(def: Definition, grounded: seq<GroundedClaim>, c: Condition)
    requires c in def.all
    ensures var candidates := VerifiedMatching(grounded, c); var inputs := RelevantInputs(def, Members(grounded));
      var matching := CountEqual(candidates, c.expected);
      && (candidates == [] <==> Misses(c, inputs))
      && (0 < matching < |candidates| <==> Disagrees(c, inputs))
      && (candidates != [] && matching == 0 <==> Fails(c, inputs))
  {
    var candidates, inputs := VerifiedMatching(grounded, c), RelevantInputs(def, Members(grounded));
    VerifiedMatchingMembers(grounded, c);
    CountEqualMeaning(candidates, c.expected);
    forall g | g in candidates
      ensures InputOf(g) in inputs
    {
    }
    assert Agrees(c, inputs) <==> exists g :: g in candidates && g.claim.value == c.expected by {
      if g :| g in candidates && g.claim.value == c.expected { assert InputOf(g) in inputs; }
    }
    assert Differs(c, inputs) <==> exists g :: g in candidates && g.claim.value != c.expected by {
      if g :| g in candidates && g.claim.value != c.expected { assert InputOf(g) in inputs; }
    }
    if candidates != [] { assert candidates[0] in candidates; }
  }

  /** One pass over the conditions and one over the anchor: collects the inputs, judges them, sorts
      and deduplicates. The judgement is that of the recorded inputs alone. */
  method Collect(def: Definition, grounded: seq<GroundedClaim>) returns (inputs: seq<RuleInput>, judgement: Judgement)
    requires DistinctClaims(grounded)
    ensures ClaimsDiffer(RelevantInputs(def, Members(grounded)))
    ensures inputs == Recorded(RelevantInputs(def, Members(grounded)))
    ensures judgement == Judge(def, RelevantInputs(def, Members(grounded)))
  {
    hide InputLess, VerifiedMatching, VerifiedAnchors, CountEqual, SortBy, WithoutRepeats, Recorded, Agrees, Differs;
    ghost var relevant := RelevantInputs(def, Members(grounded));
    RelevantClaimsDiffer(def, grounded);
    inputs := [];
    var missing: seq<string>, failed: seq<string>, disagreement: seq<string> := [], [], [];
    for k := 0 to |def.all|
      invariant missing == MissingPredicates(def.all[..k], relevant)
      invariant failed == FailedPredicates(def.all[..k], relevant)
      invariant disagreement != [] <==> exists c :: c in def.all[..k] && Disagrees(c, relevant)
      invariant forall i :: i in inputs <==> i in relevant && exists c :: c in def.all[..k] && Concerns(c, i)
    {
      var condition := def.all[k];
      assert def.all[..k + 1][..k] == def.all[..k] && def.all[..k + 1] == def.all[..k] + [condition];
      var candidates := VerifiedMatching(grounded, condition);
      CandidatesDecide(def, grounded, condition);
      CandidateInputs(def, grounded, condition);
      if candidates == [] {
        missing := missing + [condition.attribute];
      } else {
        var matching := CountEqual(candidates, condition.expected);
        if matching > 0 && matching < |candidates| {
          disagreement := disagreement + [condition.attribute];
        } else if matching == 0 {
          failed := failed + [condition.attribute];
        }
      }
      inputs := inputs + InputsOf(candidates);
    }
    assert def.all[..|def.all|] == def.all;
    var anchorCandidates := VerifiedAnchors(grounded, def.effect.anchor);
    AnchorInputs(def, grounded);
    var anchors := set g | g in anchorCandidates && IsAnchor(def, InputOf(g)) :: g.claim.value.value.day;
    inputs := inputs + InputsOf(anchorCandidates);
    assert Members(inputs) == relevant;
    SortingRecords(inputs);
    inputs := WithoutRepeats(SortBy(inputs, InputLess));
    if disagreement != [] || |anchors| > 1 {
      judgement := Judgement(Indeterminate, FactsDisagree, anchors);
    } else if missing != [] {
      judgement := Judgement(Indeterminate, FactsMissing(missing), anchors);
    } else if failed != [] {
      judgement := Judgement(NotSatisfied, ConditionsFailed(failed), anchors);
    } else if anchors == {} {
      judgement := Judgement(Indeterminate, AnchorMissing(def.effect.anchor), anchors);
    } else {
      judgement := Judgement(Satisfied, Established, anchors);
    }
  }

  lemma CandidateInputs(def: Definition, grounded: seq<GroundedClaim>, c: Condition)
    requires c in def.all
    ensures forall i :: i in InputsOf(VerifiedMatching(grounded, c)) <==>
      i in RelevantInputs(def, Members(grounded)) && Concerns(c, i)
  {
    var candidates := VerifiedMatching(grounded, c);
    VerifiedMatchingMembers(grounded, c);
    forall g | g in candidates
      ensures InputOf(g) in InputsOf(candidates)
    {
      var k :| 0 <= k < |candidates| && candidates[k] == g;
      assert InputsOf(candidates)[k] == InputOf(g);
    }
  }

  lemma AnchorInputs(def: Definition, grounded: seq<GroundedClaim>)
    ensures var candidates := VerifiedAnchors(grounded, def.effect.anchor);
      var relevant := RelevantInputs(def, Members(grounded));
      && (forall i :: i in InputsOf(candidates) <==> i in relevant && i.attribute == def.effect.anchor)
      && AnchorDates(def, relevant) == (set g | g in candidates && IsAnchor(def, InputOf(g)) :: g.claim.value.value.day)
  {
    var candidates := VerifiedAnchors(grounded, def.effect.anchor);
    var relevant := RelevantInputs(def, Members(grounded));
    VerifiedAnchorsMembers(grounded, def.effect.anchor);
    forall g | g in candidates
      ensures InputOf(g) in InputsOf(candidates) && InputOf(g) in relevant
    {
      var k :| 0 <= k < |candidates| && candidates[k] == g;
      assert InputsOf(candidates)[k] == InputOf(g);
    }
    var dates := set g | g in candidates && IsAnchor(def, InputOf(g)) :: g.claim.value.value.day;
    forall d | d in AnchorDates(def, relevant)
      ensures d in dates
    {
      var i :| i in relevant && IsAnchor(def, i) && i.value.value.day == d;
      var g :| g in Members(grounded) && g.state == Verified && Relevant(def, InputOf(g)) && InputOf(g) == i;
      assert g in candidates;
    }
    forall d | d in dates
      ensures d in AnchorDates(def, relevant)
    {
      var g :| g in candidates && IsAnchor(def, InputOf(g)) && g.claim.value.value.day == d;
      assert InputOf(g) in relevant;
    }
  }

  // ---- Properties of evaluation ----

  /** A recorded input, presented again as the verified claim it came from. */
  function Replayed(caseId: Id, i: RuleInput): GroundedClaim {
    GroundedClaim(Claim(i.claim, caseId, i.subject, i.attribute, i.value, External, Extracted, 0), Verified, i.evidence)
  }

  /** Evaluating again on just the recorded inputs gives the same inputs, hence the same judgement. */
  lemma RecordedInputsSuffice(def: Definition, grounded: set<GroundedClaim>, caseId: Id)
    ensures var inputs := RelevantInputs(def, grounded);
      RelevantInputs(def, set i | i in inputs :: Replayed(caseId, i)) == inputs
  {
    var inputs := RelevantInputs(def, grounded);
    var again := set i | i in inputs :: Replayed(caseId, i);
    forall i | i in inputs
      ensures i in RelevantInputs(def, again)
    {
      assert Replayed(caseId, i) in again && InputOf(Replayed(caseId, i)) == i;
    }
    forall i | i in RelevantInputs(def, again)
      ensures i in inputs
    {
      var g :| g in again && InputOf(g) == i;
      var j :| j in inputs && Replayed(caseId, j) == g;
      assert InputOf(g) == j;
    }
  }

  ghost predicate SameConditions(d: Definition, e: Definition) {
    (forall c :: c in d.all <==> c in e.all) && d.effect == e.effect
  }

  lemma {:induction false} MissingMeaning(all: seq<Condition>, inputs: set<RuleInput>)
    ensures MissingPredicates(all, inputs) != [] <==> exists c :: c in all && Misses(c, inputs)
    ensures FailedPredicates(all, inputs) != [] <==> exists c :: c in all && Fails(c, inputs)
  {
    if all != [] {
      var last := all[|all| - 1];
      MissingMeaning(all[..|all| - 1], inputs);
      assert all == all[..|all| - 1] + [last];
      assert last in all;
    }
  }

  /** Reordering or repeating conditions changes neither the inputs nor the verdict nor the anchors. */
  lemma ConditionOrderIsIrrelevant(d: Definition, e: Definition, grounded: set<GroundedClaim>)
    requires SameConditions(d, e)
    ensures RelevantInputs(d, grounded) == RelevantInputs(e, grounded)
    ensures var inputs := RelevantInputs(d, grounded);
      Judge(d, inputs).verdict == Judge(e, inputs).verdict && Judge(d, inputs).anchors == Judge(e, inputs).anchors
  {
    var inputs := RelevantInputs(d, grounded);
    MissingMeaning(d.all, inputs);
    MissingMeaning(e.all, inputs);
    assert forall i :: Relevant(d, i) <==> Relevant(e, i);
    assert AnchorDates(d, inputs) == AnchorDates(e, inputs);
  }

  /** When a rule is satisfied: every condition has verified claims and all of them agree with it,
      and the verified anchors name exactly one date. */
  lemma SatisfiedExactly(def: Definition, inputs: set<RuleInput>)
    ensures Judge(def, inputs).verdict == Satisfied <==>
      && (forall c :: c in def.all ==> Agrees(c, inputs) && !Differs(c, inputs))
      && |AnchorDates(def, inputs)| == 1
    ensures Judge(def, inputs).verdict == NotSatisfied ==>
      exists c :: c in def.all && Differs(c, inputs) && !Agrees(c, inputs)
  {
    MissingMeaning(def.all, inputs);
  }
}
