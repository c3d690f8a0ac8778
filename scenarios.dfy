/** Concrete runs of the model: asserting a rule and a fact that matches it, and
    retracting that fact again under the cascade as written and as corrected. */
module Scenarios {
  import opened Logic
  import opened Items
  import opened Inference
  import opened Retraction

  const Pa := Statement("P", [Const("a")])
  const Pb := Statement("P", [Const("b")])
  const Qa := Statement("Q", [Const("a")])
  /** The rule `P(?x) => Q(?x)`. */
  const R := RuleKey([Statement("P", [Var("x")])], Statement("Q", [Var("x")]))

  /** A stand-in for `match` and `instantiate` that behaves as they do on these
      statements: `P(a)` matches `P(?x)` binding `?x` to `a`, and `Q(?x)`
      instantiates to `Q(a)`; nothing else matches. */
  const U := Unifier(
    (f: Statement, pat: Statement) =>
      if f == Pa && pat == Statement("P", [Var("x")]) then Some([Binding("x", Const("a"))]) else None,
    (s: Statement, b: Bindings) =>
      if s == Statement("Q", [Var("x")]) && b == [Binding("x", Const("a"))] then Qa else s)

  /** The rule `P(?x) => Q(a)`, whose consequent is the same for every match. */
  const R2 := RuleKey([Statement("P", [Var("x")])], Qa)

  const Empty := KB([], [])

  /** The store after asserting the rule and then `P(a)`. */
  const Chained := KB(
    [Fact(Pa, true, [], [Qa], []), Fact(Qa, false, [Support(R, Pa)], [], [])],
    [Rule(R.lhs, R.rhs, true, [], [Qa], [])])

  /** Fuel for one and for two nested derivations. */
  const One := More(Out)
  const Two := More(One)

  const RuleR := NewRule(R.lhs, R.rhs, [])
  const FactP := NewFact(Pa, [])
  const FactQ := NewFact(Qa, [Support(R, Pa)])

  lemma AssertRule()
    ensures Added(Empty, RuleItem(RuleR), Two, U) == KB([], [RuleR])
  {
    assert RuleAgainstFacts(R, []) == [];
  }

  /** `Q(a)` matches no antecedent, so adding it infers nothing further. */
  lemma AddQ()
    ensures Added(KB([FactP], [RuleR]), FactItem(FactQ), One, U) == KB([FactP, FactQ], [RuleR])
  {
    var kb3 := KB([FactP, FactQ], [RuleR]);
    assert FindFact([FactP], Qa) == None;
    assert FactAgainstRules(Qa, [RuleR]) == [Support(R, Qa)];
    assert U.unify(Qa, R.lhs[0]) == None;
    assert Inferred(kb3, Qa, R, One, U) == kb3;
    assert InferEach(kb3, [Support(R, Qa)], One, U) == kb3;
  }

  /** `P(a)` matches the rule's only antecedent: `Q(a)` is derived and recorded. */
  lemma DeriveQ()
    ensures Derive(KB([FactP], [RuleR]), Pa, R, [Binding("x", Const("a"))], Two, U) == Chained
  {
    var kb2 := KB([FactP], [RuleR]);
    var b := [Binding("x", Const("a"))];
    assert U.instantiate(R.rhs, b) == Qa;
    var f := One;
    assert Derive(kb2, Pa, R, b, Two, U) == AppendSupportsFact(AppendSupportsFact(
      Added(kb2, FactItem(FactQ), f, U), OfRule(R), Qa), OfFact(Pa), Qa);
    AddQ();
    var kb3 := KB([FactP, FactQ], [RuleR]);
    assert RuleR.Key() == R;
    assert FindRule(kb3.rules, R) == Some(0);
    var kb4 := KB([FactP, FactQ], [RuleR.(supportsFacts := [Qa])]);
    assert RuleR.supportsFacts + [Qa] == [Qa];
    assert kb3.rules[0 := RuleR.(supportsFacts := RuleR.supportsFacts + [Qa])] == kb4.rules;
    assert AppendSupportsFact(kb3, OfRule(R), Qa) == kb4;
    assert FindFact(kb4.facts, Pa) == Some(0);
    assert AppendSupportsFact(kb4, OfFact(Pa), Qa) == KB([FactP.(supportsFacts := [Qa]), FactQ], kb4.rules);
  }

  /** Asserting `P(?x) => Q(?x)` and then `P(a)` infers `Q(a)`, supported by the
      pair (rule, `P(a)`) and recorded as a dependent of both. */
  lemma AssertChains()
    ensures Added(Added(Empty, RuleItem(RuleR), Two, U), FactItem(FactP), Two, U) == Chained
  {
    AssertRule();
    var kb1 := KB([], [RuleR]);
    var kb2 := KB([FactP], [RuleR]);
    assert RuleR.Key() == R;
    assert FactAgainstRules(Pa, kb1.rules) == [Support(R, Pa)];
    assert FindFact(kb1.facts, Pa) == None;
    assert KB(kb1.facts + [FactP], kb1.rules) == kb2;
    assert Added(kb1, FactItem(FactP), Two, U) == InferEach(kb2, [Support(R, Pa)], Two, U);
    var b := [Binding("x", Const("a"))];
    assert U.unify(Pa, R.lhs[0]) == Some(b);
    assert FindFact(kb2.facts, Pa) == Some(0);
    assert FindRule(kb2.rules, R) == Some(0);
    assert Inferred(kb2, Pa, R, Two, U) == Derive(kb2, Pa, R, b, Two, U);
    DeriveQ();
    assert InferEach(Chained, [], Two, U) == Chained;
  }

  /** As written, retracting `P(a)` from that store takes `P(a)` out but leaves
      `Q(a)` stored, still supported by the pair that names `P(a)`: a fact's
      dependent facts are only checked against the pair's rule slot. */
  lemma RetractAsWrittenKeepsQ()
    ensures Gone(Retracted(Chained, OfFact(Pa), AsWritten), OfFact(Pa))
    ensures Has(Retracted(Chained, OfFact(Pa), AsWritten), OfFact(Qa))
    ensures StoredFact(Retracted(Chained, OfFact(Pa), AsWritten), Qa).supportedBy == [Support(R, Pa)]
  {
    var qf := Chained.facts[1];
    var kb1 := KB([qf], Chained.rules);
    assert FindFact(Chained.facts, Pa) == Some(0);
    assert RemoveAt(Chained.facts, 0) == [qf];
    assert Dependents([Qa], []) == [OfFact(Qa)];
    assert Retracted(Chained, OfFact(Pa), AsWritten) == Cascade(kb1, OfFact(Pa), [OfFact(Qa)], AsWritten);
    assert !Cuts(AsWritten, OfFact(Pa), true, Support(R, Pa));
    assert RemoveWhileIterating([Support(R, Pa)], 1, AsWritten, OfFact(Pa), true) == [Support(R, Pa)];
    assert Trim(AsWritten, [Support(R, Pa)], OfFact(Pa), true) == [Support(R, Pa)];
    assert kb1.facts[0 := qf] == kb1.facts;
    assert Step(kb1, OfFact(Pa), OfFact(Qa), AsWritten) == kb1;
    assert Cascade(kb1, OfFact(Pa), [OfFact(Qa)], AsWritten) == kb1;
    assert FindFact(kb1.facts, Pa) == None;
  }

  /** Corrected, the same retraction also takes out `Q(a)`, whose only support it was. */
  lemma RetractCorrectedRemovesQ()
    ensures Gone(Retracted(Chained, OfFact(Pa), Corrected), OfFact(Pa))
    ensures Gone(Retracted(Chained, OfFact(Pa), Corrected), OfFact(Qa))
    ensures Retracted(Chained, OfFact(Pa), Corrected) == KB([], [Rule(R.lhs, R.rhs, true, [], [Qa], [])])
  {
    var qf := Chained.facts[1];
    var kb1 := KB([qf], Chained.rules);
    assert FindFact(Chained.facts, Pa) == Some(0);
    assert RemoveAt(Chained.facts, 0) == [qf];
    assert Dependents([Qa], []) == [OfFact(Qa)];
    assert Retracted(Chained, OfFact(Pa), Corrected) == Cascade(kb1, OfFact(Pa), [OfFact(Qa)], Corrected);
    assert Cuts(Corrected, OfFact(Pa), true, Support(R, Pa));
    assert KeepUncut([Support(R, Pa)], Corrected, OfFact(Pa), true) == [] + KeepUncut([], Corrected, OfFact(Pa), true);
    assert Trim(Corrected, [Support(R, Pa)], OfFact(Pa), true) == [];
    var kb2 := KB([qf.(supportedBy := [])], Chained.rules);
    var kb3 := KB([], Chained.rules);
    assert RemoveAt(kb2.facts, 0) == [];
    assert Dependents([], []) == [];
    assert FindFact(kb2.facts, Qa) == Some(0);
    assert Unlink(kb2, OfFact(Qa), Corrected) == kb3;
    assert Retracted(kb2, OfFact(Qa), Corrected) == kb3;
    assert FindFact(kb1.facts, Qa) == Some(0);
    assert kb1.facts[0 := qf.(supportedBy := [])] == kb2.facts;
    assert Step(kb1, OfFact(Pa), OfFact(Qa), Corrected) == kb3;
    assert Cascade(kb1, OfFact(Pa), [OfFact(Qa)], Corrected) == kb3;
  }

  /** As written, removing pairs from `supported_by` while iterating over it skips
      the pair after each one removed: of two pairs naming the retracted rule, one
      is left behind. */
  lemma RemoveWhileIteratingSkips()
    ensures Trim(AsWritten, [Support(R2, Pa), Support(R2, Pb)], OfRule(R2), true) == [Support(R2, Pb)]
  {
    var s := [Support(R2, Pa), Support(R2, Pb)];
    assert Cuts(AsWritten, OfRule(R2), true, s[0]);
    assert IndexOf(s, s[0]) == 0;
    assert RemoveAt(s, 0) == [Support(R2, Pb)];
    assert RemoveWhileIterating(s, 0, AsWritten, OfRule(R2), true)
      == RemoveWhileIterating([Support(R2, Pb)], 1, AsWritten, OfRule(R2), true);
  }

  /** Corrected, both pairs go. */
  lemma KeepUncutDropsBoth()
    ensures Trim(Corrected, [Support(R2, Pa), Support(R2, Pb)], OfRule(R2), true) == []
  {
    var s := [Support(R2, Pa), Support(R2, Pb)];
    assert Cuts(Corrected, OfRule(R2), true, s[0]) && Cuts(Corrected, OfRule(R2), true, s[1]);
    assert s[1..] == [s[1]];
    assert KeepUncut(s[1..], Corrected, OfRule(R2), true) == [] + KeepUncut([], Corrected, OfRule(R2), true);
  }

  /** `Q(a)` inferred twice by `P(?x) => Q(a)`, from `P(a)` and from `P(b)`. */
  const CoSupported := KB(
    [Fact(Pa, true, [], [Qa], []), Fact(Pb, true, [], [Qa], []),
     Fact(Qa, false, [Support(R2, Pa), Support(R2, Pb)], [], [])],
    [Rule(R2.lhs, R2.rhs, true, [], [Qa, Qa], [])])

  /** Of the two supports of `Q(a)`, only the one through `P(a)` names `P(a)`. */
  lemma TrimCoSupport()
    ensures Trim(Corrected, [Support(R2, Pa), Support(R2, Pb)], OfFact(Pa), true) == [Support(R2, Pb)]
  {
    var s := [Support(R2, Pa), Support(R2, Pb)];
    assert Cuts(Corrected, OfFact(Pa), true, s[0]) && !Cuts(Corrected, OfFact(Pa), true, s[1]);
    assert s[1..] == [s[1]];
    assert KeepUncut(s[1..], Corrected, OfFact(Pa), true) == [s[1]] + KeepUncut([], Corrected, OfFact(Pa), true);
  }

  /** Retracting `P(a)` takes away one of the two supports of `Q(a)`; the other,
      through `P(b)`, keeps `Q(a)` stored. */
  lemma RetractKeepsCoSupported()
    ensures Retracted(CoSupported, OfFact(Pa), Corrected) == KB(
      [Fact(Pb, true, [], [Qa], []), Fact(Qa, false, [Support(R2, Pb)], [], [])], CoSupported.rules)
  {
    var qf := CoSupported.facts[2];
    var kb1 := KB([CoSupported.facts[1], qf], CoSupported.rules);
    assert FindFact(CoSupported.facts, Pa) == Some(0);
    assert RemoveAt(CoSupported.facts, 0) == kb1.facts;
    assert Dependents([Qa], []) == [OfFact(Qa)];
    assert Retracted(CoSupported, OfFact(Pa), Corrected) == Cascade(kb1, OfFact(Pa), [OfFact(Qa)], Corrected);
    TrimCoSupport();
    assert FindFact(kb1.facts, Qa) == Some(1);
    var kb2 := KB([CoSupported.facts[1], qf.(supportedBy := [Support(R2, Pb)])], CoSupported.rules);
    assert kb1.facts[1 := qf.(supportedBy := [Support(R2, Pb)])] == kb2.facts;
    assert Step(kb1, OfFact(Pa), OfFact(Qa), Corrected) == kb2;
    assert Cascade(kb1, OfFact(Pa), [OfFact(Qa)], Corrected) == Cascade(kb2, OfFact(Pa), [], Corrected);
  }

  /** The two recorded dependents of `P(?x) => Q(a)` in `CoSupported`, once the rule is out. */
  const CoStore := KB(CoSupported.facts, [])
  /** `CoStore` after the first as-written step: `Q(a)` keeps the pair the removal loop skipped. */
  const CoSkipped := KB([Fact(Pa, true, [], [Qa], []), Fact(Pb, true, [], [Qa], []), Fact(Qa, false, [Support(R2, Pb)], [], [])], [])

  /** As written, the first visit to `Q(a)` leaves it the pair through `P(b)`. */
  lemma FirstVisitSkips()
    ensures Step(CoStore, OfRule(R2), OfFact(Qa), AsWritten) == CoSkipped
  {
    assert FindFact(CoStore.facts, Qa) == Some(2);
    RemoveWhileIteratingSkips();
    assert CoStore.facts[2 := CoStore.facts[2].(supportedBy := [Support(R2, Pb)])] == CoSkipped.facts;
  }

  /** Retracting `P(?x) => Q(a)` from `CoSupported` with the cascade as written, in
      the model: `Q(a)` is recorded twice, the first visit leaves it the pair through
      `P(b)`, and the second visit, to the same stored `Q(a)`, takes that pair and
      then `Q(a)` itself. */
  lemma RetractCoRuleAsWritten()
    ensures Retracted(CoSupported, OfRule(R2), AsWritten) == KB([CoSupported.facts[0], CoSupported.facts[1]], [])
  {
    assert FindRule(CoSupported.rules, R2) == Some(0);
    assert RemoveAt(CoSupported.rules, 0) == [];
    assert Dependents([Qa, Qa], []) == [OfFact(Qa), OfFact(Qa)];
    assert Retracted(CoSupported, OfRule(R2), AsWritten) == Cascade(CoStore, OfRule(R2), [OfFact(Qa), OfFact(Qa)], AsWritten);
    FirstVisitSkips();
    assert Cascade(CoStore, OfRule(R2), [OfFact(Qa), OfFact(Qa)], AsWritten)
      == Cascade(CoSkipped, OfRule(R2), [OfFact(Qa)], AsWritten);
    SecondVisitRemoves();
  }

  /** The second visit, to the stored `Q(a)`: its last pair goes, and so does `Q(a)`. */
  lemma SecondVisitRemoves()
    ensures Cascade(CoSkipped, OfRule(R2), [OfFact(Qa)], AsWritten) == KB([CoSupported.facts[0], CoSupported.facts[1]], [])
  {
    var r := KB([CoSupported.facts[0], CoSupported.facts[1]], []);
    assert |CoSkipped.facts| == 3 && CoSkipped.facts[2].statement == Qa;
    assert CoSkipped.facts[0].statement != Qa && CoSkipped.facts[1].statement != Qa;
    assert FindFact(CoSkipped.facts, Qa) == Some(2);
    TrimOne(AsWritten, Support(R2, Pb), OfRule(R2), true);
    var kb2 := KB([Fact(Pa, true, [], [Qa], []), Fact(Pb, true, [], [Qa], []), Fact(Qa, false, [], [], [])], []);
    assert CoSkipped.facts[2 := CoSkipped.facts[2].(supportedBy := [])] == kb2.facts;
    assert Step(CoSkipped, OfRule(R2), OfFact(Qa), AsWritten) == Retracted(kb2, OfFact(Qa), AsWritten);
    assert |kb2.facts| == 3 && kb2.facts[2].statement == Qa;
    assert kb2.facts[0].statement != Qa && kb2.facts[1].statement != Qa;
    assert FindFact(kb2.facts, Qa) == Some(2);
    assert RemoveAt(kb2.facts, 2) == r.facts;
    assert Dependents([], []) == [];
    assert Retracted(kb2, OfFact(Qa), AsWritten) == Cascade(r, OfFact(Qa), [], AsWritten);
  }

  /** In the source, the second recorded `Q(a)` is the object `fc_infer` built from
      `P(b)`, whose pairs `kb_add` merged into the stored `Q(a)`. The second visit
      trims that object, not the stored fact, and `kb_retract` of it finds the
      stored `Q(a)` unasserted but still supported through `P(b)`, and keeps it. */
  lemma SecondVisitOnCopy()
    ensures StepOnCopy(CoSkipped, OfRule(R2), NewFact(Qa, [Support(R2, Pb)]), AsWritten) == CoSkipped
  {
    TrimOne(AsWritten, Support(R2, Pb), OfRule(R2), true);
    assert |CoSkipped.facts| == 3 && CoSkipped.facts[2].statement == Qa;
    assert CoSkipped.facts[0].statement != Qa && CoSkipped.facts[1].statement != Qa;
    assert FindFact(CoSkipped.facts, Qa) == Some(2);
  }

  /** The store after asserting `Q(a)`, then `P(?x) => Q(?x)`, then `P(a)`: the
      inferred `Q(a)` merged into the asserted one, which keeps its flag and gains
      the pair (rule, `P(a)`). */
  const Aliased := KB(
    [Fact(Qa, true, [Support(R, Pa)], [], []), Fact(Pa, true, [], [Qa], [])],
    [Rule(R.lhs, R.rhs, true, [], [Qa], [])])

  /** The object `fc_infer` built for `Q(a)` and recorded as the rule's and the
      fact's dependent. */
  const CopyQ := NewFact(Qa, [Support(R, Pa)])

  /** Asserting `Q(a)` and then `P(?x) => Q(?x)` infers nothing: `Q(a)` does not
      match the antecedent. */
  lemma AssertQThenRule()
    ensures Added(Added(Empty, FactItem(NewFact(Qa, [])), Two, U), RuleItem(RuleR), Two, U)
      == KB([NewFact(Qa, [])], [RuleR])
  {
    var q0 := NewFact(Qa, []);
    var kb1 := KB([q0], []);
    assert FactAgainstRules(Qa, []) == [];
    assert Added(Empty, FactItem(q0), Two, U) == kb1;
    var kb2 := KB([q0], [RuleR]);
    assert RuleR.Key() == R;
    assert RuleAgainstFacts(R, kb1.facts) == [Support(R, Qa)];
    assert U.unify(Qa, R.lhs[0]) == None;
    assert Inferred(kb2, Qa, R, Two, U) == kb2;
    assert InferEach(kb2, [Support(R, Qa)], Two, U) == InferEach(kb2, [], Two, U);
  }

  /** The inferred `Q(a)` is equal to the stored one, so `kb_add` merges its pair in. */
  lemma MergeCopyQ()
    ensures Added(KB([NewFact(Qa, []), FactP], [RuleR]), FactItem(CopyQ), One, U)
      == KB([Fact(Qa, true, [Support(R, Pa)], [], []), FactP], [RuleR])
  {
    var kb3 := KB([NewFact(Qa, []), FactP], [RuleR]);
    assert FindFact(kb3.facts, Qa) == Some(0);
    assert CopyQ.supportedBy == [Support(R, Pa)] && [] + [Support(R, Pa)] == [Support(R, Pa)];
    assert MergeFact(kb3.facts[0], CopyQ) == Fact(Qa, true, [Support(R, Pa)], [], []);
  }

  /** `P(a)` matches the rule: the merge, then the rule and `P(a)` record `Q(a)`. */
  lemma DeriveAliased()
    ensures Derive(KB([NewFact(Qa, []), FactP], [RuleR]), Pa, R, [Binding("x", Const("a"))], Two, U) == Aliased
  {
    var kb3 := KB([NewFact(Qa, []), FactP], [RuleR]);
    var b := [Binding("x", Const("a"))];
    assert U.instantiate(R.rhs, b) == Qa;
    assert Derive(kb3, Pa, R, b, Two, U) == AppendSupportsFact(AppendSupportsFact(
      Added(kb3, FactItem(CopyQ), One, U), OfRule(R), Qa), OfFact(Pa), Qa);
    MergeCopyQ();
    var kb4 := KB([Fact(Qa, true, [Support(R, Pa)], [], []), FactP], [RuleR]);
    var kb5 := KB(kb4.facts, [RuleR.(supportsFacts := [Qa])]);
    assert RuleR.Key() == R;
    assert FindRule(kb4.rules, R) == Some(0);
    assert RuleR.supportsFacts + [Qa] == [Qa];
    assert kb4.rules[0 := RuleR.(supportsFacts := RuleR.supportsFacts + [Qa])] == kb5.rules;
    assert AppendSupportsFact(kb4, OfRule(R), Qa) == kb5;
    assert FindFact(kb5.facts, Pa) == Some(1);
    assert FactP.supportsFacts + [Qa] == [Qa];
    assert AppendSupportsFact(kb5, OfFact(Pa), Qa) == Aliased;
  }

  /** Asserting `P(a)` into that store infers `Q(a)` again and merges it. */
  lemma AddPaAliased()
    ensures Added(KB([NewFact(Qa, [])], [RuleR]), FactItem(FactP), Two, U) == Aliased
  {
    var kb2 := KB([NewFact(Qa, [])], [RuleR]);
    var kb3 := KB([NewFact(Qa, []), FactP], [RuleR]);
    assert RuleR.Key() == R;
    assert FactAgainstRules(Pa, kb2.rules) == [Support(R, Pa)];
    assert FindFact(kb2.facts, Pa) == None;
    assert KB(kb2.facts + [FactP], kb2.rules) == kb3;
    assert Added(kb2, FactItem(FactP), Two, U) == InferEach(kb3, [Support(R, Pa)], Two, U);
    var b := [Binding("x", Const("a"))];
    assert U.unify(Pa, R.lhs[0]) == Some(b);
    assert FindFact(kb3.facts, Pa) == Some(1);
    assert FindRule(kb3.rules, R) == Some(0);
    assert Inferred(kb3, Pa, R, Two, U) == Derive(kb3, Pa, R, b, Two, U);
    DeriveAliased();
    assert InferEach(Aliased, [], Two, U) == Aliased;
  }

  /** Asserting `Q(a)`, then `P(?x) => Q(?x)`, then `P(a)` leaves `Aliased`. */
  lemma AssertAliased()
    ensures Added(Added(Added(Empty, FactItem(NewFact(Qa, [])), Two, U), RuleItem(RuleR), Two, U),
      FactItem(FactP), Two, U) == Aliased
  {
    AssertQThenRule();
    AddPaAliased();
  }

  /** As written, retracting the rule from that store takes the rule out and runs
      the cascade on `CopyQ`, not on the stored `Q(a)`: the copy loses its one pair,
      so `kb_retract` of it looks up the stored `Q(a)`, finds it asserted and still
      supported by the pair naming the rule, and clears its flag. The assertion of
      `Q(a)` is lost and the pair naming the retracted rule stays. */
  lemma RetractRuleAsWrittenUnassertsQ()
    ensures FindRule(Aliased.rules, R) == Some(0) && RemoveAt(Aliased.rules, 0) == []
    ensures Aliased.rules[0].supportsFacts == [CopyQ.statement] && Aliased.rules[0].supportsRules == []
    ensures StepOnCopy(KB(Aliased.facts, []), OfRule(R), CopyQ, AsWritten)
      == KB([Fact(Qa, false, [Support(R, Pa)], [], []), Aliased.facts[1]], [])
  {
    assert RuleR.Key() == R;
    var s := CopyQ.supportedBy;
    assert Cuts(AsWritten, OfRule(R), true, s[0]);
    assert IndexOf(s, s[0]) == 0;
    assert RemoveAt(s, 0) == [];
    assert Trim(AsWritten, s, OfRule(R), true) == [];
    var kb1 := KB(Aliased.facts, []);
    assert FindFact(kb1.facts, Qa) == Some(0);
    assert StepOnCopy(kb1, OfRule(R), CopyQ, AsWritten) == Retracted(kb1, OfFact(Qa), AsWritten);
  }

  /** In the model, where the cascade resolves each dependent to the stored item,
      the same retraction takes the rule's pair off the stored `Q(a)` and leaves it
      asserted, under either cascade. */
  lemma RetractRuleKeepsAssertedQ(m: Mode)
    ensures Retracted(Aliased, OfRule(R), m) == KB([Fact(Qa, true, [], [], []), Aliased.facts[1]], [])
  {
    var kb1 := KB(Aliased.facts, []);
    var r := KB([Fact(Qa, true, [], [], []), Aliased.facts[1]], []);
    assert FindRule(Aliased.rules, R) == Some(0);
    assert RemoveAt(Aliased.rules, 0) == [];
    assert Dependents([Qa], []) == [OfFact(Qa)];
    assert Retracted(Aliased, OfRule(R), m) == Cascade(kb1, OfRule(R), [OfFact(Qa)], m);
    assert Cascade(kb1, OfRule(R), [OfFact(Qa)], m) == Cascade(Step(kb1, OfRule(R), OfFact(Qa), m), OfRule(R), [], m);
    TrimOne(m, Support(R, Pa), OfRule(R), true);
    assert kb1.facts[0].supportedBy == [Support(R, Pa)] && kb1.facts[0].asserted;
    assert FindFact(kb1.facts, Qa) == Some(0);
    assert kb1.facts[0 := kb1.facts[0].(supportedBy := [])] == r.facts;
    assert Step(kb1, OfRule(R), OfFact(Qa), m) == r;
  }


  const Sc := Statement("S", [Const("c")])
  /** The rule `Q(?x) => P(?x)`, the converse of `R`. */
  const RConverse := RuleKey([Statement("Q", [Var("x")])], Statement("P", [Var("x")]))

  /** `S(c)` asserted, and `P(a)` and `Q(a)` unasserted, each supported only
      through the other: (`Q(?x) => P(?x)`, `Q(a)`) and (`P(?x) => Q(?x)`, `P(a)`). */
  const Cycle := KB(
    [Fact(Sc, true, [], [], []),
     Fact(Pa, false, [Support(RConverse, Qa)], [Qa], []),
     Fact(Qa, false, [Support(R, Pa)], [Pa], [])],
    [Rule(RConverse.lhs, RConverse.rhs, true, [], [Pa], []),
     Rule(R.lhs, R.rhs, true, [], [Qa], [])])

  /** Retracting `S(c)`, which records no dependent, takes out `S(c)` alone. */
  lemma RetractKeepsCycle(m: Mode)
    ensures Retracted(Cycle, OfFact(Sc), m) == KB(Cycle.facts[1..], Cycle.rules)
  {
    var kb1 := KB(Cycle.facts[1..], Cycle.rules);
    assert FindFact(Cycle.facts, Sc) == Some(0);
    assert RemoveAt(Cycle.facts, 0) == Cycle.facts[1..];
    assert Dependents([], []) == [];
    assert Unlink(Cycle, OfFact(Sc), m) == Cascade(kb1, OfFact(Sc), [], m);
  }

  /** A store that also dropped `P(a)` and `Q(a)` would have them excuse each
      other's loss: no order of the two is reached from the dependents of `S(c)`,
      of which there are none, so `RetractDropsOnly` rules that store out. */
  lemma CycleNotUnwound(order: seq<Key>)
    ensures !Unwinds(Cycle, KB([], Cycle.rules), OfFact(Sc), DepsOf(Cycle, OfFact(Sc)), order)
  {
    var gone := KB([], Cycle.rules);
    FactViewFind(Cycle.facts, Sc);
    FactViewFind(Cycle.facts, Pa);
    assert FindFact(Cycle.facts, Sc) == Some(0) && FindFact(Cycle.facts, Pa) == Some(1);
    assert DepsOf(Cycle, OfFact(Sc)) == [];
    assert Lost(Cycle, gone, OfFact(Pa));
    if LostListed(Cycle, gone, OfFact(Sc), order) {
      assert OfFact(Pa) in order;
      assert !Reached(Cycle, [], order, 0);
    }
  }

  const Sa := Statement("S", [Const("a")])
  const Ta := Statement("T", [Const("a")])
  /** The rule `P(?x) & S(?x) => T(?x)`, of two antecedents. */
  const R3 := RuleKey([Statement("P", [Var("x")]), Statement("S", [Var("x")])], Statement("T", [Var("x")]))
  /** `R3` with its first antecedent matched by `P(a)`: `S(a) => T(a)`. */
  const D3 := RuleKey([Sa], Ta)

  /** A stand-in for `match` and `instantiate` on the statements of `R3`: `P(a)`
      matches `P(?x)` binding `?x` to `a`, `S(a)` matches itself with no binding,
      and under that binding `S(?x)` and `T(?x)` instantiate to `S(a)` and `T(a)`. */
  const U3 := Unifier(
    (f: Statement, pat: Statement) =>
      if f == Pa && pat == Statement("P", [Var("x")]) then Some([Binding("x", Const("a"))])
      else if f == Sa && pat == Sa then Some([])
      else None,
    (s: Statement, b: Bindings) =>
      if b == [Binding("x", Const("a"))] && s == Statement("S", [Var("x")]) then Sa
      else if b == [Binding("x", Const("a"))] && s == Statement("T", [Var("x")]) then Ta
      else s)

  const RuleR3 := NewRule(R3.lhs, R3.rhs, [])
  const RuleD3 := NewRule(D3.lhs, D3.rhs, [Support(R3, Pa)])
  const FactS := NewFact(Sa, [])
  const FactT := NewFact(Ta, [Support(D3, Sa)])

  /** The store after asserting `R3` and `P(a)`: `P(a)` specialised `R3` to `D3`. */
  const Specialised := KB(
    [Fact(Pa, true, [], [], [D3])],
    [Rule(R3.lhs, R3.rhs, true, [], [], [D3]), RuleD3])

  /** The store after asserting `S(a)` as well: `S(a)` matched `D3`, giving `T(a)`. */
  const Joined := KB(
    [Fact(Pa, true, [], [], [D3]), Fact(Sa, true, [], [Ta], []), Fact(Ta, false, [Support(D3, Sa)], [], [])],
    [Rule(R3.lhs, R3.rhs, true, [], [], [D3]), Rule(D3.lhs, D3.rhs, false, [Support(R3, Pa)], [Ta], [])])

  /** `D3` matches no stored fact: `P(a)` is the only one, and it fits no `S` pattern. */
  lemma AddD3()
    ensures Added(KB([FactP], [RuleR3]), RuleItem(RuleD3), One, U3) == KB([FactP], [RuleR3, RuleD3])
  {
    var kb2 := KB([FactP], [RuleR3]);
    var kb3 := KB([FactP], [RuleR3, RuleD3]);
    assert RuleR3.Key() == R3 && RuleD3.Key() == D3;
    assert FindRule(kb2.rules, D3) == None;
    assert KB(kb2.facts, kb2.rules + [RuleD3]) == kb3;
    assert RuleAgainstFacts(D3, kb2.facts) == [Support(D3, Pa)];
    assert U3.unify(Pa, D3.lhs[0]) == None;
    assert Inferred(kb3, Pa, D3, One, U3) == kb3;
  }

  /** `P(a)` against `R3`: the rule of the remaining antecedent, supported by
      (`R3`, `P(a)`), is stored and recorded by both. */
  lemma DeriveD3()
    ensures Derive(KB([FactP], [RuleR3]), Pa, R3, [Binding("x", Const("a"))], Two, U3) == Specialised
  {
    var kb2 := KB([FactP], [RuleR3]);
    var b := [Binding("x", Const("a"))];
    assert R3.lhs[1..] == [Statement("S", [Var("x")])];
    assert InstantiateAll(U3, R3.lhs[1..], b) == [Sa];
    assert U3.instantiate(R3.rhs, b) == Ta;
    assert Derive(kb2, Pa, R3, b, Two, U3) == AppendSupportsRule(AppendSupportsRule(
      Added(kb2, RuleItem(RuleD3), One, U3), OfRule(R3), D3), OfFact(Pa), D3);
    AddD3();
    var kb3 := KB([FactP], [RuleR3, RuleD3]);
    assert RuleR3 == Rule(R3.lhs, R3.rhs, true, [], [], []);
    assert RuleR3.Key() == R3;
    assert FindRule(kb3.rules, R3) == Some(0);
    var kb4 := KB([FactP], [Specialised.rules[0], RuleD3]);
    assert RuleR3.supportsRules + [D3] == [D3];
    assert kb3.rules[0 := RuleR3.(supportsRules := RuleR3.supportsRules + [D3])] == kb4.rules;
    assert AppendSupportsRule(kb3, OfRule(R3), D3) == kb4;
    assert FindFact(kb4.facts, Pa) == Some(0);
    assert FactP.supportsRules + [D3] == [D3];
    assert kb4.facts[0 := FactP.(supportsRules := FactP.supportsRules + [D3])] == Specialised.facts;
    assert RuleD3 == Specialised.rules[1];
  }

  /** Asserting `R3` and then `P(a)`. */
  lemma AssertSpecialises()
    ensures Added(Added(Empty, RuleItem(RuleR3), Two, U3), FactItem(FactP), Two, U3) == Specialised
  {
    assert RuleAgainstFacts(R3, []) == [];
    assert RuleR3.Key() == R3;
    var kb1 := KB([], [RuleR3]);
    assert Added(Empty, RuleItem(RuleR3), Two, U3) == kb1;
    var kb2 := KB([FactP], [RuleR3]);
    assert FactAgainstRules(Pa, kb1.rules) == [Support(R3, Pa)];
    assert KB(kb1.facts + [FactP], kb1.rules) == kb2;
    assert Added(kb1, FactItem(FactP), Two, U3) == InferEach(kb2, [Support(R3, Pa)], Two, U3);
    var b := [Binding("x", Const("a"))];
    assert U3.unify(Pa, R3.lhs[0]) == Some(b);
    assert FindFact(kb2.facts, Pa) == Some(0) && FindRule(kb2.rules, R3) == Some(0);
    assert Inferred(kb2, Pa, R3, Two, U3) == Derive(kb2, Pa, R3, b, Two, U3);
    DeriveD3();
    assert InferEach(Specialised, [], Two, U3) == Specialised;
  }

  /** `T(a)` matches neither rule. */
  lemma AddT()
    ensures var kb := KB(Specialised.facts + [FactS], Specialised.rules);
      Added(kb, FactItem(FactT), One, U3) == KB(kb.facts + [FactT], kb.rules)
  {
    var kb := KB(Specialised.facts + [FactS], Specialised.rules);
    var kb1 := KB(kb.facts + [FactT], kb.rules);
    assert FindFact(kb.facts, Ta) == None;
    assert Specialised.rules[0].Key() == R3 && Specialised.rules[1].Key() == D3;
    assert FactAgainstRules(Ta, kb.rules) == [Support(R3, Ta), Support(D3, Ta)];
    assert U3.unify(Ta, R3.lhs[0]) == None && U3.unify(Ta, D3.lhs[0]) == None;
    assert Inferred(kb1, Ta, R3, One, U3) == kb1;
    assert Inferred(kb1, Ta, D3, One, U3) == kb1;
    assert [Support(R3, Ta), Support(D3, Ta)][1..] == [Support(D3, Ta)];
    assert InferEach(kb1, [Support(D3, Ta)], One, U3) == kb1;
  }

  /** `S(a)` against `D3`: `T(a)` is stored, supported by (`D3`, `S(a)`), and recorded by both. */
  lemma DeriveT()
    ensures var kb := KB(Specialised.facts + [FactS], Specialised.rules);
      Derive(kb, Sa, D3, [], Two, U3) == Joined
  {
    var kb := KB(Specialised.facts + [FactS], Specialised.rules);
    assert U3.instantiate(D3.rhs, []) == Ta;
    assert Derive(kb, Sa, D3, [], Two, U3) == AppendSupportsFact(AppendSupportsFact(
      Added(kb, FactItem(FactT), One, U3), OfRule(D3), Ta), OfFact(Sa), Ta);
    AddT();
    var kb1 := KB(Specialised.facts + [FactS, FactT], Specialised.rules);
    assert kb.facts + [FactT] == kb1.facts;
    assert Added(kb, FactItem(FactT), One, U3) == kb1;
    RecordT();
  }

  /** `T(a)` is appended to the `supports_facts` of `D3` and of `S(a)`. */
  lemma RecordT()
    ensures var kb1 := KB(Specialised.facts + [FactS, FactT], Specialised.rules);
      AppendSupportsFact(AppendSupportsFact(kb1, OfRule(D3), Ta), OfFact(Sa), Ta) == Joined
  {
    var kb1 := KB(Specialised.facts + [FactS, FactT], Specialised.rules);
    assert Specialised.rules[0].Key() == R3 && Specialised.rules[1].Key() == D3;
    assert FindRule(kb1.rules, D3) == Some(1);
    var kb2 := KB(kb1.facts, Joined.rules);
    assert RuleD3 == Rule(D3.lhs, D3.rhs, false, [Support(R3, Pa)], [], []);
    assert RuleD3.supportsFacts + [Ta] == [Ta];
    assert kb1.rules[1 := RuleD3.(supportsFacts := RuleD3.supportsFacts + [Ta])] == kb2.rules;
    assert AppendSupportsFact(kb1, OfRule(D3), Ta) == kb2;
    assert FindFact(kb2.facts, Sa) == Some(1);
    assert FactS.supportsFacts + [Ta] == [Ta];
    assert kb2.facts[1 := FactS.(supportsFacts := FactS.supportsFacts + [Ta])] == Joined.facts;
  }


  /** `S(a)` against the two stored rules: it fits only `D3`. */
  lemma AddS()
    ensures Added(Specialised, FactItem(FactS), Two, U3) == Joined
  {
    var kb := KB(Specialised.facts + [FactS], Specialised.rules);
    var attempts := [Support(R3, Sa), Support(D3, Sa)];
    assert FindFact(Specialised.facts, Sa) == None;
    AgainstS();
    assert Added(Specialised, FactItem(FactS), Two, U3) == InferEach(kb, attempts, Two, U3);
    InferEachS();
  }

  /** Both stored rules are attempted with `S(a)`, in store order. */
  lemma AgainstS()
    ensures FactAgainstRules(Sa, Specialised.rules) == [Support(R3, Sa), Support(D3, Sa)]
  {
    assert Specialised.rules[0].Key() == R3 && Specialised.rules[1].Key() == D3;
  }

  /** The attempt with `R3` fails to unify; the one with `D3` derives `T(a)`. */
  lemma InferEachS()
    ensures InferEach(KB(Specialised.facts + [FactS], Specialised.rules), [Support(R3, Sa), Support(D3, Sa)], Two, U3)
      == Joined
  {
    var kb := KB(Specialised.facts + [FactS], Specialised.rules);
    var attempts := [Support(R3, Sa), Support(D3, Sa)];
    assert U3.unify(Sa, R3.lhs[0]) == None;
    assert Inferred(kb, Sa, R3, Two, U3) == kb;
    assert attempts[1..] == [Support(D3, Sa)];
    assert InferEach(kb, attempts, Two, U3) == InferEach(kb, [Support(D3, Sa)], Two, U3);
    InferD3();
    assert InferEach(kb, [Support(D3, Sa)], Two, U3) == InferEach(Joined, [], Two, U3);
  }

  /** `S(a)` matches `D3` with no bindings. */
  lemma InferD3()
    ensures var kb := KB(Specialised.facts + [FactS], Specialised.rules);
      Inferred(kb, Sa, D3, Two, U3) == Joined
  {
    var kb := KB(Specialised.facts + [FactS], Specialised.rules);
    assert U3.unify(Sa, D3.lhs[0]) == Some([]);
    assert Specialised.rules[1].Key() == D3;
    assert FindFact(kb.facts, Sa) == Some(1) && FindRule(kb.rules, D3) == Some(1);
    assert Inferred(kb, Sa, D3, Two, U3) == Derive(kb, Sa, D3, [], Two, U3);
    DeriveT();
  }

  /** Asserting `R3`, then `P(a)`, then `S(a)`. */
  lemma AssertJoins()
    ensures Added(Added(Added(Empty, RuleItem(RuleR3), Two, U3), FactItem(FactP), Two, U3), FactItem(FactS), Two, U3)
      == Joined
  {
    AssertSpecialises();
    AddS();
  }

  /** A single pair that the cascade cuts is trimmed away, under either cascade. */
  lemma TrimOne(m: Mode, p: Support, x: Key, ofFact: bool)
    requires Cuts(m, x, ofFact, p)
    ensures Trim(m, [p], x, ofFact) == []
  {
    match m {
      case AsWritten =>
        assert IndexOf([p], p) == 0;
        assert RemoveAt([p], 0) == [];
      case Corrected =>
        assert KeepUncut([p], m, x, ofFact) == [] + KeepUncut([], m, x, ofFact);
    }
  }

  /** Retracting `P(a)` from `Joined`, under either cascade, takes out `P(a)`, the
      rule `D3` it specialised `R3` to, and `T(a)`, which `D3` derived: each was
      left with no support. `S(a)` and `R3` stay, each still listing the dependent
      it recorded. */
  lemma RetractUnwindsSpecialised(m: Mode)
    ensures Retracted(Joined, OfFact(Pa), m)
      == KB([Fact(Sa, true, [], [Ta], [])], [Rule(R3.lhs, R3.rhs, true, [], [], [D3])])
  {
    var kb1 := KB(Joined.facts[1..], Joined.rules);
    assert FindFact(Joined.facts, Pa) == Some(0);
    assert RemoveAt(Joined.facts, 0) == kb1.facts;
    assert Dependents([], [D3]) == [OfRule(D3)];
    assert Retracted(Joined, OfFact(Pa), m) == Cascade(kb1, OfFact(Pa), [OfRule(D3)], m);
    assert Cascade(kb1, OfFact(Pa), [OfRule(D3)], m) == Cascade(Step(kb1, OfFact(Pa), OfRule(D3), m), OfFact(Pa), [], m);
    StepUnwindsD3(m);
  }

  /** The step on `D3`, whose only pair names `P(a)`: `D3` goes, and the step on
      `T(a)`, whose only pair names `D3`, takes `T(a)` with it. */
  lemma StepUnwindsD3(m: Mode)
    ensures Step(KB(Joined.facts[1..], Joined.rules), OfFact(Pa), OfRule(D3), m)
      == KB([Fact(Sa, true, [], [Ta], [])], [Rule(R3.lhs, R3.rhs, true, [], [], [D3])])
  {
    var kb1 := KB(Joined.facts[1..], Joined.rules);
    assert Joined.rules[0].Key() == R3 && Joined.rules[1].Key() == D3;
    assert FindRule(kb1.rules, D3) == Some(1);
    TrimOne(m, Support(R3, Pa), OfFact(Pa), false);
    var d := Joined.rules[1].(supportedBy := []);
    var kb2 := kb1.(rules := kb1.rules[1 := d]);
    assert Step(kb1, OfFact(Pa), OfRule(D3), m) == Retracted(kb2, OfRule(D3), m);
    assert FindRule(kb2.rules, D3) == Some(1);
    var kb3 := KB(kb1.facts, [Joined.rules[0]]);
    assert RemoveAt(kb2.rules, 1) == kb3.rules;
    assert Dependents([Ta], []) == [OfFact(Ta)];
    assert Retracted(kb2, OfRule(D3), m) == Cascade(kb3, OfRule(D3), [OfFact(Ta)], m);
    assert Cascade(kb3, OfRule(D3), [OfFact(Ta)], m) == Cascade(Step(kb3, OfRule(D3), OfFact(Ta), m), OfRule(D3), [], m);
    StepUnwindsT(m);
  }

  /** Once `D3` is out, the step on `T(a)` takes its last pair and then `T(a)`. */
  lemma StepUnwindsT(m: Mode)
    ensures Step(KB(Joined.facts[1..], [Joined.rules[0]]), OfRule(D3), OfFact(Ta), m)
      == KB([Fact(Sa, true, [], [Ta], [])], [Rule(R3.lhs, R3.rhs, true, [], [], [D3])])
  {
    var r := KB([Fact(Sa, true, [], [Ta], [])], [Rule(R3.lhs, R3.rhs, true, [], [], [D3])]);
    var kb3 := KB(Joined.facts[1..], [Joined.rules[0]]);
    assert FindFact(kb3.facts, Ta) == Some(1);
    TrimOne(m, Support(D3, Sa), OfRule(D3), true);
    var t := Joined.facts[2].(supportedBy := []);
    var kb4 := kb3.(facts := kb3.facts[1 := t]);
    assert Step(kb3, OfRule(D3), OfFact(Ta), m) == Retracted(kb4, OfFact(Ta), m);
    assert FindFact(kb4.facts, Ta) == Some(1);
    assert RemoveAt(kb4.facts, 1) == r.facts;
    assert Dependents([], []) == [];
    assert Retracted(kb4, OfFact(Ta), m) == Cascade(r, OfFact(Ta), [], m);
  }

}
