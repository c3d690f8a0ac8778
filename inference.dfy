/** Assertion and forward chaining as functions of the store:
    `KnowledgeBase.kb_add` / `kb_assert` and `InferenceEngine.fc_infer`.
    The two call each other without a general bound, so each carries a `Fuel`:
    how many nested derivations are still allowed. */
module Inference {
  import opened Logic
  import opened Items

  /** How many nested derivations may still run. */
  datatype Fuel = Out | More(next: Fuel)

  /** kb_add's merge into the stored equal of an incoming fact: its support pairs
      are appended in order, or, when it has none, the stored fact becomes asserted. */
  function MergeFact(stored: Fact, incoming: Fact): (r: Fact)
    ensures FactGrows(stored, r)
    ensures r.supportsFacts == stored.supportsFacts && r.supportsRules == stored.supportsRules
    ensures forall p :: p in r.supportedBy <==> p in stored.supportedBy || p in incoming.supportedBy
    ensures r.asserted <==> stored.asserted || incoming.supportedBy == []
  {
    if incoming.supportedBy != [] then stored.(supportedBy := stored.supportedBy + incoming.supportedBy)
    else stored.(asserted := true)
  }

  function MergeRule(stored: Rule, incoming: Rule): (r: Rule)
    ensures RuleGrows(stored, r)
    ensures r.supportsFacts == stored.supportsFacts && r.supportsRules == stored.supportsRules
    ensures forall p :: p in r.supportedBy <==> p in stored.supportedBy || p in incoming.supportedBy
    ensures r.asserted <==> stored.asserted || incoming.supportedBy == []
  {
    if incoming.supportedBy != [] then stored.(supportedBy := stored.supportedBy + incoming.supportedBy)
    else stored.(asserted := true)
  }

  /** The inference attempts a newly stored fact triggers: one per stored rule, in order. */
  function FactAgainstRules(s: Statement, rules: seq<Rule>): (r: seq<Support>)
    ensures |r| == |rules|
    ensures forall k :: 0 <= k < |rules| ==> r[k] == Support(rules[k].Key(), s)
  {
    seq(|rules|, k requires 0 <= k < |rules| => Support(rules[k].Key(), s))
  }

  /** The inference attempts a newly stored rule triggers: one per stored fact, in order. */
  function RuleAgainstFacts(k: RuleKey, facts: seq<Fact>): (r: seq<Support>)
    ensures |r| == |facts|
    ensures forall j :: 0 <= j < |facts| ==> r[j] == Support(k, facts[j].statement)
  {
    seq(|facts|, j requires 0 <= j < |facts| => Support(k, facts[j].statement))
  }

  /** Appends `s` to the `supports_facts` of the stored item equal to `owner`. */
  function AppendSupportsFact(kb: KB, owner: Key, s: Statement): (r: KB)
    ensures Extends(kb, r) && |r.facts| == |kb.facts| && |r.rules| == |kb.rules|
    ensures forall i :: 0 <= i < |kb.facts| ==>
      r.facts[i].asserted == kb.facts[i].asserted && r.facts[i].supportedBy == kb.facts[i].supportedBy
    ensures forall i :: 0 <= i < |kb.rules| ==>
      r.rules[i].asserted == kb.rules[i].asserted && r.rules[i].supportedBy == kb.rules[i].supportedBy
  {
    match owner
    case OfFact(t) =>
      (match FindFact(kb.facts, t)
       case None => kb
       case Some(i) => kb.(facts := kb.facts[i := kb.facts[i].(supportsFacts := kb.facts[i].supportsFacts + [s])]))
    case OfRule(k) =>
      (match FindRule(kb.rules, k)
       case None => kb
       case Some(i) => kb.(rules := kb.rules[i := kb.rules[i].(supportsFacts := kb.rules[i].supportsFacts + [s])]))
  }

  /** Appends `k` to the `supports_rules` of the stored item equal to `owner`. */
  function AppendSupportsRule(kb: KB, owner: Key, k: RuleKey): (r: KB)
    ensures Extends(kb, r) && |r.facts| == |kb.facts| && |r.rules| == |kb.rules|
    ensures forall i :: 0 <= i < |kb.facts| ==>
      r.facts[i].asserted == kb.facts[i].asserted && r.facts[i].supportedBy == kb.facts[i].supportedBy
    ensures forall i :: 0 <= i < |kb.rules| ==>
      r.rules[i].asserted == kb.rules[i].asserted && r.rules[i].supportedBy == kb.rules[i].supportedBy
  {
    match owner
    case OfFact(t) =>
      (match FindFact(kb.facts, t)
       case None => kb
       case Some(i) => kb.(facts := kb.facts[i := kb.facts[i].(supportsRules := kb.facts[i].supportsRules + [k])]))
    case OfRule(o) =>
      (match FindRule(kb.rules, o)
       case None => kb
       case Some(i) => kb.(rules := kb.rules[i := kb.rules[i].(supportsRules := kb.rules[i].supportsRules + [k])]))
  }

  /** `kb_add(item)`: merge into a stored equal, or append and run inference against
      every stored item of the other kind (`AddedKeeps` states what this keeps). */
  function Added(kb: KB, item: Item, fuel: Fuel, u: Unifier): (r: KB)
    decreases fuel, 2, 0
    ensures |kb.facts| <= |r.facts| && |kb.rules| <= |r.rules|
  {
    match item
    case FactItem(f) =>
      (match FindFact(kb.facts, f.statement)
       case None => InferEach(KB(kb.facts + [f], kb.rules), FactAgainstRules(f.statement, kb.rules), fuel, u)
       case Some(i) => kb.(facts := kb.facts[i := MergeFact(kb.facts[i], f)]))
    case RuleItem(rl) =>
      (match FindRule(kb.rules, rl.Key())
       case None => InferEach(KB(kb.facts, kb.rules + [rl]), RuleAgainstFacts(rl.Key(), kb.facts), fuel, u)
       case Some(i) => kb.(rules := kb.rules[i := MergeRule(kb.rules[i], rl)]))
  }

  /** `fc_infer` on each (rule, fact) attempt in turn. */
  function InferEach(kb: KB, attempts: seq<Support>, fuel: Fuel, u: Unifier): (r: KB)
    decreases fuel, 1, |attempts|
    ensures |kb.facts| <= |r.facts| && |kb.rules| <= |r.rules|
  {
    if attempts == [] then kb
    else InferEach(Inferred(kb, attempts[0].fact, attempts[0].rule, fuel, u), attempts[1..], fuel, u)
  }

  /** One turn of the loop: the attempts so far, then `p`. */
  lemma {:induction false} InferEachSnoc(kb: KB, attempts: seq<Support>, p: Support, fuel: Fuel, u: Unifier)
    decreases |attempts|
    ensures InferEach(kb, attempts + [p], fuel, u) == Inferred(InferEach(kb, attempts, fuel, u), p.fact, p.rule, fuel, u)
  {
    if attempts == [] {
      assert [] + [p] == [p];
      assert [p][1..] == [];
    } else {
      assert (attempts + [p])[0] == attempts[0] && (attempts + [p])[1..] == attempts[1..] + [p];
      InferEachSnoc(Inferred(kb, attempts[0].fact, attempts[0].rule, fuel, u), attempts[1..], p, fuel, u);
    }
  }

  /** `fc_infer(fact, rule, kb)`: one forward-chaining step. Unify the fact with the
      rule's first antecedent; on success assert the instantiated consequent (one
      antecedent) or the rule with the rest of its antecedents instantiated, supported
      by (rule, fact), and record it among the rule's and the fact's dependents.
      Outside the source's preconditions (stored fact and rule, a first antecedent),
      and once `fuel` is spent, nothing changes. */
  function Inferred(kb: KB, fact: Statement, rule: RuleKey, fuel: Fuel, u: Unifier): (r: KB)
    decreases fuel, 0, 1
    ensures |kb.facts| <= |r.facts| && |kb.rules| <= |r.rules|
  {
    if fuel.Out? || |rule.lhs| == 0 || !HasFact(kb, fact) || !HasRule(kb, rule) then kb
    else match u.unify(fact, rule.lhs[0])
      case None => kb
      case Some(b) => Derive(kb, fact, rule, b, fuel, u)
  }

  /** The successful half of `fc_infer`, once `fact` matched the first antecedent
      of `rule` with bindings `b`. */
  function Derive(kb: KB, fact: Statement, rule: RuleKey, b: Bindings, fuel: Fuel, u: Unifier): (r: KB)
    requires |rule.lhs| > 0 && fuel.More?
    decreases fuel, 0, 0
    ensures |kb.facts| <= |r.facts| && |kb.rules| <= |r.rules|
  {
    var item := u.instantiate(rule.rhs, b);
    var support := [Support(rule, fact)];
    if |rule.lhs| == 1 then
      var kb1 := Added(kb, FactItem(NewFact(item, support)), fuel.next, u);
      AppendSupportsFact(AppendSupportsFact(kb1, OfRule(rule), item), OfFact(fact), item)
    else
      var derived := RuleKey(InstantiateAll(u, rule.lhs[1..], b), item);
      var kb1 := Added(kb, RuleItem(NewRule(derived.lhs, derived.rhs, support)), fuel.next, u);
      AppendSupportsRule(AppendSupportsRule(kb1, OfRule(rule), derived), OfFact(fact), derived)
  }

  /** What assertion and inference keep of the store, whatever they derive. */
  ghost predicate Keeps(kb: KB, r: KB) {
    && Extends(kb, r)
    && (Unique(kb) ==> Unique(r))
    && (AllJustified(kb) ==> AllJustified(r))
    && (RulesHaveAntecedents(kb) ==> RulesHaveAntecedents(r))
  }

  /** An item `kb_add` can store without breaking the invariants: built by the
      constructors (so justified), and a rule with a first antecedent. */
  ghost predicate Admissible(item: Item) {
    item.Justified() && (item.RuleItem? ==> |item.rule.lhs| > 0)
  }

  lemma ExtendsTrans(a: KB, b: KB, c: KB)
    requires Extends(a, b) && Extends(b, c)
    ensures Extends(a, c)
  {
    forall i | 0 <= i < |a.facts| ensures FactGrows(a.facts[i], c.facts[i]) {
      assert FactGrows(b.facts[i], c.facts[i]);
    }
    forall i | 0 <= i < |a.rules| ensures RuleGrows(a.rules[i], c.rules[i]) {
      assert RuleGrows(b.rules[i], c.rules[i]);
    }
  }

  lemma KeepsRefl(kb: KB)
    ensures Keeps(kb, kb)
  {
  }

  lemma KeepsTrans(a: KB, b: KB, c: KB)
    requires Keeps(a, b) && Keeps(b, c)
    ensures Keeps(a, c)
  {
    ExtendsTrans(a, b, c);
  }

  /** Storing a new item at the end of its list, before inference runs. */
  lemma StoreKeeps(kb: KB, item: Item)
    requires !Has(kb, item.Key())
    ensures var r := if item.FactItem? then KB(kb.facts + [item.fact], kb.rules)
                     else KB(kb.facts, kb.rules + [item.rule]);
      && Extends(kb, r)
      && (Unique(kb) ==> Unique(r))
      && (AllJustified(kb) && item.Justified() ==> AllJustified(r))
      && (RulesHaveAntecedents(kb) && Admissible(item) ==> RulesHaveAntecedents(r))
  {
  }

  /** Merging into the stored equal at `i`. */
  lemma MergeKeeps(kb: KB, item: Item, i: nat)
    requires item.FactItem? ==> FindFact(kb.facts, item.fact.statement) == Some(i)
    requires item.RuleItem? ==> FindRule(kb.rules, item.rule.Key()) == Some(i)
    ensures var r := if item.FactItem? then kb.(facts := kb.facts[i := MergeFact(kb.facts[i], item.fact)])
                     else kb.(rules := kb.rules[i := MergeRule(kb.rules[i], item.rule)]);
      Keeps(kb, r)
  {
  }

  lemma AppendSupportsFactKeeps(kb: KB, owner: Key, s: Statement)
    ensures Keeps(kb, AppendSupportsFact(kb, owner, s))
  {
  }

  lemma AppendSupportsRuleKeeps(kb: KB, owner: Key, k: RuleKey)
    ensures Keeps(kb, AppendSupportsRule(kb, owner, k))
  {
  }

  /** `kb_add` keeps every stored item in place (only grown), never creates an equal
      duplicate, and keeps every item justified and every rule with a first antecedent. */
  lemma {:induction false} AddedKeeps(kb: KB, item: Item, fuel: Fuel, u: Unifier)
    decreases fuel, 3, 0
    ensures Extends(kb, Added(kb, item, fuel, u))
    ensures Unique(kb) ==> Unique(Added(kb, item, fuel, u))
    ensures AllJustified(kb) && item.Justified() ==> AllJustified(Added(kb, item, fuel, u))
    ensures RulesHaveAntecedents(kb) && Admissible(item) ==> RulesHaveAntecedents(Added(kb, item, fuel, u))
  {
    match item
    case FactItem(f) =>
      match FindFact(kb.facts, f.statement) {
        case None =>
          var kb' := KB(kb.facts + [f], kb.rules);
          StoreKeeps(kb, item);
          InferEachKeeps(kb', FactAgainstRules(f.statement, kb.rules), fuel, u);
          ExtendsTrans(kb, kb', Added(kb, item, fuel, u));
        case Some(i) =>
          MergeKeeps(kb, item, i);
      }
    case RuleItem(rl) =>
      match FindRule(kb.rules, rl.Key()) {
        case None =>
          var kb' := KB(kb.facts, kb.rules + [rl]);
          StoreKeeps(kb, item);
          InferEachKeeps(kb', RuleAgainstFacts(rl.Key(), kb.facts), fuel, u);
          ExtendsTrans(kb, kb', Added(kb, item, fuel, u));
        case Some(i) =>
          MergeKeeps(kb, item, i);
      }
  }

  lemma {:induction false} InferEachKeeps(kb: KB, attempts: seq<Support>, fuel: Fuel, u: Unifier)
    decreases fuel, 2, |attempts|
    ensures Keeps(kb, InferEach(kb, attempts, fuel, u))
  {
    if attempts != [] {
      var kb1 := Inferred(kb, attempts[0].fact, attempts[0].rule, fuel, u);
      InferredKeeps(kb, attempts[0].fact, attempts[0].rule, fuel, u);
      InferEachKeeps(kb1, attempts[1..], fuel, u);
      KeepsTrans(kb, kb1, InferEach(kb, attempts, fuel, u));
    }
  }

  /** One forward-chaining step keeps the store's invariants. */
  lemma {:induction false} InferredKeeps(kb: KB, fact: Statement, rule: RuleKey, fuel: Fuel, u: Unifier)
    decreases fuel, 1, 2
    ensures Keeps(kb, Inferred(kb, fact, rule, fuel, u))
  {
    if fuel.More? && |rule.lhs| > 0 && HasFact(kb, fact) && HasRule(kb, rule) && u.unify(fact, rule.lhs[0]).Some? {
      MatchKeeps(kb, fact, rule, fuel, u);
    } else {
      InferredFails(kb, fact, rule, fuel, u);
      KeepsRefl(kb);
    }
  }

  lemma {:induction false} MatchKeeps(kb: KB, fact: Statement, rule: RuleKey, fuel: Fuel, u: Unifier)
    requires fuel.More? && |rule.lhs| > 0 && HasFact(kb, fact) && HasRule(kb, rule)
    requires u.unify(fact, rule.lhs[0]).Some?
    decreases fuel, 1, 1
    ensures Keeps(kb, Inferred(kb, fact, rule, fuel, u))
  {
    var b := u.unify(fact, rule.lhs[0]).value;
    assert Inferred(kb, fact, rule, fuel, u) == Derive(kb, fact, rule, b, fuel, u);
    DeriveKeeps(kb, fact, rule, b, fuel, u);
  }

  /** `fc_infer` changes nothing when the fact does not match the rule's first antecedent. */
  lemma InferredFails(kb: KB, fact: Statement, rule: RuleKey, fuel: Fuel, u: Unifier)
    requires !(fuel.More? && |rule.lhs| > 0 && HasFact(kb, fact) && HasRule(kb, rule) && u.unify(fact, rule.lhs[0]).Some?)
    ensures Inferred(kb, fact, rule, fuel, u) == kb
  {
  }

  /** What a derivation asserts is supported (so justified), and a derived rule
      keeps a first antecedent. */
  lemma {:induction false} DeriveKeeps(kb: KB, fact: Statement, rule: RuleKey, b: Bindings, fuel: Fuel, u: Unifier)
    requires |rule.lhs| > 0 && fuel.More?
    decreases fuel, 1, 0
    ensures Keeps(kb, Derive(kb, fact, rule, b, fuel, u))
  {
    var item := u.instantiate(rule.rhs, b);
    var f := fuel.next;
    if |rule.lhs| == 1 {
      var r := AppendSupportsFact(AppendSupportsFact(
        Added(kb, FactItem(NewFact(item, [Support(rule, fact)])), f, u), OfRule(rule), item), OfFact(fact), item);
      assert Derive(kb, fact, rule, b, fuel, u) == r;
      DerivedFactKeeps(kb, fact, rule, item, f, u);
      assert Keeps(kb, r);
    } else {
      var key := RuleKey(InstantiateAll(u, rule.lhs[1..], b), item);
      var r := AppendSupportsRule(AppendSupportsRule(
        Added(kb, RuleItem(NewRule(key.lhs, key.rhs, [Support(rule, fact)])), f, u), OfRule(rule), key), OfFact(fact), key);
      assert Derive(kb, fact, rule, b, fuel, u) == r;
      DerivedRuleKeeps(kb, fact, rule, key, f, u);
      assert Keeps(kb, r);
    }
  }

  lemma {:induction false} DerivedFactKeeps(kb: KB, fact: Statement, rule: RuleKey, item: Statement, fuel: Fuel, u: Unifier)
    decreases fuel, 4, 0
    ensures Keeps(kb, AppendSupportsFact(AppendSupportsFact(
      Added(kb, FactItem(NewFact(item, [Support(rule, fact)])), fuel, u), OfRule(rule), item), OfFact(fact), item))
  {
    var derived := FactItem(NewFact(item, [Support(rule, fact)]));
    var kb1 := Added(kb, derived, fuel, u);
    AddedKeeps(kb, derived, fuel, u);
    var kb2 := AppendSupportsFact(kb1, OfRule(rule), item);
    AppendSupportsFactKeeps(kb1, OfRule(rule), item);
    AppendSupportsFactKeeps(kb2, OfFact(fact), item);
    KeepsTrans(kb, kb1, kb2);
    KeepsTrans(kb, kb2, AppendSupportsFact(kb2, OfFact(fact), item));
  }

  lemma {:induction false} DerivedRuleKeeps(kb: KB, fact: Statement, rule: RuleKey, key: RuleKey, fuel: Fuel, u: Unifier)
    requires |key.lhs| > 0
    decreases fuel, 4, 0
    ensures Keeps(kb, AppendSupportsRule(AppendSupportsRule(
      Added(kb, RuleItem(NewRule(key.lhs, key.rhs, [Support(rule, fact)])), fuel, u), OfRule(rule), key), OfFact(fact), key))
  {
    var derived := RuleItem(NewRule(key.lhs, key.rhs, [Support(rule, fact)]));
    assert Admissible(derived);
    var kb1 := Added(kb, derived, fuel, u);
    AddedKeeps(kb, derived, fuel, u);
    var kb2 := AppendSupportsRule(kb1, OfRule(rule), key);
    AppendSupportsRuleKeeps(kb1, OfRule(rule), key);
    AppendSupportsRuleKeeps(kb2, OfFact(fact), key);
    KeepsTrans(kb, kb1, kb2);
    KeepsTrans(kb, kb2, AppendSupportsRule(kb2, OfFact(fact), key));
  }

  // ---------------------------------------------------------------------------
  // What kb_add and fc_infer promise

  /** `kb_add` of a fact equal to a stored one adds no entry: only the stored fact
      changes, gaining the incoming support pairs in order, or, when there are
      none, becoming asserted. */
  lemma AddedMergesFact(kb: KB, f: Fact, fuel: Fuel, u: Unifier)
    requires HasFact(kb, f.statement)
    ensures var r := Added(kb, FactItem(f), fuel, u);
      var i := FindFact(kb.facts, f.statement).value;
      && |r.facts| == |kb.facts| && r.rules == kb.rules
      && (forall j :: 0 <= j < |kb.facts| && j != i ==> r.facts[j] == kb.facts[j])
      && r.facts[i].statement == kb.facts[i].statement
      && r.facts[i].supportedBy == kb.facts[i].supportedBy + f.supportedBy
      && r.facts[i].asserted == (kb.facts[i].asserted || f.supportedBy == [])
      && r.facts[i].supportsFacts == kb.facts[i].supportsFacts
      && r.facts[i].supportsRules == kb.facts[i].supportsRules
  {
  }

  /** The same for a rule equal to a stored one. */
  lemma AddedMergesRule(kb: KB, rl: Rule, fuel: Fuel, u: Unifier)
    requires HasRule(kb, rl.Key())
    ensures var r := Added(kb, RuleItem(rl), fuel, u);
      var i := FindRule(kb.rules, rl.Key()).value;
      && |r.rules| == |kb.rules| && r.facts == kb.facts
      && (forall j :: 0 <= j < |kb.rules| && j != i ==> r.rules[j] == kb.rules[j])
      && r.rules[i].Key() == kb.rules[i].Key()
      && r.rules[i].supportedBy == kb.rules[i].supportedBy + rl.supportedBy
      && r.rules[i].asserted == (kb.rules[i].asserted || rl.supportedBy == [])
      && r.rules[i].supportsFacts == kb.rules[i].supportsFacts
      && r.rules[i].supportsRules == kb.rules[i].supportsRules
  {
  }

  /** `kb_add` of a fact not yet stored appends it at the end of the fact list
      (later inference may only grow it) and leaves every stored rule in place. */
  lemma AddedAppendsFact(kb: KB, f: Fact, fuel: Fuel, u: Unifier)
    requires !HasFact(kb, f.statement)
    ensures var r := Added(kb, FactItem(f), fuel, u);
      && FindFact(r.facts, f.statement) == Some(|kb.facts|)
      && FactGrows(f, StoredFact(r, f.statement))
      && |r.rules| >= |kb.rules|
  {
    var kb' := KB(kb.facts + [f], kb.rules);
    var r := Added(kb, FactItem(f), fuel, u);
    assert r == InferEach(kb', FactAgainstRules(f.statement, kb.rules), fuel, u);
    InferEachKeeps(kb', FactAgainstRules(f.statement, kb.rules), fuel, u);
    FindFactAppended(kb.facts, f);
    ExtendsStoredFact(kb', r, f.statement);
  }

  /** `kb_add` of a rule not yet stored appends it at the end of the rule list. */
  lemma AddedAppendsRule(kb: KB, rl: Rule, fuel: Fuel, u: Unifier)
    requires !HasRule(kb, rl.Key())
    ensures var r := Added(kb, RuleItem(rl), fuel, u);
      && FindRule(r.rules, rl.Key()) == Some(|kb.rules|)
      && RuleGrows(rl, StoredRule(r, rl.Key()))
      && |r.facts| >= |kb.facts|
  {
    var kb' := KB(kb.facts, kb.rules + [rl]);
    var r := Added(kb, RuleItem(rl), fuel, u);
    assert r == InferEach(kb', RuleAgainstFacts(rl.Key(), kb.facts), fuel, u);
    InferEachKeeps(kb', RuleAgainstFacts(rl.Key(), kb.facts), fuel, u);
    FindRuleAppended(kb.rules, rl);
    ExtendsStoredRule(kb', r, rl.Key());
  }

  /** After `kb_add`, the item is stored and carries every support pair it came with. */
  lemma AddedStores(kb: KB, item: Item, fuel: Fuel, u: Unifier)
    ensures var r := Added(kb, item, fuel, u);
      && Has(r, item.Key())
      && (item.FactItem? ==> forall p :: p in item.fact.supportedBy ==> p in StoredFact(r, item.fact.statement).supportedBy)
      && (item.RuleItem? ==> forall p :: p in item.rule.supportedBy ==> p in StoredRule(r, item.rule.Key()).supportedBy)
  {
    match item {
      case FactItem(f) =>
        if HasFact(kb, f.statement) { AddedMergesFact(kb, f, fuel, u); } else { AddedAppendsFact(kb, f, fuel, u); }
      case RuleItem(rl) =>
        if HasRule(kb, rl.Key()) { AddedMergesRule(kb, rl, fuel, u); } else { AddedAppendsRule(kb, rl, fuel, u); }
    }
  }

  /** Asserting the same unsupported fact twice: the second call changes nothing. */
  lemma AssertFactTwice(kb: KB, f: Fact, fuel: Fuel, u: Unifier)
    requires f.supportedBy == [] && f.asserted
    ensures Added(Added(kb, FactItem(f), fuel, u), FactItem(f), fuel, u) == Added(kb, FactItem(f), fuel, u)
  {
    var r := Added(kb, FactItem(f), fuel, u);
    if HasFact(kb, f.statement) {
      AddedMergesFact(kb, f, fuel, u);
    } else {
      AddedAppendsFact(kb, f, fuel, u);
    }
    AddedMergesFact(r, f, fuel, u);
    var i := FindFact(r.facts, f.statement).value;
    assert r.facts[i].asserted;
    assert Added(r, FactItem(f), fuel, u).facts == r.facts;
  }

  /** Asserting the same unsupported rule twice: the second call changes nothing. */
  lemma AssertRuleTwice(kb: KB, rl: Rule, fuel: Fuel, u: Unifier)
    requires rl.supportedBy == [] && rl.asserted
    ensures Added(Added(kb, RuleItem(rl), fuel, u), RuleItem(rl), fuel, u) == Added(kb, RuleItem(rl), fuel, u)
  {
    var r := Added(kb, RuleItem(rl), fuel, u);
    if HasRule(kb, rl.Key()) {
      AddedMergesRule(kb, rl, fuel, u);
    } else {
      AddedAppendsRule(kb, rl, fuel, u);
    }
    AddedMergesRule(r, rl, fuel, u);
    var i := FindRule(r.rules, rl.Key()).value;
    assert r.rules[i].asserted;
    assert Added(r, RuleItem(rl), fuel, u).rules == r.rules;
  }

  /** Recording a derived fact among the dependents of the rule and the fact that produced it. */
  lemma RecordFactDependent(kb: KB, fact: Statement, rule: RuleKey, s: Statement)
    requires HasFact(kb, fact) && HasRule(kb, rule) && HasFact(kb, s)
    ensures var r := AppendSupportsFact(AppendSupportsFact(kb, OfRule(rule), s), OfFact(fact), s);
      && HasFact(r, s) && StoredFact(r, s).supportedBy == StoredFact(kb, s).supportedBy
      && HasRule(r, rule) && StoredRule(r, rule).supportsFacts == StoredRule(kb, rule).supportsFacts + [s]
      && HasFact(r, fact) && StoredFact(r, fact).supportsFacts == StoredFact(kb, fact).supportsFacts + [s]
  {
    var kb2 := AppendSupportsFact(kb, OfRule(rule), s);
    var r := AppendSupportsFact(kb2, OfFact(fact), s);
    ExtendsStored(kb, kb2);
    ExtendsStored(kb2, r);
  }

  /** Recording a derived rule among the dependents of the rule and the fact that produced it. */
  lemma RecordRuleDependent(kb: KB, fact: Statement, rule: RuleKey, k: RuleKey)
    requires HasFact(kb, fact) && HasRule(kb, rule) && HasRule(kb, k)
    ensures var r := AppendSupportsRule(AppendSupportsRule(kb, OfRule(rule), k), OfFact(fact), k);
      && HasRule(r, k) && StoredRule(r, k).supportedBy == StoredRule(kb, k).supportedBy
      && HasRule(r, rule) && StoredRule(r, rule).supportsRules == StoredRule(kb, rule).supportsRules + [k]
      && HasFact(r, fact) && StoredFact(r, fact).supportsRules == StoredFact(kb, fact).supportsRules + [k]
  {
    var kb2 := AppendSupportsRule(kb, OfRule(rule), k);
    var r := AppendSupportsRule(kb2, OfFact(fact), k);
    ExtendsStored(kb, kb2);
    ExtendsStored(kb2, r);
  }

  /** What `fc_infer` promises about a derived fact `s` produced by `rule` and `fact`:
      `s` is stored and supported by (rule, fact), and `s` was appended to the
      `supports_facts` of both the rule and the fact. */
  ghost predicate RecordsFact(kb: KB, r: KB, fact: Statement, rule: RuleKey, s: Statement)
    requires HasFact(kb, fact) && HasRule(kb, rule)
  {
    && HasFact(r, s) && Support(rule, fact) in StoredFact(r, s).supportedBy
    && HasRule(r, rule) && HasFact(r, fact)
    && StoredRule(kb, rule).supportsFacts < StoredRule(r, rule).supportsFacts
    && Last(StoredRule(r, rule).supportsFacts) == s
    && StoredFact(kb, fact).supportsFacts < StoredFact(r, fact).supportsFacts
    && Last(StoredFact(r, fact).supportsFacts) == s
  }

  /** The same for a derived rule `k`, with `supports_rules`. */
  ghost predicate RecordsRule(kb: KB, r: KB, fact: Statement, rule: RuleKey, k: RuleKey)
    requires HasFact(kb, fact) && HasRule(kb, rule)
  {
    && HasRule(r, k) && Support(rule, fact) in StoredRule(r, k).supportedBy
    && HasRule(r, rule) && HasFact(r, fact)
    && StoredRule(kb, rule).supportsRules < StoredRule(r, rule).supportsRules
    && Last(StoredRule(r, rule).supportsRules) == k
    && StoredFact(kb, fact).supportsRules < StoredFact(r, fact).supportsRules
    && Last(StoredFact(r, fact).supportsRules) == k
  }

  /** Recording a derived fact, already stored with its support pair in an extension
      `kb1` of `kb`, among the dependents of the rule and the fact that produced it. */
  lemma RecordFactAfter(kb: KB, kb1: KB, fact: Statement, rule: RuleKey, s: Statement)
    requires HasFact(kb, fact) && HasRule(kb, rule) && Extends(kb, kb1)
    requires HasFact(kb1, s) && Support(rule, fact) in StoredFact(kb1, s).supportedBy
    ensures RecordsFact(kb, AppendSupportsFact(AppendSupportsFact(kb1, OfRule(rule), s), OfFact(fact), s), fact, rule, s)
  {
    ExtendsStoredRule(kb, kb1, rule);
    ExtendsStoredFact(kb, kb1, fact);
    RecordFactDependent(kb1, fact, rule, s);
  }

  lemma RecordRuleAfter(kb: KB, kb1: KB, fact: Statement, rule: RuleKey, k: RuleKey)
    requires HasFact(kb, fact) && HasRule(kb, rule) && Extends(kb, kb1)
    requires HasRule(kb1, k) && Support(rule, fact) in StoredRule(kb1, k).supportedBy
    ensures RecordsRule(kb, AppendSupportsRule(AppendSupportsRule(kb1, OfRule(rule), k), OfFact(fact), k), fact, rule, k)
  {
    ExtendsStoredRule(kb, kb1, rule);
    ExtendsStoredFact(kb, kb1, fact);
    RecordRuleDependent(kb1, fact, rule, k);
  }

  lemma {:induction false} DerivedFactRecorded(kb: KB, fact: Statement, rule: RuleKey, s: Statement, fuel: Fuel, u: Unifier)
    requires HasFact(kb, fact) && HasRule(kb, rule)
    ensures RecordsFact(kb, AppendSupportsFact(AppendSupportsFact(
      Added(kb, FactItem(NewFact(s, [Support(rule, fact)])), fuel, u), OfRule(rule), s), OfFact(fact), s), fact, rule, s)
  {
    var derived := FactItem(NewFact(s, [Support(rule, fact)]));
    AddedStores(kb, derived, fuel, u);
    AddedKeeps(kb, derived, fuel, u);
    RecordFactAfter(kb, Added(kb, derived, fuel, u), fact, rule, s);
  }

  lemma {:induction false} DerivedRuleRecorded(kb: KB, fact: Statement, rule: RuleKey, k: RuleKey, fuel: Fuel, u: Unifier)
    requires HasFact(kb, fact) && HasRule(kb, rule)
    ensures RecordsRule(kb, AppendSupportsRule(AppendSupportsRule(
      Added(kb, RuleItem(NewRule(k.lhs, k.rhs, [Support(rule, fact)])), fuel, u), OfRule(rule), k), OfFact(fact), k), fact, rule, k)
  {
    var derived := RuleItem(NewRule(k.lhs, k.rhs, [Support(rule, fact)]));
    assert derived.rule.Key() == k;
    AddedStores(kb, derived, fuel, u);
    AddedKeeps(kb, derived, fuel, u);
    RecordRuleAfter(kb, Added(kb, derived, fuel, u), fact, rule, k);
  }

  /** `fc_infer` with a one-antecedent rule whose antecedent matches the fact with
      bindings `b`: the instantiated consequent is stored, supported by (rule, fact),
      and appended to both the rule's and the fact's `supports_facts`. */
  lemma {:induction false} InferredDerivesFact(kb: KB, fact: Statement, rule: RuleKey, b: Bindings, fuel: Fuel, u: Unifier)
    requires fuel.More? && |rule.lhs| == 1 && HasFact(kb, fact) && HasRule(kb, rule)
    requires u.unify(fact, rule.lhs[0]) == Some(b)
    ensures RecordsFact(kb, Inferred(kb, fact, rule, fuel, u), fact, rule, u.instantiate(rule.rhs, b))
  {
    var s := u.instantiate(rule.rhs, b);
    var f := fuel.next;
    InferredAsFact(kb, fact, rule, b, fuel, f, u);
    DerivedFactRecorded(kb, fact, rule, s, f, u);
  }

  /** `fc_infer` with a rule of several antecedents whose first matches the fact with
      bindings `b`: the rule made of the remaining antecedents and the consequent,
      instantiated (so one antecedent shorter), is stored, supported by (rule, fact),
      and appended to both the rule's and the fact's `supports_rules`. */
  lemma {:induction false} InferredDerivesRule(kb: KB, fact: Statement, rule: RuleKey, b: Bindings, fuel: Fuel, u: Unifier)
    requires fuel.More? && |rule.lhs| > 1 && HasFact(kb, fact) && HasRule(kb, rule)
    requires u.unify(fact, rule.lhs[0]) == Some(b)
    ensures |InstantiateAll(u, rule.lhs[1..], b)| == |rule.lhs| - 1
    ensures RecordsRule(kb, Inferred(kb, fact, rule, fuel, u), fact, rule,
      RuleKey(InstantiateAll(u, rule.lhs[1..], b), u.instantiate(rule.rhs, b)))
  {
    var s := u.instantiate(rule.rhs, b);
    var k := RuleKey(InstantiateAll(u, rule.lhs[1..], b), s);
    var f := fuel.next;
    InferredAsRule(kb, fact, rule, b, fuel, f, u);
    DerivedRuleRecorded(kb, fact, rule, k, f, u);
  }

  /** The result of `fc_infer` in the one-antecedent case, spelt out with `f`,
      the fuel left for the assertion of the derived fact. */
  lemma {:induction false} InferredAsFact(kb: KB, fact: Statement, rule: RuleKey, b: Bindings, fuel: Fuel, f: Fuel, u: Unifier)
    requires fuel == More(f) && |rule.lhs| == 1 && HasFact(kb, fact) && HasRule(kb, rule)
    requires u.unify(fact, rule.lhs[0]) == Some(b)
    ensures var s := u.instantiate(rule.rhs, b);
      Inferred(kb, fact, rule, fuel, u) == AppendSupportsFact(AppendSupportsFact(
        Added(kb, FactItem(NewFact(s, [Support(rule, fact)])), f, u), OfRule(rule), s), OfFact(fact), s)
  {
    assert Inferred(kb, fact, rule, fuel, u) == Derive(kb, fact, rule, b, fuel, u);
  }

  /** The result of `fc_infer` in the several-antecedent case, spelt out the same way. */
  lemma {:induction false} InferredAsRule(kb: KB, fact: Statement, rule: RuleKey, b: Bindings, fuel: Fuel, f: Fuel, u: Unifier)
    requires fuel == More(f) && |rule.lhs| > 1 && HasFact(kb, fact) && HasRule(kb, rule)
    requires u.unify(fact, rule.lhs[0]) == Some(b)
    ensures var k := RuleKey(InstantiateAll(u, rule.lhs[1..], b), u.instantiate(rule.rhs, b));
      Inferred(kb, fact, rule, fuel, u) == AppendSupportsRule(AppendSupportsRule(
        Added(kb, RuleItem(NewRule(k.lhs, k.rhs, [Support(rule, fact)])), f, u), OfRule(rule), k), OfFact(fact), k)
  {
    assert Inferred(kb, fact, rule, fuel, u) == Derive(kb, fact, rule, b, fuel, u);
  }

  // ---------------------------------------------------------------------------
  // Every support pair is recorded by the rule and the fact it names

  /** `r` is `kb` with the pairs of `key` perhaps grown by `pending` ones, the pairs
      of every other item as they were, and every recorded dependent still recorded. */
  ghost predicate GrowsAt(kb: KB, r: KB, key: Key, pending: set<(Key, Support)>) {
    && (forall y :: y != key ==> PairsOf(r, y) == PairsOf(kb, y))
    && (forall p :: p in PairsOf(r, key) ==> p in PairsOf(kb, key) || (key, p) in pending)
    && (forall z, y :: Records(kb, z, y) ==> Records(r, z, y))
  }

  lemma GrowsAtLinks(kb: KB, r: KB, key: Key, added: set<(Key, Support)>, pending: set<(Key, Support)>)
    requires GrowsAt(kb, r, key, added) && added <= pending && LinkedBut(kb, pending)
    ensures LinkedBut(r, pending)
  {
    forall y, p | p in PairsOf(r, y) && (y, p) !in pending
      ensures Records(r, OfRule(p.rule), y) && Records(r, OfFact(p.fact), y)
    {
      assert p in PairsOf(kb, y);
    }
  }

  /** Replacing the view's entry for `t` by `g`, which keeps the pairs and the
      dependents of the entry it replaces and adds only `pending` pairs. */
  lemma FactSwapGrows(kb: KB, r: KB, t: Statement, g: Fact, pending: set<(Key, Support)>)
    requires r.rules == kb.rules && FactView(r.facts) == FactView(kb.facts)[t := g]
    requires t in FactView(kb.facts) ==>
      && FactView(kb.facts)[t].supportsFacts <= g.supportsFacts
      && FactView(kb.facts)[t].supportsRules <= g.supportsRules
    requires forall p :: p in g.supportedBy ==>
      (t in FactView(kb.facts) && p in FactView(kb.facts)[t].supportedBy) || (OfFact(t), p) in pending
    ensures GrowsAt(kb, r, OfFact(t), pending)
  {
    forall z, y | Records(kb, z, y) ensures Records(r, z, y) {
      if z == OfFact(t) {
        assert t in FactView(kb.facts);
      }
    }
  }

  lemma RuleSwapGrows(kb: KB, r: KB, k: RuleKey, g: Rule, pending: set<(Key, Support)>)
    requires r.facts == kb.facts && RuleView(r.rules) == RuleView(kb.rules)[k := g]
    requires k in RuleView(kb.rules) ==>
      && RuleView(kb.rules)[k].supportsFacts <= g.supportsFacts
      && RuleView(kb.rules)[k].supportsRules <= g.supportsRules
    requires forall p :: p in g.supportedBy ==>
      (k in RuleView(kb.rules) && p in RuleView(kb.rules)[k].supportedBy) || (OfRule(k), p) in pending
    ensures GrowsAt(kb, r, OfRule(k), pending)
  {
    forall z, y | Records(kb, z, y) ensures Records(r, z, y) {
      if z == OfRule(k) {
        assert k in RuleView(kb.rules);
      }
    }
  }

  /** Appending to the dependents of `owner` changes no pair and records `s`. */
  lemma AppendSupportsFactGrows(kb: KB, owner: Key, s: Statement)
    ensures GrowsAt(kb, AppendSupportsFact(kb, owner, s), owner, {})
    ensures Has(kb, owner) ==> Records(AppendSupportsFact(kb, owner, s), owner, OfFact(s))
  {
    match owner {
      case OfFact(t) =>
        FactViewFind(kb.facts, t);
        if FindFact(kb.facts, t).Some? {
          var i := FindFact(kb.facts, t).value;
          var g := kb.facts[i].(supportsFacts := kb.facts[i].supportsFacts + [s]);
          FactViewUpdate(kb.facts, i, g);
          FactSwapGrows(kb, AppendSupportsFact(kb, owner, s), t, g, {});
        }
      case OfRule(k) =>
        RuleViewFind(kb.rules, k);
        if FindRule(kb.rules, k).Some? {
          var i := FindRule(kb.rules, k).value;
          var g := kb.rules[i].(supportsFacts := kb.rules[i].supportsFacts + [s]);
          RuleViewUpdate(kb.rules, i, g);
          RuleSwapGrows(kb, AppendSupportsFact(kb, owner, s), k, g, {});
        }
    }
  }

  lemma AppendSupportsRuleGrows(kb: KB, owner: Key, k: RuleKey)
    ensures GrowsAt(kb, AppendSupportsRule(kb, owner, k), owner, {})
    ensures Has(kb, owner) ==> Records(AppendSupportsRule(kb, owner, k), owner, OfRule(k))
  {
    match owner {
      case OfFact(t) =>
        FactViewFind(kb.facts, t);
        if FindFact(kb.facts, t).Some? {
          var i := FindFact(kb.facts, t).value;
          var g := kb.facts[i].(supportsRules := kb.facts[i].supportsRules + [k]);
          FactViewUpdate(kb.facts, i, g);
          FactSwapGrows(kb, AppendSupportsRule(kb, owner, k), t, g, {});
        }
      case OfRule(o) =>
        RuleViewFind(kb.rules, o);
        if FindRule(kb.rules, o).Some? {
          var i := FindRule(kb.rules, o).value;
          var g := kb.rules[i].(supportsRules := kb.rules[i].supportsRules + [k]);
          RuleViewUpdate(kb.rules, i, g);
          RuleSwapGrows(kb, AppendSupportsRule(kb, owner, k), o, g, {});
        }
    }
  }

  /** Storing `item` or merging it into its stored equal grows only its own pairs,
      by the pairs it comes with. */
  lemma StoreGrows(kb: KB, item: Item)
    ensures var r := match item
        case FactItem(f) =>
          (match FindFact(kb.facts, f.statement)
           case None => KB(kb.facts + [f], kb.rules)
           case Some(i) => kb.(facts := kb.facts[i := MergeFact(kb.facts[i], f)]))
        case RuleItem(rl) =>
          (match FindRule(kb.rules, rl.Key())
           case None => KB(kb.facts, kb.rules + [rl])
           case Some(i) => kb.(rules := kb.rules[i := MergeRule(kb.rules[i], rl)]));
      var pairs := if item.FactItem? then item.fact.supportedBy else item.rule.supportedBy;
      GrowsAt(kb, r, item.Key(), set p | p in pairs :: (item.Key(), p))
  {
    match item {
      case FactItem(f) =>
        var pend := set p | p in f.supportedBy :: (item.Key(), p);
        FactViewFind(kb.facts, f.statement);
        if FindFact(kb.facts, f.statement).Some? {
          var i := FindFact(kb.facts, f.statement).value;
          var g := MergeFact(kb.facts[i], f);
          FactViewUpdate(kb.facts, i, g);
          FactSwapGrows(kb, kb.(facts := kb.facts[i := g]), f.statement, g, pend);
        } else {
          FactViewSnoc(kb.facts, f);
          FactSwapGrows(kb, KB(kb.facts + [f], kb.rules), f.statement, f, pend);
        }
      case RuleItem(rl) =>
        var pend := set p | p in rl.supportedBy :: (item.Key(), p);
        RuleViewFind(kb.rules, rl.Key());
        if FindRule(kb.rules, rl.Key()).Some? {
          var i := FindRule(kb.rules, rl.Key()).value;
          var g := MergeRule(kb.rules[i], rl);
          RuleViewUpdate(kb.rules, i, g);
          RuleSwapGrows(kb, kb.(rules := kb.rules[i := g]), rl.Key(), g, pend);
        } else {
          RuleViewSnoc(kb.rules, rl);
          RuleSwapGrows(kb, KB(kb.facts, kb.rules + [rl]), rl.Key(), rl, pend);
        }
    }
  }

  /** `kb_add` of an item whose own support pairs are still `pending`: every other
      pair stays recorded by the rule and the fact it names, through whatever the
      inference it triggers derives. */
  lemma {:induction false} AddedLinks(kb: KB, item: Item, fuel: Fuel, u: Unifier, pending: set<(Key, Support)>)
    requires item.FactItem? ==> forall p :: p in item.fact.supportedBy ==> (item.Key(), p) in pending
    requires item.RuleItem? ==> forall p :: p in item.rule.supportedBy ==> (item.Key(), p) in pending
    requires LinkedBut(kb, pending)
    decreases fuel, 3, 0
    ensures LinkedBut(Added(kb, item, fuel, u), pending)
  {
    var pairs := if item.FactItem? then item.fact.supportedBy else item.rule.supportedBy;
    var added := set p | p in pairs :: (item.Key(), p);
    StoreGrows(kb, item);
    match item {
      case FactItem(f) =>
        match FindFact(kb.facts, f.statement) {
          case None =>
            var kb' := KB(kb.facts + [f], kb.rules);
            GrowsAtLinks(kb, kb', item.Key(), added, pending);
            InferEachLinks(kb', FactAgainstRules(f.statement, kb.rules), fuel, u, pending);
          case Some(i) =>
            GrowsAtLinks(kb, kb.(facts := kb.facts[i := MergeFact(kb.facts[i], f)]), item.Key(), added, pending);
        }
      case RuleItem(rl) =>
        match FindRule(kb.rules, rl.Key()) {
          case None =>
            var kb' := KB(kb.facts, kb.rules + [rl]);
            GrowsAtLinks(kb, kb', item.Key(), added, pending);
            InferEachLinks(kb', RuleAgainstFacts(rl.Key(), kb.facts), fuel, u, pending);
          case Some(i) =>
            GrowsAtLinks(kb, kb.(rules := kb.rules[i := MergeRule(kb.rules[i], rl)]), item.Key(), added, pending);
        }
    }
  }

  lemma {:induction false} InferEachLinks(kb: KB, attempts: seq<Support>, fuel: Fuel, u: Unifier, pending: set<(Key, Support)>)
    requires LinkedBut(kb, pending)
    decreases fuel, 2, |attempts|
    ensures LinkedBut(InferEach(kb, attempts, fuel, u), pending)
  {
    if attempts != [] {
      var kb1 := Inferred(kb, attempts[0].fact, attempts[0].rule, fuel, u);
      InferredLinks(kb, attempts[0].fact, attempts[0].rule, fuel, u, pending);
      InferEachLinks(kb1, attempts[1..], fuel, u, pending);
    }
  }

  /** One forward-chaining step leaves every pair that was linked linked, and links
      the pair it gives the item it derives. */
  lemma {:induction false} InferredLinks(kb: KB, fact: Statement, rule: RuleKey, fuel: Fuel, u: Unifier, pending: set<(Key, Support)>)
    requires LinkedBut(kb, pending)
    decreases fuel, 1, 2
    ensures LinkedBut(Inferred(kb, fact, rule, fuel, u), pending)
  {
    if fuel.More? && |rule.lhs| > 0 && HasFact(kb, fact) && HasRule(kb, rule) && u.unify(fact, rule.lhs[0]).Some? {
      var b := u.unify(fact, rule.lhs[0]).value;
      var s := u.instantiate(rule.rhs, b);
      if |rule.lhs| == 1 {
        InferredAsFact(kb, fact, rule, b, fuel, fuel.next, u);
        DerivedFactLinks(kb, fact, rule, s, fuel.next, u, pending);
      } else {
        var k := RuleKey(InstantiateAll(u, rule.lhs[1..], b), s);
        InferredAsRule(kb, fact, rule, b, fuel, fuel.next, u);
        DerivedRuleLinks(kb, fact, rule, k, fuel.next, u, pending);
      }
    } else {
      InferredFails(kb, fact, rule, fuel, u);
    }
  }

  lemma {:induction false} DerivedFactLinks(kb: KB, fact: Statement, rule: RuleKey, s: Statement, fuel: Fuel, u: Unifier, pending: set<(Key, Support)>)
    requires HasFact(kb, fact) && HasRule(kb, rule) && LinkedBut(kb, pending)
    decreases fuel, 4, 0
    ensures LinkedBut(AppendSupportsFact(AppendSupportsFact(
      Added(kb, FactItem(NewFact(s, [Support(rule, fact)])), fuel, u), OfRule(rule), s), OfFact(fact), s), pending)
  {
    var p := Support(rule, fact);
    var derived := FactItem(NewFact(s, [p]));
    var kb1 := Added(kb, derived, fuel, u);
    AddedLinks(kb, derived, fuel, u, pending + {(OfFact(s), p)});
    AddedKeeps(kb, derived, fuel, u);
    ExtendsStoredRule(kb, kb1, rule);
    ExtendsStoredFact(kb, kb1, fact);
    var kb2 := AppendSupportsFact(kb1, OfRule(rule), s);
    AppendSupportsFactGrows(kb1, OfRule(rule), s);
    AppendSupportsFactKeeps(kb1, OfRule(rule), s);
    ExtendsStoredFact(kb1, kb2, fact);
    AppendSupportsFactGrows(kb2, OfFact(fact), s);
    RecordedLinks(kb1, kb2, AppendSupportsFact(kb2, OfFact(fact), s), OfRule(rule), OfFact(fact), OfFact(s), p, pending);
  }

  lemma {:induction false} DerivedRuleLinks(kb: KB, fact: Statement, rule: RuleKey, k: RuleKey, fuel: Fuel, u: Unifier, pending: set<(Key, Support)>)
    requires HasFact(kb, fact) && HasRule(kb, rule) && LinkedBut(kb, pending)
    decreases fuel, 4, 0
    ensures LinkedBut(AppendSupportsRule(AppendSupportsRule(
      Added(kb, RuleItem(NewRule(k.lhs, k.rhs, [Support(rule, fact)])), fuel, u), OfRule(rule), k), OfFact(fact), k), pending)
  {
    var p := Support(rule, fact);
    var derived := RuleItem(NewRule(k.lhs, k.rhs, [p]));
    assert derived.Key() == OfRule(k);
    var kb1 := Added(kb, derived, fuel, u);
    AddedLinks(kb, derived, fuel, u, pending + {(OfRule(k), p)});
    AddedKeeps(kb, derived, fuel, u);
    ExtendsStoredRule(kb, kb1, rule);
    ExtendsStoredFact(kb, kb1, fact);
    var kb2 := AppendSupportsRule(kb1, OfRule(rule), k);
    AppendSupportsRuleGrows(kb1, OfRule(rule), k);
    AppendSupportsRuleKeeps(kb1, OfRule(rule), k);
    ExtendsStoredFact(kb1, kb2, fact);
    AppendSupportsRuleGrows(kb2, OfFact(fact), k);
    RecordedLinks(kb1, kb2, AppendSupportsRule(kb2, OfFact(fact), k), OfRule(rule), OfFact(fact), OfRule(k), p, pending);
  }

  /** Once the rule and the fact of the pending pair `p` of `d` record `d`, the
      pair is no longer pending. */
  lemma RecordedLinks(kb1: KB, kb2: KB, kb3: KB, rule: Key, fact: Key, d: Key, p: Support, pending: set<(Key, Support)>)
    requires rule == OfRule(p.rule) && fact == OfFact(p.fact)
    requires LinkedBut(kb1, pending + {(d, p)})
    requires GrowsAt(kb1, kb2, rule, {}) && Records(kb2, rule, d)
    requires GrowsAt(kb2, kb3, fact, {}) && Records(kb3, fact, d)
    ensures LinkedBut(kb3, pending)
  {
    forall y, q | q in PairsOf(kb3, y) && (y, q) !in pending
      ensures Records(kb3, OfRule(q.rule), y) && Records(kb3, OfFact(q.fact), y)
    {
      assert q in PairsOf(kb1, y);
    }
  }

  /** `kb_assert` of an item that comes with no support pair keeps every support
      pair of the store recorded by the rule and the fact it names: the pairs
      inference gives the items it derives included. */
  lemma AssertKeepsLinked(kb: KB, item: Item, fuel: Fuel, u: Unifier)
    requires Linked(kb)
    requires item.FactItem? ==> item.fact.supportedBy == []
    requires item.RuleItem? ==> item.rule.supportedBy == []
    ensures Linked(Added(kb, item, fuel, u))
  {
    AddedLinks(kb, item, fuel, u, {});
  }

  /** `fc_infer` keeps every support pair recorded by the rule and the fact it names. */
  lemma InferredKeepsLinked(kb: KB, fact: Statement, rule: RuleKey, fuel: Fuel, u: Unifier)
    requires Linked(kb)
    ensures Linked(Inferred(kb, fact, rule, fuel, u))
  {
    InferredLinks(kb, fact, rule, fuel, u, {});
  }
}
