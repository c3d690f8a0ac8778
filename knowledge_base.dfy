/** The two classes of the source: `KnowledgeBase`, which owns the fact and rule
    lists and updates them in place, and `InferenceEngine`, whose `fc_infer` edits
    the knowledge base it is handed. Every method is proved to leave the store
    exactly as the corresponding function of `Inference`, `Asking` or
    `Retraction` says. */
module Engine {
  import opened Logic
  import opened Items
  import opened Inference
  import opened Asking
  import opened Retraction

  class KnowledgeBase {
    var facts: seq<Fact>
    var rules: seq<Rule>
    const ie: InferenceEngine

    /** The two lists, as a value. */
    function State(): KB
      reads this
    {
      KB(facts, rules)
    }

    /** No equal items stored twice, every item asserted or supported, every rule
        with a first antecedent. */
    ghost predicate Valid()
      reads this
    {
      Unique(State()) && AllJustified(State()) && RulesHaveAntecedents(State())
    }

    /** `KnowledgeBase(facts, rules)`, with a new inference engine over the
        supplied `match` and `instantiate`. */
    constructor (facts0: seq<Fact>, rules0: seq<Rule>, unifier: Unifier)
      ensures State() == KB(facts0, rules0) && fresh(ie) && ie.u == unifier
      ensures (Unique(KB(facts0, rules0)) && AllJustified(KB(facts0, rules0))
               && RulesHaveAntecedents(KB(facts0, rules0))) ==> Valid()
    {
      facts := facts0;
      rules := rules0;
      ie := new InferenceEngine(unifier);
    }

    /** The position of the stored fact equal to `s`: what `_get_fact`, the `in`
        test and `facts.index` find. */
    method FactIndex(s: Statement) returns (r: Option<nat>)
      ensures r.Some? ==> r.value < |facts| && facts[r.value].statement == s
      ensures r.Some? ==> forall j :: 0 <= j < r.value ==> facts[j].statement != s
      ensures r.None? <==> forall j :: 0 <= j < |facts| ==> facts[j].statement != s
    {
      var i := 0;
      while i < |facts|
        invariant 0 <= i <= |facts|
        invariant forall j :: 0 <= j < i ==> facts[j].statement != s
      {
        if facts[i].statement == s {
          return Some(i);
        }
        i := i + 1;
      }
      return None;
    }

    /** The position of the stored rule equal to `k`. */
    method RuleIndex(k: RuleKey) returns (r: Option<nat>)
      ensures r.Some? ==> r.value < |rules| && rules[r.value].Key() == k
      ensures r.Some? ==> forall j :: 0 <= j < r.value ==> rules[j].Key() != k
      ensures r.None? <==> forall j :: 0 <= j < |rules| ==> rules[j].Key() != k
    {
      var i := 0;
      while i < |rules|
        invariant 0 <= i <= |rules|
        invariant forall j :: 0 <= j < i ==> rules[j].Key() != k
      {
        if rules[i].Key() == k {
          return Some(i);
        }
        i := i + 1;
      }
      return None;
    }

    /** `_get_fact`: the stored fact equal to `s`, or nothing. */
    method GetFact(s: Statement) returns (r: Option<Fact>)
      ensures r.Some? <==> HasFact(State(), s)
      ensures r.Some? ==> r.value == StoredFact(State(), s) && r.value.statement == s
    {
      var i := FactIndex(s);
      assert i == FindFact(facts, s);
      r := if i.Some? then Some(facts[i.value]) else None;
    }

    /** `_get_rule`: the stored rule equal to `k`, or nothing. */
    method GetRule(k: RuleKey) returns (r: Option<Rule>)
      ensures r.Some? <==> HasRule(State(), k)
      ensures r.Some? ==> r.value == StoredRule(State(), k) && r.value.Key() == k
    {
      var i := RuleIndex(k);
      assert i == FindRule(rules, k);
      r := if i.Some? then Some(rules[i.value]) else None;
    }

    /** `kb_add`. */
    method Add(item: Item, fuel: Fuel)
      requires Valid() && Admissible(item)
      modifies this
      decreases fuel, 3
      ensures State() == Added(old(State()), item, fuel, ie.u)
      ensures Valid()
    {
      ghost var kb := State();
      match item {
        case FactItem(f) =>
          var ind := FactIndex(f.statement);
          assert ind == FindFact(kb.facts, f.statement);
          if ind.None? {
            facts := facts + [f];
            StoreKeeps(kb, item);
            InferAll(FactAgainstRules(f.statement, rules), fuel);
          } else {
            MergeFactAt(ind.value, f);
            MergeKeeps(kb, item, ind.value);
          }
        case RuleItem(rl) =>
          var ind := RuleIndex(rl.Key());
          assert ind == FindRule(kb.rules, rl.Key());
          if ind.None? {
            rules := rules + [rl];
            StoreKeeps(kb, item);
            InferAll(RuleAgainstFacts(rl.Key(), facts), fuel);
          } else {
            MergeRuleAt(ind.value, rl);
            MergeKeeps(kb, item, ind.value);
          }
      }
    }

    /** The loop at the end of `kb_add`: `fc_infer` on each (rule, fact) attempt in turn. */
    method InferAll(attempts: seq<Support>, fuel: Fuel)
      requires Valid()
      modifies this
      decreases fuel, 2
      ensures State() == InferEach(old(State()), attempts, fuel, ie.u)
      ensures Valid()
    {
      ghost var kb0 := State();
      var i := 0;
      while i < |attempts|
        invariant 0 <= i <= |attempts|
        invariant Valid()
        invariant State() == InferEach(kb0, attempts[..i], fuel, ie.u)
      {
        ghost var done := attempts[..i];
        ie.FcInfer(attempts[i].fact, attempts[i].rule, this, fuel);
        InferEachSnoc(kb0, done, attempts[i], fuel, ie.u);
        assert attempts[..i + 1] == done + [attempts[i]];
        i := i + 1;
      }
      assert attempts[..i] == attempts;
    }

    /** `kb_add`'s merge into the stored equal fact at `ind`: append the incoming
        support pairs one by one, or set the flag when there are none. */
    method MergeFactAt(ind: nat, f: Fact)
      requires ind < |facts|
      modifies this
      ensures facts == old(facts)[ind := MergeFact(old(facts)[ind], f)] && rules == old(rules)
    {
      if f.supportedBy != [] {
        var j := 0;
        assert old(facts)[ind].supportedBy + f.supportedBy[..0] == old(facts)[ind].supportedBy;
        while j < |f.supportedBy|
          invariant 0 <= j <= |f.supportedBy| && |facts| == |old(facts)| && rules == old(rules)
          invariant forall k :: 0 <= k < |facts| && k != ind ==> facts[k] == old(facts)[k]
          invariant facts[ind] == old(facts)[ind].(supportedBy := old(facts)[ind].supportedBy + f.supportedBy[..j])
        {
          facts := facts[ind := facts[ind].(supportedBy := facts[ind].supportedBy + [f.supportedBy[j]])];
          assert f.supportedBy[..j + 1] == f.supportedBy[..j] + [f.supportedBy[j]];
          j := j + 1;
        }
        assert f.supportedBy[..j] == f.supportedBy;
      } else {
        facts := facts[ind := facts[ind].(asserted := true)];
      }
    }

    /** The same for a rule. */
    method MergeRuleAt(ind: nat, rl: Rule)
      requires ind < |rules|
      modifies this
      ensures rules == old(rules)[ind := MergeRule(old(rules)[ind], rl)] && facts == old(facts)
    {
      if rl.supportedBy != [] {
        var j := 0;
        assert old(rules)[ind].supportedBy + rl.supportedBy[..0] == old(rules)[ind].supportedBy;
        while j < |rl.supportedBy|
          invariant 0 <= j <= |rl.supportedBy| && |rules| == |old(rules)| && facts == old(facts)
          invariant forall k :: 0 <= k < |rules| && k != ind ==> rules[k] == old(rules)[k]
          invariant rules[ind] == old(rules)[ind].(supportedBy := old(rules)[ind].supportedBy + rl.supportedBy[..j])
        {
          rules := rules[ind := rules[ind].(supportedBy := rules[ind].supportedBy + [rl.supportedBy[j]])];
          assert rl.supportedBy[..j + 1] == rl.supportedBy[..j] + [rl.supportedBy[j]];
          j := j + 1;
        }
        assert rl.supportedBy[..j] == rl.supportedBy;
      } else {
        rules := rules[ind := rules[ind].(asserted := true)];
      }
    }

    /** `kb_assert`: the same as `kb_add`. */
    method Assert(item: Item, fuel: Fuel)
      requires Valid() && Admissible(item)
      modifies this
      decreases fuel, 4
      ensures State() == Added(old(State()), item, fuel, ie.u)
      ensures Valid()
    {
      Add(item, fuel);
    }

    /** `owner.supports_facts.append(s)`, on the stored item equal to `owner`. */
    method RecordFact(owner: Key, s: Statement)
      modifies this
      ensures State() == AppendSupportsFact(old(State()), owner, s)
      ensures Keeps(old(State()), State())
    {
      AppendSupportsFactKeeps(State(), owner, s);
      match owner {
        case OfFact(t) =>
          var i := FactIndex(t);
          assert i == FindFact(facts, t);
          if i.Some? {
            facts := facts[i.value := facts[i.value].(supportsFacts := facts[i.value].supportsFacts + [s])];
          }
        case OfRule(k) =>
          var i := RuleIndex(k);
          assert i == FindRule(rules, k);
          if i.Some? {
            rules := rules[i.value := rules[i.value].(supportsFacts := rules[i.value].supportsFacts + [s])];
          }
      }
    }

    /** `owner.supports_rules.append(k)`, on the stored item equal to `owner`. */
    method RecordRule(owner: Key, k: RuleKey)
      modifies this
      ensures State() == AppendSupportsRule(old(State()), owner, k)
      ensures Keeps(old(State()), State())
    {
      AppendSupportsRuleKeeps(State(), owner, k);
      match owner {
        case OfFact(t) =>
          var i := FactIndex(t);
          assert i == FindFact(facts, t);
          if i.Some? {
            facts := facts[i.value := facts[i.value].(supportsRules := facts[i.value].supportsRules + [k])];
          }
        case OfRule(o) =>
          var i := RuleIndex(o);
          assert i == FindRule(rules, o);
          if i.Some? {
            rules := rules[i.value := rules[i.value].(supportsRules := rules[i.value].supportsRules + [k])];
          }
      }
    }

    /** `kb_retract(x)`, with the cascade as corrected: the four-way decision on the
        stored equal of `x`, and when `x` goes, the cascade over what it supported. */
    method Retract(x: Key)
      requires Has(State(), x)
      modifies this
      decreases Size(State()), 1
      ensures State() == Retracted(old(State()), x, Corrected)
      ensures old(Valid()) ==> Valid()
    {
      if Valid() {
        RetractKeepsValid(State(), x, Corrected);
      }
      match x {
        case OfFact(s) =>
          var i := FactIndex(s);
          assert i == FindFact(facts, s);
          var f := facts[i.value];
          if f.asserted && |f.supportedBy| == 0 {
            Unlink(x);
          } else if f.asserted && |f.supportedBy| > 0 {
            facts := facts[i.value := f.(asserted := false)];
          } else if !f.asserted && |f.supportedBy| == 0 {
            Unlink(x);
          }
        case OfRule(k) =>
          var i := RuleIndex(k);
          assert i == FindRule(rules, k);
          var rl := rules[i.value];
          if rl.asserted && |rl.supportedBy| == 0 {
            Unlink(x);
          } else if rl.asserted && |rl.supportedBy| > 0 {
            rules := rules[i.value := rl.(asserted := false)];
          } else if !rl.asserted && |rl.supportedBy| == 0 {
            Unlink(x);
          }
      }
    }

    /** `remove` of the stored `x`, then the two cascade loops: over the facts it
        supports, then over the rules it supports. */
    method Unlink(x: Key)
      requires Has(State(), x)
      modifies this
      decreases Size(State()), 0
      ensures State() == Retraction.Unlink(old(State()), x, Corrected)
    {
      var sf: seq<Statement>, sr: seq<RuleKey>;
      match x {
        case OfFact(s) =>
          var i := FactIndex(s);
          assert i == FindFact(facts, s);
          sf, sr := facts[i.value].supportsFacts, facts[i.value].supportsRules;
          facts := RemoveAt(facts, i.value);
        case OfRule(k) =>
          var i := RuleIndex(k);
          assert i == FindRule(rules, k);
          sf, sr := rules[i.value].supportsFacts, rules[i.value].supportsRules;
          rules := RemoveAt(rules, i.value);
      }
      CascadeFrom(x, sf, sr);
    }

    /** The two cascade loops out of the removed `x`, run as one loop over its
        dependents: the facts it supported, then the rules it supported. */
    method CascadeFrom(x: Key, sf: seq<Statement>, sr: seq<RuleKey>)
      modifies this
      decreases Size(State()), 3
      ensures State() == Cascade(old(State()), x, Dependents(sf, sr), Corrected)
    {
      ghost var kb0 := State();
      var deps := Dependents(sf, sr);
      var j := 0;
      while j < |deps|
        invariant 0 <= j <= |deps|
        invariant State() == Cascade(kb0, x, deps[..j], Corrected)
      {
        assert deps[..j + 1] == deps[..j] + [deps[j]];
        CascadeSnoc(kb0, x, deps[..j], deps[j], Corrected);
        Step(x, deps[j]);
        j := j + 1;
      }
      assert deps[..j] == deps;
    }

    /** One turn of a cascade loop: take the pairs naming `x` off the stored `d`,
        and retract `d` when that leaves it unsupported and unasserted. */
    method Step(x: Key, d: Key)
      modifies this
      decreases Size(State()), 2
      ensures State() == Retraction.Step(old(State()), x, d, Corrected)
    {
      match d {
        case OfFact(s) =>
          var j := FactIndex(s);
          assert j == FindFact(facts, s);
          if j.Some? {
            var f := facts[j.value];
            var kept := KeepPairs(f.supportedBy, x, true);
            facts := facts[j.value := f.(supportedBy := kept)];
            assert facts[j.value].statement == s;
            if |kept| == 0 && !f.asserted {
              Retract(d);
            }
          }
        case OfRule(k) =>
          var j := RuleIndex(k);
          assert j == FindRule(rules, k);
          if j.Some? {
            var rl := rules[j.value];
            var kept := KeepPairs(rl.supportedBy, x, false);
            rules := rules[j.value := rl.(supportedBy := kept)];
            assert rules[j.value].Key() == k;
            if |kept| == 0 && !rl.asserted {
              Retract(d);
            }
          }
      }
    }

    /** `kb_ask`: match the query against every stored fact, in order. */
    method Ask(query: Item) returns (r: seq<Answer>)
      ensures r == Asking.Ask(facts, query, ie.u)
    {
      if query.RuleItem? {
        return [];
      }
      var q := NewFact(query.fact.statement, []);
      var fs := facts;
      r := [];
      var i := 0;
      while i < |fs|
        invariant 0 <= i <= |fs|
        invariant r == Asking.Ask(fs[..i], query, ie.u)
      {
        AskSnoc(fs[..i], fs[i], query, ie.u);
        assert fs[..i + 1] == fs[..i] + [fs[i]];
        var b := ie.u.unify(q.statement, fs[i].statement);
        if b.Some? {
          r := r + [Answer(b.value, fs[i])];
        }
        i := i + 1;
      }
      assert fs[..i] == fs;
    }
  }

  /** The support pairs of `s` that do not name the retracted `x`, in order. */
  method KeepPairs(s: seq<Support>, x: Key, ofFact: bool) returns (kept: seq<Support>)
    ensures kept == KeepUncut(s, Corrected, x, ofFact)
    ensures forall p :: p in kept <==> p in s && !Mentions(x, p)
  {
    kept := [];
    var i := 0;
    while i < |s|
      invariant 0 <= i <= |s|
      invariant kept == KeepUncut(s[..i], Corrected, x, ofFact)
    {
      KeepUncutSnoc(s[..i], s[i], Corrected, x, ofFact);
      assert s[..i + 1] == s[..i] + [s[i]];
      if !Mentions(x, s[i]) {
        kept := kept + [s[i]];
      }
      i := i + 1;
    }
    assert s[..i] == s;
    KeepUncutMembers(s, Corrected, x, ofFact);
  }

  class InferenceEngine {
    const u: Unifier

    constructor (unifier: Unifier)
      ensures u == unifier
    {
      u := unifier;
    }

    /** `fc_infer(fact, rule, kb)`. */
    method FcInfer(fact: Statement, rule: RuleKey, kb: KnowledgeBase, fuel: Fuel)
      requires kb.Valid() && kb.ie == this
      modifies kb
      decreases fuel, 1
      ensures kb.State() == Inferred(old(kb.State()), fact, rule, fuel, u)
      ensures kb.Valid()
    {
      if fuel.Out? || |rule.lhs| == 0 {
        return;
      }
      var bindings := u.unify(fact, rule.lhs[0]);
      if bindings.None? {
        return;
      }
      var indexF := kb.FactIndex(fact);
      var indexR := kb.RuleIndex(rule);
      assert indexF == FindFact(kb.facts, fact) && indexR == FindRule(kb.rules, rule);
      if indexF.None? || indexR.None? {
        return;
      }
      DeriveInto(fact, rule, bindings.value, kb, fuel);
    }

    /** The successful half of `fc_infer`: assert what `fact` and `rule` derive and
        record it among the dependents of both. */
    method DeriveInto(fact: Statement, rule: RuleKey, b: Bindings, kb: KnowledgeBase, fuel: Fuel)
      requires kb.Valid() && kb.ie == this && |rule.lhs| > 0 && fuel.More?
      modifies kb
      decreases fuel, 0
      ensures kb.State() == Derive(old(kb.State()), fact, rule, b, fuel, u)
      ensures kb.Valid()
    {
      var item := u.instantiate(rule.rhs, b);
      var f := fuel.next;
      if |rule.lhs| == 1 {
        var inferred := NewFact(item, [Support(rule, fact)]);
        kb.Assert(FactItem(inferred), f);
        kb.RecordFact(OfRule(rule), item);
        kb.RecordFact(OfFact(fact), item);
      } else {
        var rest := InstantiateRest(rule.lhs[1..], b);
        var inferred := NewRule(rest, item, [Support(rule, fact)]);
        kb.Assert(RuleItem(inferred), f);
        kb.RecordRule(OfRule(rule), inferred.Key());
        kb.RecordRule(OfFact(fact), inferred.Key());
      }
    }

    /** The remaining antecedents of a matched rule, each instantiated with the
        same bindings, in order. */
    method InstantiateRest(ss: seq<Statement>, b: Bindings) returns (r: seq<Statement>)
      ensures |r| == |ss|
      ensures forall k :: 0 <= k < |ss| ==> r[k] == u.instantiate(ss[k], b)
      ensures r == InstantiateAll(u, ss, b)
    {
      r := [];
      var i := 0;
      while i < |ss|
        invariant 0 <= i <= |ss| && |r| == i
        invariant forall k :: 0 <= k < i ==> r[k] == u.instantiate(ss[k], b)
      {
        r := r + [u.instantiate(ss[i], b)];
        i := i + 1;
      }
    }
  }
}
