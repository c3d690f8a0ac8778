/** Facts, rules and the store that owns them, with structural lookup
    (`KnowledgeBase._get_fact`, `_get_rule`, and the `in` / `index` tests that
    rely on the same equality). */
module Items {
  import opened Logic

  /** The structural identity of a rule: its antecedents and its consequent. */
  datatype RuleKey = RuleKey(lhs: seq<Statement>, rhs: Statement)

  /** A support pair `[rule, fact]`: the rule and the fact that jointly derived an item. */
  datatype Support = Support(rule: RuleKey, fact: Statement)

  /** A fact with its provenance. Dependents are referred to by structural key. */
  datatype Fact = Fact(
    statement: Statement,
    asserted: bool,
    supportedBy: seq<Support>,
    supportsFacts: seq<Statement>,
    supportsRules: seq<RuleKey>)
  {
    predicate Justified() { asserted || supportedBy != [] }
  }

  /** A rule `lhs => rhs` with the same provenance fields as a fact. */
  datatype Rule = Rule(
    lhs: seq<Statement>,
    rhs: Statement,
    asserted: bool,
    supportedBy: seq<Support>,
    supportsFacts: seq<Statement>,
    supportsRules: seq<RuleKey>)
  {
    function Key(): RuleKey { RuleKey(lhs, rhs) }
    predicate Justified() { asserted || supportedBy != [] }
  }

  /** Fact-or-rule, by structural key. A fact and a rule are never equal. */
  datatype Key = OfFact(statement: Statement) | OfRule(rule: RuleKey)

  /** What `kb_add`, `kb_assert`, `kb_retract` and `kb_ask` receive: a fact or a rule. */
  datatype Item = FactItem(fact: Fact) | RuleItem(rule: Rule)
  {
    function Key(): Key {
      match this
      case FactItem(f) => OfFact(f.statement)
      case RuleItem(r) => OfRule(r.Key())
    }
    predicate Justified() {
      match this
      case FactItem(f) => f.Justified()
      case RuleItem(r) => r.Justified()
    }
  }

  /** The `Fact(statement, supported_by)` constructor: asserted exactly when it has no support. */
  function NewFact(s: Statement, supportedBy: seq<Support>): (f: Fact)
    ensures f.statement == s && f.supportedBy == supportedBy
    ensures f.asserted <==> supportedBy == []
    ensures f.Justified()
    ensures f.supportsFacts == [] && f.supportsRules == []
  {
    Fact(s, supportedBy == [], supportedBy, [], [])
  }

  /** The `Rule([lhs, rhs], supported_by)` constructor, in the same way. */
  function NewRule(lhs: seq<Statement>, rhs: Statement, supportedBy: seq<Support>): (r: Rule)
    ensures r.Key() == RuleKey(lhs, rhs) && r.supportedBy == supportedBy
    ensures r.asserted <==> supportedBy == []
    ensures r.Justified()
    ensures r.supportsFacts == [] && r.supportsRules == []
  {
    Rule(lhs, rhs, supportedBy == [], supportedBy, [], [])
  }

  /** The two lists a `KnowledgeBase` owns, as a value. */
  datatype KB = KB(facts: seq<Fact>, rules: seq<Rule>)

  function Size(kb: KB): nat { |kb.facts| + |kb.rules| }

  /** `_get_fact` / `facts.index`: the position of the first stored fact equal to `s`. */
  function FindFact(facts: seq<Fact>, s: Statement): (r: Option<nat>)
    ensures r.Some? ==> r.value < |facts| && facts[r.value].statement == s
    ensures r.Some? ==> forall j :: 0 <= j < r.value ==> facts[j].statement != s
    ensures r.None? <==> forall j :: 0 <= j < |facts| ==> facts[j].statement != s
  {
    if facts == [] then None
    else if facts[0].statement == s then Some(0)
    else match FindFact(facts[1..], s)
      case None => None
      case Some(i) => Some(i + 1)
  }

  /** `_get_rule` / `rules.index`: the position of the first stored rule equal to `k`. */
  function FindRule(rules: seq<Rule>, k: RuleKey): (r: Option<nat>)
    ensures r.Some? ==> r.value < |rules| && rules[r.value].Key() == k
    ensures r.Some? ==> forall j :: 0 <= j < r.value ==> rules[j].Key() != k
    ensures r.None? <==> forall j :: 0 <= j < |rules| ==> rules[j].Key() != k
  {
    if rules == [] then None
    else if rules[0].Key() == k then Some(0)
    else match FindRule(rules[1..], k)
      case None => None
      case Some(i) => Some(i + 1)
  }

  predicate HasFact(kb: KB, s: Statement) { FindFact(kb.facts, s).Some? }
  predicate HasRule(kb: KB, k: RuleKey) { FindRule(kb.rules, k).Some? }

  /** The stored fact equal to `s`, as `_get_fact` returns it. */
  function StoredFact(kb: KB, s: Statement): Fact
    requires HasFact(kb, s)
  {
    kb.facts[FindFact(kb.facts, s).value]
  }

  /** The stored rule equal to `k`, as `_get_rule` returns it. */
  function StoredRule(kb: KB, k: RuleKey): Rule
    requires HasRule(kb, k)
  {
    kb.rules[FindRule(kb.rules, k).value]
  }

  predicate Has(kb: KB, k: Key) {
    match k
    case OfFact(s) => HasFact(kb, s)
    case OfRule(rk) => HasRule(kb, rk)
  }

  /** No two stored facts are equal, and no two stored rules are equal. */
  ghost predicate Unique(kb: KB) {
    UniqueFacts(kb.facts) && UniqueRules(kb.rules)
  }

  /** No stored item is both unasserted and unsupported. */
  ghost predicate AllJustified(kb: KB) {
    && (forall i :: 0 <= i < |kb.facts| ==> kb.facts[i].Justified())
    && (forall i :: 0 <= i < |kb.rules| ==> kb.rules[i].Justified())
  }

  /** Every stored rule has a first antecedent for `fc_infer` to match. */
  ghost predicate RulesHaveAntecedents(kb: KB) {
    forall i :: 0 <= i < |kb.rules| ==> |kb.rules[i].lhs| > 0
  }

  /** `b` is `a` after assertion-time updates: same key, flag only set, lists only appended to. */
  ghost predicate FactGrows(a: Fact, b: Fact) {
    && b.statement == a.statement
    && (a.asserted ==> b.asserted)
    && a.supportedBy <= b.supportedBy
    && a.supportsFacts <= b.supportsFacts
    && a.supportsRules <= b.supportsRules
  }

  ghost predicate RuleGrows(a: Rule, b: Rule) {
    && b.Key() == a.Key()
    && (a.asserted ==> b.asserted)
    && a.supportedBy <= b.supportedBy
    && a.supportsFacts <= b.supportsFacts
    && a.supportsRules <= b.supportsRules
  }

  /** `r` keeps every item of `kb` in its place, grown, and may append new items. */
  ghost predicate Extends(kb: KB, r: KB) {
    && |kb.facts| <= |r.facts|
    && |kb.rules| <= |r.rules|
    && (forall i :: 0 <= i < |kb.facts| ==> FactGrows(kb.facts[i], r.facts[i]))
    && (forall i :: 0 <= i < |kb.rules| ==> RuleGrows(kb.rules[i], r.rules[i]))
  }

  /** The last element of a non-empty sequence. */
  function Last<T>(s: seq<T>): T
    requires |s| > 0
  {
    s[|s| - 1]
  }

  /** `s` with its element at `i` taken out: `list.remove` of the first equal element. */
  function RemoveAt<T>(s: seq<T>, i: nat): (r: seq<T>)
    requires i < |s|
    ensures |r| == |s| - 1
    ensures forall j :: 0 <= j < i ==> r[j] == s[j]
    ensures forall j :: i <= j < |r| ==> r[j] == s[j + 1]
  {
    s[..i] + s[i + 1..]
  }

  /** Lookup only depends on the stored keys: a store that keeps the keys of `a`
      in place finds every key of `a` at the same position. */
  lemma FindFactStable(a: seq<Fact>, b: seq<Fact>, s: Statement)
    requires |a| <= |b| && forall i :: 0 <= i < |a| ==> b[i].statement == a[i].statement
    requires FindFact(a, s).Some?
    ensures FindFact(b, s) == FindFact(a, s)
  {
  }

  lemma FindRuleStable(a: seq<Rule>, b: seq<Rule>, k: RuleKey)
    requires |a| <= |b| && forall i :: 0 <= i < |a| ==> b[i].Key() == a[i].Key()
    requires FindRule(a, k).Some?
    ensures FindRule(b, k) == FindRule(a, k)
  {
  }

  /** An extended store still holds every item of the original, at the same place, grown. */
  lemma ExtendsStored(kb: KB, r: KB)
    requires Extends(kb, r)
    ensures forall s :: HasFact(kb, s) ==>
      HasFact(r, s) && FindFact(r.facts, s) == FindFact(kb.facts, s) && FactGrows(StoredFact(kb, s), StoredFact(r, s))
    ensures forall k :: HasRule(kb, k) ==>
      HasRule(r, k) && FindRule(r.rules, k) == FindRule(kb.rules, k) && RuleGrows(StoredRule(kb, k), StoredRule(r, k))
  {
    forall s | HasFact(kb, s)
      ensures HasFact(r, s) && FindFact(r.facts, s) == FindFact(kb.facts, s)
    {
      FindFactStable(kb.facts, r.facts, s);
    }
    forall k | HasRule(kb, k)
      ensures HasRule(r, k) && FindRule(r.rules, k) == FindRule(kb.rules, k)
    {
      FindRuleStable(kb.rules, r.rules, k);
    }
  }

  /** `ExtendsStored` for one fact. */
  lemma ExtendsStoredFact(kb: KB, r: KB, s: Statement)
    requires Extends(kb, r) && HasFact(kb, s)
    ensures HasFact(r, s) && FindFact(r.facts, s) == FindFact(kb.facts, s)
    ensures FactGrows(StoredFact(kb, s), StoredFact(r, s))
  {
    FindFactStable(kb.facts, r.facts, s);
  }

  /** `ExtendsStored` for one rule. */
  lemma ExtendsStoredRule(kb: KB, r: KB, k: RuleKey)
    requires Extends(kb, r) && HasRule(kb, k)
    ensures HasRule(r, k) && FindRule(r.rules, k) == FindRule(kb.rules, k)
    ensures RuleGrows(StoredRule(kb, k), StoredRule(r, k))
  {
    FindRuleStable(kb.rules, r.rules, k);
  }

  // ---------------------------------------------------------------------------
  // The stored lists seen as maps from key to the item lookup returns

  /** Each stored statement mapped to the first stored fact equal to it. */
  ghost function FactView(facts: seq<Fact>): map<Statement, Fact> {
    if facts == [] then map[] else FactView(facts[1..])[facts[0].statement := facts[0]]
  }

  ghost function RuleView(rules: seq<Rule>): map<RuleKey, Rule> {
    if rules == [] then map[] else RuleView(rules[1..])[rules[0].Key() := rules[0]]
  }

  ghost predicate UniqueFacts(facts: seq<Fact>) {
    forall i, j :: 0 <= i < j < |facts| ==> facts[i].statement != facts[j].statement
  }

  ghost predicate UniqueRules(rules: seq<Rule>) {
    forall i, j :: 0 <= i < j < |rules| ==> rules[i].Key() != rules[j].Key()
  }

  /** The view agrees with lookup. */
  lemma {:induction false} FactViewFind(facts: seq<Fact>, s: Statement)
    ensures s in FactView(facts) <==> FindFact(facts, s).Some?
    ensures s in FactView(facts) ==> FactView(facts)[s] == facts[FindFact(facts, s).value]
  {
    if facts != [] {
      FactViewFind(facts[1..], s);
    }
  }

  lemma {:induction false} RuleViewFind(rules: seq<Rule>, k: RuleKey)
    ensures k in RuleView(rules) <==> FindRule(rules, k).Some?
    ensures k in RuleView(rules) ==> RuleView(rules)[k] == rules[FindRule(rules, k).value]
  {
    if rules != [] {
      RuleViewFind(rules[1..], k);
    }
  }

  /** Taking out an item of a list without duplicates takes its key out of the view. */
  lemma {:induction false} FactViewRemove(facts: seq<Fact>, i: nat)
    requires i < |facts| && UniqueFacts(facts)
    ensures UniqueFacts(RemoveAt(facts, i))
    ensures FactView(RemoveAt(facts, i)) == FactView(facts) - {facts[i].statement}
  {
    var r := RemoveAt(facts, i);
    if i == 0 {
      assert r == facts[1..];
      FactViewFind(facts[1..], facts[0].statement);
    } else {
      assert r == [facts[0]] + RemoveAt(facts[1..], i - 1);
      assert r[1..] == RemoveAt(facts[1..], i - 1);
      FactViewRemove(facts[1..], i - 1);
      assert facts[0].statement != facts[i].statement;
      assert facts[1..][i - 1] == facts[i];
    }
  }

  lemma {:induction false} RuleViewRemove(rules: seq<Rule>, i: nat)
    requires i < |rules| && UniqueRules(rules)
    ensures UniqueRules(RemoveAt(rules, i))
    ensures RuleView(RemoveAt(rules, i)) == RuleView(rules) - {rules[i].Key()}
  {
    var r := RemoveAt(rules, i);
    if i == 0 {
      assert r == rules[1..];
      RuleViewFind(rules[1..], rules[0].Key());
    } else {
      assert r == [rules[0]] + RemoveAt(rules[1..], i - 1);
      assert r[1..] == RemoveAt(rules[1..], i - 1);
      RuleViewRemove(rules[1..], i - 1);
      assert rules[0].Key() != rules[i].Key();
      assert rules[1..][i - 1] == rules[i];
    }
  }

  /** Replacing the item lookup finds by one with the same key replaces it in the view. */
  lemma {:induction false} FactViewUpdate(facts: seq<Fact>, i: nat, f: Fact)
    requires FindFact(facts, f.statement) == Some(i)
    ensures FactView(facts[i := f]) == FactView(facts)[f.statement := f]
  {
    if i > 0 {
      assert facts[i := f][1..] == facts[1..][i - 1 := f];
      FactViewUpdate(facts[1..], i - 1, f);
    } else {
      assert facts[i := f][1..] == facts[1..];
    }
  }

  lemma {:induction false} RuleViewUpdate(rules: seq<Rule>, i: nat, rl: Rule)
    requires FindRule(rules, rl.Key()) == Some(i)
    ensures RuleView(rules[i := rl]) == RuleView(rules)[rl.Key() := rl]
  {
    if i > 0 {
      assert rules[i := rl][1..] == rules[1..][i - 1 := rl];
      RuleViewUpdate(rules[1..], i - 1, rl);
    } else {
      assert rules[i := rl][1..] == rules[1..];
    }
  }

  /** Appending an item adds its key to the view unless an equal item is already stored. */
  lemma {:induction false} FactViewSnoc(facts: seq<Fact>, f: Fact)
    ensures FactView(facts + [f]) ==
      if f.statement in FactView(facts) then FactView(facts) else FactView(facts)[f.statement := f]
  {
    if facts == [] {
      assert [] + [f] == [f];
      assert [f][1..] == [];
    } else {
      assert (facts + [f])[1..] == facts[1..] + [f];
      FactViewSnoc(facts[1..], f);
    }
  }

  lemma {:induction false} RuleViewSnoc(rules: seq<Rule>, rl: Rule)
    ensures RuleView(rules + [rl]) ==
      if rl.Key() in RuleView(rules) then RuleView(rules) else RuleView(rules)[rl.Key() := rl]
  {
    if rules == [] {
      assert [] + [rl] == [rl];
      assert [rl][1..] == [];
    } else {
      assert (rules + [rl])[1..] == rules[1..] + [rl];
      RuleViewSnoc(rules[1..], rl);
    }
  }

  /** Every stored item appears in the view under its key. */
  lemma {:induction false} FactViewHolds(facts: seq<Fact>, i: nat)
    requires i < |facts| && UniqueFacts(facts)
    ensures facts[i].statement in FactView(facts) && FactView(facts)[facts[i].statement] == facts[i]
  {
    if i > 0 {
      FactViewHolds(facts[1..], i - 1);
    }
  }

  lemma {:induction false} RuleViewHolds(rules: seq<Rule>, i: nat)
    requires i < |rules| && UniqueRules(rules)
    ensures rules[i].Key() in RuleView(rules) && RuleView(rules)[rules[i].Key()] == rules[i]
  {
    if i > 0 {
      RuleViewHolds(rules[1..], i - 1);
    }
  }

  /** Lookup of a key not yet stored finds the item appended with it at the end. */
  lemma FindFactAppended(facts: seq<Fact>, f: Fact)
    requires FindFact(facts, f.statement).None?
    ensures FindFact(facts + [f], f.statement) == Some(|facts|)
  {
    assert (facts + [f])[|facts|] == f;
    assert forall j :: 0 <= j < |facts| ==> (facts + [f])[j] == facts[j];
  }

  lemma FindRuleAppended(rules: seq<Rule>, rl: Rule)
    requires FindRule(rules, rl.Key()).None?
    ensures FindRule(rules + [rl], rl.Key()) == Some(|rules|)
  {
    assert (rules + [rl])[|rules|] == rl;
    assert forall j :: 0 <= j < |rules| ==> (rules + [rl])[j] == rules[j];
  }

  /** In a list without duplicates, lookup of a stored item's key finds that item. */
  lemma FindFactAt(facts: seq<Fact>, i: nat)
    requires UniqueFacts(facts) && i < |facts|
    ensures FindFact(facts, facts[i].statement) == Some(i)
  {
  }

  lemma FindRuleAt(rules: seq<Rule>, i: nat)
    requires UniqueRules(rules) && i < |rules|
    ensures FindRule(rules, rules[i].Key()) == Some(i)
  {
  }

  // ---------------------------------------------------------------------------
  // Support pairs and the dependents that record them

  /** The dependents an item records, in the order `kb_retract` visits them:
      `supports_facts`, then `supports_rules`. */
  function Dependents(facts: seq<Statement>, rules: seq<RuleKey>): (r: seq<Key>)
    ensures |r| == |facts| + |rules|
    ensures forall j :: 0 <= j < |facts| ==> r[j] == OfFact(facts[j])
    ensures forall j :: 0 <= j < |rules| ==> r[|facts| + j] == OfRule(rules[j])
  {
    seq(|facts|, j requires 0 <= j < |facts| => OfFact(facts[j]))
      + seq(|rules|, j requires 0 <= j < |rules| => OfRule(rules[j]))
  }

  /** A key is among the dependents exactly when its statement is listed in
      `supports_facts` or its rule in `supports_rules`. */
  lemma DependentsMembers(facts: seq<Statement>, rules: seq<RuleKey>, y: Key)
    ensures y in Dependents(facts, rules) <==> if y.OfFact? then y.statement in facts else y.rule in rules
  {
    var d := Dependents(facts, rules);
    if y in d {
      var j :| 0 <= j < |d| && d[j] == y;
      if j < |facts| {
        assert facts[j] == y.statement;
      } else {
        assert rules[j - |facts|] == y.rule;
      }
    }
    match y {
      case OfFact(s) =>
        if s in facts {
          var j :| 0 <= j < |facts| && facts[j] == s;
          assert d[j] == y;
        }
      case OfRule(k) =>
        if k in rules {
          var j :| 0 <= j < |rules| && rules[j] == k;
          assert d[|facts| + j] == y;
        }
    }
  }

  /** The support pairs of the stored `y`; none when `y` is not stored. */
  ghost function PairsOf(kb: KB, y: Key): seq<Support> {
    match y
    case OfFact(s) => if s in FactView(kb.facts) then FactView(kb.facts)[s].supportedBy else []
    case OfRule(k) => if k in RuleView(kb.rules) then RuleView(kb.rules)[k].supportedBy else []
  }

  /** The `supports_facts` and `supports_rules` of the stored `z`; empty when `z`
      is not stored. */
  ghost function ListsOf(kb: KB, z: Key): (seq<Statement>, seq<RuleKey>) {
    match z
    case OfFact(s) =>
      if s in FactView(kb.facts) then (FactView(kb.facts)[s].supportsFacts, FactView(kb.facts)[s].supportsRules)
      else ([], [])
    case OfRule(k) =>
      if k in RuleView(kb.rules) then (RuleView(kb.rules)[k].supportsFacts, RuleView(kb.rules)[k].supportsRules)
      else ([], [])
  }

  /** The dependents the stored `z` records, in the order `kb_retract` visits them. */
  ghost function DepsOf(kb: KB, z: Key): seq<Key> {
    Dependents(ListsOf(kb, z).0, ListsOf(kb, z).1)
  }

  /** The stored `z` lists `y` among the dependents it supports. */
  ghost predicate Records(kb: KB, z: Key, y: Key) {
    if y.OfFact? then y.statement in ListsOf(kb, z).0 else y.rule in ListsOf(kb, z).1
  }

  lemma DepsOfRecords(kb: KB, z: Key, y: Key)
    ensures y in DepsOf(kb, z) <==> Records(kb, z, y)
  {
    DependentsMembers(ListsOf(kb, z).0, ListsOf(kb, z).1, y);
  }

  /** Every support pair of a stored item, other than the `pending` ones, names a
      stored rule and a stored fact, and both record the item among their
      dependents. */
  ghost predicate LinkedBut(kb: KB, pending: set<(Key, Support)>) {
    forall y, p :: p in PairsOf(kb, y) && (y, p) !in pending ==>
      Records(kb, OfRule(p.rule), y) && Records(kb, OfFact(p.fact), y)
  }

  /** Every support pair is linked: from any item, `kb_retract` can reach every
      item that holds a pair naming it. */
  ghost predicate Linked(kb: KB) {
    LinkedBut(kb, {})
  }
}

