/** `KnowledgeBase.kb_retract` as a function of the store: the four-way decision on
    the retracted item, and the cascade through the items it supports.
    The cascade is given twice, as `AsWritten` (the source's comparisons and its
    removal-while-iterating loop, applied to the stored item each recorded
    dependent names) and `Corrected` (what the comments beside it describe); the
    class uses the corrected one. Where the source's recorded dependent is a
    detached copy rather than the stored item, `StepOnCopy` gives its step. */
module Retraction {
  import opened Logic
  import opened Items

  datatype Mode = AsWritten | Corrected

  /** Whether the cascade out of retracted `x` takes the pair `p` off a dependent
      (a fact when `ofFact`, else a rule). As written, a dependent fact only
      compares the pair's rule slot and a dependent rule only its fact slot, and a
      fact is never equal to a rule; corrected, a pair goes when either slot is `x`. */
  predicate Cuts(m: Mode, x: Key, ofFact: bool, p: Support)
    ensures Cuts(m, x, ofFact, p) ==> Mentions(x, p)
    ensures m == Corrected ==> (Cuts(m, x, ofFact, p) <==> Mentions(x, p))
    ensures x.OfFact? && ofFact ==> (Cuts(m, x, ofFact, p) <==> m == Corrected && Mentions(x, p))
    ensures x.OfRule? && !ofFact ==> (Cuts(m, x, ofFact, p) <==> m == Corrected && Mentions(x, p))
  {
    match m
    case AsWritten => if ofFact then x == OfRule(p.rule) else x == OfFact(p.fact)
    case Corrected => x == OfRule(p.rule) || x == OfFact(p.fact)
  }

  /** `lst.index(v)`, which `lst.remove(v)` uses: the first position holding `v`. */
  function IndexOf(s: seq<Support>, v: Support): (r: nat)
    requires v in s
    ensures r < |s| && s[r] == v
    ensures forall j :: 0 <= j < r ==> s[j] != v
  {
    if s[0] == v then 0 else 1 + IndexOf(s[1..], v)
  }

  /** `for fr in lst: if cut(fr): lst.remove(fr)` as Python runs it, from position `i`:
      removing shifts the rest of the list left under the iterator, which then
      steps over the element that moved into the current position. */
  function RemoveWhileIterating(s: seq<Support>, i: nat, m: Mode, x: Key, ofFact: bool): (r: seq<Support>)
    ensures forall p :: p in r ==> p in s
    ensures forall p :: p in s && !Cuts(m, x, ofFact, p) ==> p in r
    ensures |r| <= |s|
    decreases |s| - i
  {
    if i >= |s| then s
    else if Cuts(m, x, ofFact, s[i]) then
      RemoveAtKeeps(s, IndexOf(s, s[i]));
      RemoveWhileIterating(RemoveAt(s, IndexOf(s, s[i])), i + 1, m, x, ofFact)
    else RemoveWhileIterating(s, i + 1, m, x, ofFact)
  }

  /** Taking out position `k` keeps every value other than the one stored there. */
  lemma RemoveAtKeeps(s: seq<Support>, k: nat)
    requires k < |s|
    ensures forall p :: p in s && p != s[k] ==> p in RemoveAt(s, k)
  {
    forall p | p in s && p != s[k] ensures p in RemoveAt(s, k) {
      var j :| 0 <= j < |s| && s[j] == p;
      if j < k {
        assert RemoveAt(s, k)[j] == p;
      } else {
        assert RemoveAt(s, k)[j - 1] == p;
      }
    }
  }

  /** Every pair of `s` the cascade does not cut, in order. */
  function KeepUncut(s: seq<Support>, m: Mode, x: Key, ofFact: bool): (r: seq<Support>)
    ensures |r| <= |s|
  {
    if s == [] then []
    else (if Cuts(m, x, ofFact, s[0]) then [] else [s[0]]) + KeepUncut(s[1..], m, x, ofFact)
  }

  /** Filtering `s` followed by `p` filters `s`, then keeps `p` unless it is cut:
      the order a loop over the pairs runs in. */
  lemma {:induction false} KeepUncutSnoc(s: seq<Support>, p: Support, m: Mode, x: Key, ofFact: bool)
    ensures KeepUncut(s + [p], m, x, ofFact)
      == KeepUncut(s, m, x, ofFact) + (if Cuts(m, x, ofFact, p) then [] else [p])
  {
    if s == [] {
      assert [] + [p] == [p];
      assert [p][1..] == [];
    } else {
      var head := if Cuts(m, x, ofFact, s[0]) then [] else [s[0]];
      var tail := if Cuts(m, x, ofFact, p) then [] else [p];
      var rest := KeepUncut(s[1..], m, x, ofFact);
      assert (s + [p])[0] == s[0] && (s + [p])[1..] == s[1..] + [p];
      KeepUncutSnoc(s[1..], p, m, x, ofFact);
      assert KeepUncut(s + [p], m, x, ofFact) == head + (rest + tail);
      assert head + (rest + tail) == (head + rest) + tail;
    }
  }

  /** The pairs kept are exactly the pairs of `s` that are not cut. */
  lemma {:induction false} KeepUncutMembers(s: seq<Support>, m: Mode, x: Key, ofFact: bool)
    ensures forall p :: p in KeepUncut(s, m, x, ofFact) <==> p in s && !Cuts(m, x, ofFact, p)
  {
    if s != [] {
      KeepUncutMembers(s[1..], m, x, ofFact);
      assert s == [s[0]] + s[1..];
    }
  }

  /** What the cascade leaves of a dependent's `supported_by`. */
  function Trim(m: Mode, s: seq<Support>, x: Key, ofFact: bool): (r: seq<Support>)
    ensures forall p :: p in r ==> p in s
    ensures forall p :: p in s && !Cuts(m, x, ofFact, p) ==> p in r
  {
    match m
    case AsWritten => RemoveWhileIterating(s, 0, m, x, ofFact)
    case Corrected =>
      KeepUncutMembers(s, m, x, ofFact);
      KeepUncut(s, m, x, ofFact)
  }

  /** `kb_retract(x)`. An absent item, where the source fails, leaves the store as it is. */
  function Retracted(kb: KB, x: Key, m: Mode): (r: KB)
    ensures Size(r) <= Size(kb)
    decreases Size(kb), 1
  {
    match x
    case OfFact(s) =>
      (match FindFact(kb.facts, s)
       case None => kb
       case Some(i) =>
         var f := kb.facts[i];
         if f.asserted && |f.supportedBy| == 0 then Unlink(kb, x, m)
         else if f.asserted && |f.supportedBy| > 0 then kb.(facts := kb.facts[i := f.(asserted := false)])
         else if !f.asserted && |f.supportedBy| == 0 then Unlink(kb, x, m)
         else kb)
    case OfRule(k) =>
      (match FindRule(kb.rules, k)
       case None => kb
       case Some(i) =>
         var rl := kb.rules[i];
         if rl.asserted && |rl.supportedBy| == 0 then Unlink(kb, x, m)
         else if rl.asserted && |rl.supportedBy| > 0 then kb.(rules := kb.rules[i := rl.(asserted := false)])
         else if !rl.asserted && |rl.supportedBy| == 0 then Unlink(kb, x, m)
         else kb)
  }

  /** Takes the stored `x` out of its list, then runs the cascade over what it supported. */
  function Unlink(kb: KB, x: Key, m: Mode): (r: KB)
    requires Has(kb, x)
    ensures Size(r) < Size(kb)
    decreases Size(kb), 0
  {
    match x
    case OfFact(s) =>
      var i := FindFact(kb.facts, s).value;
      var f := kb.facts[i];
      Cascade(kb.(facts := RemoveAt(kb.facts, i)), x, Dependents(f.supportsFacts, f.supportsRules), m)
    case OfRule(k) =>
      var i := FindRule(kb.rules, k).value;
      var rl := kb.rules[i];
      Cascade(kb.(rules := RemoveAt(kb.rules, i)), x, Dependents(rl.supportsFacts, rl.supportsRules), m)
  }

  /** The cascade out of `x` over its dependents, in order. */
  function Cascade(kb: KB, x: Key, deps: seq<Key>, m: Mode): (r: KB)
    ensures Size(r) <= Size(kb)
    decreases Size(kb), 3, |deps|
  {
    if deps == [] then kb
    else
      var kb1 := Step(kb, x, deps[0], m);
      Cascade(kb1, x, deps[1..], m)
  }

  /** One turn of the cascade: the first dependent's step, then the rest. */
  lemma CascadeFirst(kb: KB, x: Key, deps: seq<Key>, m: Mode)
    requires deps != []
    ensures Cascade(kb, x, deps, m) == Cascade(Step(kb, x, deps[0], m), x, deps[1..], m)
  {
  }

  /** The cascade over `deps` followed by `d` is the cascade over `deps`, then
      the step on `d`: the order a loop over the dependents runs in. */
  lemma {:induction false} CascadeSnoc(kb: KB, x: Key, deps: seq<Key>, d: Key, m: Mode)
    decreases |deps|
    ensures Cascade(kb, x, deps + [d], m) == Step(Cascade(kb, x, deps, m), x, d, m)
  {
    if deps == [] {
      assert [] + [d] == [d];
      CascadeFirst(kb, x, [d], m);
    } else {
      assert (deps + [d])[0] == deps[0] && (deps + [d])[1..] == deps[1..] + [d];
      CascadeFirst(kb, x, deps + [d], m);
      CascadeFirst(kb, x, deps, m);
      CascadeSnoc(Step(kb, x, deps[0], m), x, deps[1..], d, m);
    }
  }

  /** One dependent: trim its support pairs, and when none are left and it is not
      asserted, retract it too (which takes it out and cascades on). A dependent
      no longer stored is passed over. */
  function Step(kb: KB, x: Key, d: Key, m: Mode): (r: KB)
    ensures Size(r) <= Size(kb)
    decreases Size(kb), 2
  {
    match d
    case OfFact(s) =>
      (match FindFact(kb.facts, s)
       case None => kb
       case Some(j) =>
         var f := kb.facts[j];
         var f' := f.(supportedBy := Trim(m, f.supportedBy, x, true));
         var kb2 := kb.(facts := kb.facts[j := f']);
         assert kb2.facts[j].statement == s;
         if |f'.supportedBy| == 0 && !f'.asserted then Retracted(kb2, d, m) else kb2)
    case OfRule(k) =>
      (match FindRule(kb.rules, k)
       case None => kb
       case Some(j) =>
         var rl := kb.rules[j];
         var rl' := rl.(supportedBy := Trim(m, rl.supportedBy, x, false));
         var kb2 := kb.(rules := kb.rules[j := rl']);
         assert kb2.rules[j].Key() == k;
         if |rl'.supportedBy| == 0 && !rl'.asserted then Retracted(kb2, d, m) else kb2)
  }

  /** The step on a dependent fact as the source runs it when the recorded
      dependent is a separate object rather than the stored fact: `fc_infer`
      records the fact object it built, and when `kb_add` merged that object's
      pairs into an equal stored fact, the object itself stayed outside the store.
      The object's own pairs are trimmed, not the stored fact's; when the object is
      left with none and is not asserted, `kb_retract` of it looks up the stored
      fact and decides on the stored fact's flag and pairs. */
  function StepOnCopy(kb: KB, x: Key, copy: Fact, m: Mode): (r: KB)
    ensures Size(r) <= Size(kb)
    ensures |Trim(m, copy.supportedBy, x, true)| > 0 || copy.asserted ==> r == kb
  {
    if |Trim(m, copy.supportedBy, x, true)| == 0 && !copy.asserted then Retracted(kb, OfFact(copy.statement), m)
    else kb
  }

  // ---------------------------------------------------------------------------
  // What retraction keeps, stated on the views of the store

  /** `b` is `a` after retraction's edits: some support pairs gone, the flag
      perhaps cleared, and nothing else changed. */
  ghost predicate TrimmedFact(a: Fact, b: Fact) {
    && b == a.(asserted := b.asserted, supportedBy := b.supportedBy)
    && (b.asserted ==> a.asserted)
    && (forall p :: p in b.supportedBy ==> p in a.supportedBy)
  }

  ghost predicate TrimmedRule(a: Rule, b: Rule) {
    && b == a.(asserted := b.asserted, supportedBy := b.supportedBy)
    && (b.asserted ==> a.asserted)
    && (forall p :: p in b.supportedBy ==> p in a.supportedBy)
  }

  /** `b` is `a` with items taken out and items trimmed, and without duplicates;
      every item asserted in `a`, other than those in `except`, is still stored
      and asserted in `b`. */
  ghost predicate Shrinks(a: KB, b: KB, except: set<Key>) {
    && Unique(b)
    && (forall s :: s in FactView(b.facts) ==>
          s in FactView(a.facts) && TrimmedFact(FactView(a.facts)[s], FactView(b.facts)[s]))
    && (forall k :: k in RuleView(b.rules) ==>
          k in RuleView(a.rules) && TrimmedRule(RuleView(a.rules)[k], RuleView(b.rules)[k]))
    && (forall s :: s in FactView(a.facts) && FactView(a.facts)[s].asserted && OfFact(s) !in except ==>
          s in FactView(b.facts) && FactView(b.facts)[s].asserted)
    && (forall k :: k in RuleView(a.rules) && RuleView(a.rules)[k].asserted && OfRule(k) !in except ==>
          k in RuleView(b.rules) && RuleView(b.rules)[k].asserted)
  }

  /** Every stored item outside `except` is asserted or supported. */
  ghost predicate JustifiedBut(kb: KB, except: set<Key>) {
    && (forall s :: s in FactView(kb.facts) && OfFact(s) !in except ==> FactView(kb.facts)[s].Justified())
    && (forall k :: k in RuleView(kb.rules) && OfRule(k) !in except ==> RuleView(kb.rules)[k].Justified())
  }

  /** `x` is no longer stored. */
  ghost predicate Gone(kb: KB, x: Key) {
    match x
    case OfFact(s) => s !in FactView(kb.facts)
    case OfRule(k) => k !in RuleView(kb.rules)
  }

  lemma ShrinksTrans(a: KB, b: KB, c: KB, e1: set<Key>, e2: set<Key>)
    requires Shrinks(a, b, e1) && Shrinks(b, c, e2)
    ensures Shrinks(a, c, e1 + e2)
  {
  }

  lemma ShrinksRefl(kb: KB)
    requires Unique(kb)
    ensures Shrinks(kb, kb, {})
  {
  }

  /** Removing the stored `x`. */
  lemma RemoveShrinks(kb: KB, x: Key)
    requires Unique(kb) && Has(kb, x)
    ensures var kb1 := match x
        case OfFact(s) => kb.(facts := RemoveAt(kb.facts, FindFact(kb.facts, s).value))
        case OfRule(k) => kb.(rules := RemoveAt(kb.rules, FindRule(kb.rules, k).value));
      && Shrinks(kb, kb1, {x}) && Gone(kb1, x) && Size(kb1) < Size(kb)
      && (JustifiedBut(kb, {x}) ==> JustifiedBut(kb1, {}))
  {
    match x {
      case OfFact(s) =>
        var i := FindFact(kb.facts, s).value;
        FactViewRemove(kb.facts, i);
      case OfRule(k) =>
        var i := FindRule(kb.rules, k).value;
        RuleViewRemove(kb.rules, i);
    }
  }

  /** Replacing the stored fact `f` by a trimmed copy. */
  lemma TrimFactShrinks(kb: KB, j: nat, f': Fact)
    requires Unique(kb) && FindFact(kb.facts, f'.statement) == Some(j)
    requires TrimmedFact(kb.facts[j], f') && f'.asserted == kb.facts[j].asserted
    ensures var kb2 := kb.(facts := kb.facts[j := f']);
      && Shrinks(kb, kb2, {}) && Size(kb2) == Size(kb)
      && FactView(kb2.facts) == FactView(kb.facts)[f'.statement := f']
      && (JustifiedBut(kb, {}) ==> JustifiedBut(kb2, {OfFact(f'.statement)}))
      && (JustifiedBut(kb, {}) && f'.Justified() ==> JustifiedBut(kb2, {}))
  {
    FactViewUpdate(kb.facts, j, f');
    FactViewFind(kb.facts, f'.statement);
  }

  lemma TrimRuleShrinks(kb: KB, j: nat, rl': Rule)
    requires Unique(kb) && FindRule(kb.rules, rl'.Key()) == Some(j)
    requires TrimmedRule(kb.rules[j], rl') && rl'.asserted == kb.rules[j].asserted
    ensures var kb2 := kb.(rules := kb.rules[j := rl']);
      && Shrinks(kb, kb2, {}) && Size(kb2) == Size(kb)
      && RuleView(kb2.rules) == RuleView(kb.rules)[rl'.Key() := rl']
      && (JustifiedBut(kb, {}) ==> JustifiedBut(kb2, {OfRule(rl'.Key())}))
      && (JustifiedBut(kb, {}) && rl'.Justified() ==> JustifiedBut(kb2, {}))
  {
    RuleViewUpdate(kb.rules, j, rl');
    RuleViewFind(kb.rules, rl'.Key());
  }

  /** `x` is stored and asserted. */
  ghost predicate IsAsserted(kb: KB, x: Key) {
    match x
    case OfFact(s) => s in FactView(kb.facts) && FactView(kb.facts)[s].asserted
    case OfRule(k) => k in RuleView(kb.rules) && RuleView(kb.rules)[k].asserted
  }

  lemma ShrinksWeaken(a: KB, b: KB, d: Key)
    requires Shrinks(a, b, {d}) && !IsAsserted(a, d)
    ensures Shrinks(a, b, {})
  {
  }

  /** Taking `x` out and cascading never restores it, never adds an item or a
      support pair, never clears an asserted item other than `x`, and leaves every
      remaining item justified. */
  lemma {:induction false} UnlinkShrinks(kb: KB, x: Key, m: Mode)
    requires Unique(kb) && Has(kb, x)
    decreases Size(kb), 0
    ensures Shrinks(kb, Unlink(kb, x, m), {x}) && Gone(Unlink(kb, x, m), x)
    ensures JustifiedBut(kb, {x}) ==> JustifiedBut(Unlink(kb, x, m), {})
  {
    var kb1: KB, deps: seq<Key>;
    match x {
      case OfFact(s) =>
        var i := FindFact(kb.facts, s).value;
        var f := kb.facts[i];
        kb1 := kb.(facts := RemoveAt(kb.facts, i));
        deps := Dependents(f.supportsFacts, f.supportsRules);
      case OfRule(k) =>
        var i := FindRule(kb.rules, k).value;
        var rl := kb.rules[i];
        kb1 := kb.(rules := RemoveAt(kb.rules, i));
        deps := Dependents(rl.supportsFacts, rl.supportsRules);
    }
    assert Unlink(kb, x, m) == Cascade(kb1, x, deps, m);
    RemoveShrinks(kb, x);
    CascadeShrinks(kb1, x, deps, m);
    ShrinksTrans(kb, kb1, Cascade(kb1, x, deps, m), {x}, {});
  }

  lemma {:induction false} CascadeShrinks(kb: KB, x: Key, deps: seq<Key>, m: Mode)
    requires Unique(kb)
    decreases Size(kb), 3, |deps|
    ensures Shrinks(kb, Cascade(kb, x, deps, m), {})
    ensures JustifiedBut(kb, {}) ==> JustifiedBut(Cascade(kb, x, deps, m), {})
  {
    if deps == [] {
      ShrinksRefl(kb);
    } else {
      var kb1 := Step(kb, x, deps[0], m);
      StepShrinks(kb, x, deps[0], m);
      CascadeShrinks(kb1, x, deps[1..], m);
      ShrinksTrans(kb, kb1, Cascade(kb1, x, deps[1..], m), {}, {});
    }
  }

  lemma {:induction false} StepShrinks(kb: KB, x: Key, d: Key, m: Mode)
    requires Unique(kb)
    decreases Size(kb), 2, 1
    ensures Shrinks(kb, Step(kb, x, d, m), {})
    ensures JustifiedBut(kb, {}) ==> JustifiedBut(Step(kb, x, d, m), {})
  {
    match d {
      case OfFact(s) =>
        if FindFact(kb.facts, s).None? {
          ShrinksRefl(kb);
        } else {
          StepFactShrinks(kb, x, s, m);
        }
      case OfRule(k) =>
        if FindRule(kb.rules, k).None? {
          ShrinksRefl(kb);
        } else {
          StepRuleShrinks(kb, x, k, m);
        }
    }
  }

  lemma {:induction false} StepFactShrinks(kb: KB, x: Key, s: Statement, m: Mode)
    requires Unique(kb) && HasFact(kb, s)
    decreases Size(kb), 2, 0
    ensures Shrinks(kb, Step(kb, x, OfFact(s), m), {})
    ensures JustifiedBut(kb, {}) ==> JustifiedBut(Step(kb, x, OfFact(s), m), {})
  {
    var d := OfFact(s);
    var j := FindFact(kb.facts, s).value;
    var f := kb.facts[j];
    var f' := f.(supportedBy := Trim(m, f.supportedBy, x, true));
    var kb2 := kb.(facts := kb.facts[j := f']);
    TrimFactShrinks(kb, j, f');
    if |f'.supportedBy| == 0 && !f'.asserted {
      assert kb2.facts[j].statement == s;
      assert Step(kb, x, d, m) == Retracted(kb2, d, m) == Unlink(kb2, d, m);
      FactViewFind(kb.facts, s);
      UnlinkShrinks(kb2, d, m);
      ShrinksTrans(kb, kb2, Unlink(kb2, d, m), {}, {d});
      ShrinksWeaken(kb, Unlink(kb2, d, m), d);
    } else {
      assert Step(kb, x, d, m) == kb2;
    }
  }

  lemma {:induction false} StepRuleShrinks(kb: KB, x: Key, k: RuleKey, m: Mode)
    requires Unique(kb) && HasRule(kb, k)
    decreases Size(kb), 2, 0
    ensures Shrinks(kb, Step(kb, x, OfRule(k), m), {})
    ensures JustifiedBut(kb, {}) ==> JustifiedBut(Step(kb, x, OfRule(k), m), {})
  {
    var d := OfRule(k);
    var j := FindRule(kb.rules, k).value;
    var rl := kb.rules[j];
    var rl' := rl.(supportedBy := Trim(m, rl.supportedBy, x, false));
    var kb2 := kb.(rules := kb.rules[j := rl']);
    TrimRuleShrinks(kb, j, rl');
    if |rl'.supportedBy| == 0 && !rl'.asserted {
      assert kb2.rules[j].Key() == k;
      assert Step(kb, x, d, m) == Retracted(kb2, d, m) == Unlink(kb2, d, m);
      RuleViewFind(kb.rules, k);
      UnlinkShrinks(kb2, d, m);
      ShrinksTrans(kb, kb2, Unlink(kb2, d, m), {}, {d});
      ShrinksWeaken(kb, Unlink(kb2, d, m), d);
    } else {
      assert Step(kb, x, d, m) == kb2;
    }
  }

  // ---------------------------------------------------------------------------
  // What kb_retract promises

  /** The support pairs of the stored `x`. */
  ghost function SupportOf(kb: KB, x: Key): seq<Support>
    requires Has(kb, x)
  {
    match x
    case OfFact(s) => StoredFact(kb, s).supportedBy
    case OfRule(k) => StoredRule(kb, k).supportedBy
  }

  /** The flag of the stored `x`. */
  ghost function AssertedOf(kb: KB, x: Key): bool
    requires Has(kb, x)
  {
    match x
    case OfFact(s) => StoredFact(kb, s).asserted
    case OfRule(k) => StoredRule(kb, k).asserted
  }

  /** `kb_retract` of an unsupported item, asserted or not, takes it out and
      cascades. */
  lemma RetractRemoves(kb: KB, x: Key, m: Mode)
    requires Unique(kb) && Has(kb, x) && |SupportOf(kb, x)| == 0
    ensures Retracted(kb, x, m) == Unlink(kb, x, m)
    ensures Gone(Retracted(kb, x, m), x)
  {
    UnlinkShrinks(kb, x, m);
  }

  /** `kb_retract` of an asserted item that also has support only clears its flag. */
  lemma RetractUnasserts(kb: KB, x: Key, m: Mode)
    requires Unique(kb) && Has(kb, x) && |SupportOf(kb, x)| > 0 && AssertedOf(kb, x)
    ensures Size(Retracted(kb, x, m)) == Size(kb)
    ensures Has(Retracted(kb, x, m), x) && !AssertedOf(Retracted(kb, x, m), x)
    ensures SupportOf(Retracted(kb, x, m), x) == SupportOf(kb, x)
    ensures x.OfFact? ==> Retracted(kb, x, m) == kb.(facts := kb.facts[
      FindFact(kb.facts, x.statement).value := StoredFact(kb, x.statement).(asserted := false)])
    ensures x.OfRule? ==> Retracted(kb, x, m) == kb.(rules := kb.rules[
      FindRule(kb.rules, x.rule).value := StoredRule(kb, x.rule).(asserted := false)])
    ensures Shrinks(kb, Retracted(kb, x, m), {x})
    ensures JustifiedBut(kb, {}) ==> JustifiedBut(Retracted(kb, x, m), {})
  {
    match x {
      case OfFact(s) =>
        var i := FindFact(kb.facts, s).value;
        var r := kb.(facts := kb.facts[i := kb.facts[i].(asserted := false)]);
        assert Retracted(kb, x, m) == r;
        UnassertFact(kb, i);
      case OfRule(k) =>
        var i := FindRule(kb.rules, k).value;
        var r := kb.(rules := kb.rules[i := kb.rules[i].(asserted := false)]);
        assert Retracted(kb, x, m) == r;
        UnassertRule(kb, i);
    }
  }

  /** Clearing the flag of the stored fact at `i`. */
  lemma UnassertFact(kb: KB, i: nat)
    requires Unique(kb) && i < |kb.facts|
    ensures var f' := kb.facts[i].(asserted := false);
      var r := kb.(facts := kb.facts[i := f']);
      && Size(r) == Size(kb)
      && FindFact(r.facts, f'.statement) == Some(i) && r.facts[i] == f'
      && FactView(r.facts) == FactView(kb.facts)[f'.statement := f']
      && Shrinks(kb, r, {OfFact(f'.statement)})
      && (JustifiedBut(kb, {}) && f'.Justified() ==> JustifiedBut(r, {}))
  {
    var s := kb.facts[i].statement;
    var f' := kb.facts[i].(asserted := false);
    var r := kb.(facts := kb.facts[i := f']);
    FindFactAt(kb.facts, i);
    FactViewUpdate(kb.facts, i, f');
    FactViewFind(kb.facts, s);
    FindFactStable(kb.facts, r.facts, s);
  }

  lemma UnassertRule(kb: KB, i: nat)
    requires Unique(kb) && i < |kb.rules|
    ensures var rl' := kb.rules[i].(asserted := false);
      var r := kb.(rules := kb.rules[i := rl']);
      && Size(r) == Size(kb)
      && FindRule(r.rules, rl'.Key()) == Some(i) && r.rules[i] == rl'
      && RuleView(r.rules) == RuleView(kb.rules)[rl'.Key() := rl']
      && Shrinks(kb, r, {OfRule(rl'.Key())})
      && (JustifiedBut(kb, {}) && rl'.Justified() ==> JustifiedBut(r, {}))
  {
    var k := kb.rules[i].Key();
    var rl' := kb.rules[i].(asserted := false);
    var r := kb.(rules := kb.rules[i := rl']);
    FindRuleAt(kb.rules, i);
    RuleViewUpdate(kb.rules, i, rl');
    RuleViewFind(kb.rules, k);
    FindRuleStable(kb.rules, r.rules, k);
  }

  /** `kb_retract` of an item that is supported but not asserted, or of an item not
      stored, changes nothing. */
  lemma RetractKeeps(kb: KB, x: Key, m: Mode)
    requires Has(kb, x) ==> |SupportOf(kb, x)| > 0 && !AssertedOf(kb, x)
    ensures Retracted(kb, x, m) == kb
  {
  }

  /** A shrink that may only drop `x`, and leaves `x` unasserted, changes the
      asserted items by exactly `x`. */
  lemma ShrinksAsserted(a: KB, b: KB, x: Key)
    requires Shrinks(a, b, {x}) && !IsAsserted(b, x)
    ensures forall y :: IsAsserted(b, y) <==> IsAsserted(a, y) && y != x
  {
    forall y ensures IsAsserted(b, y) <==> IsAsserted(a, y) && y != x {
      match y {
        case OfFact(s) =>
        case OfRule(k) =>
      }
    }
  }

  /** Retraction takes away the asserted status of `x` and of nothing else: the
      cascade only ever removes items that are not asserted. It adds no item and no
      support pair, keeps the store free of duplicates, and leaves every remaining
      item asserted or supported. */
  lemma RetractUnassertsOnly(kb: KB, x: Key, m: Mode)
    requires Unique(kb)
    ensures forall y :: IsAsserted(Retracted(kb, x, m), y) <==> IsAsserted(kb, y) && y != x
    ensures Shrinks(kb, Retracted(kb, x, m), {x})
    ensures JustifiedBut(kb, {}) ==> JustifiedBut(Retracted(kb, x, m), {})
  {
    var r := Retracted(kb, x, m);
    match x {
      case OfFact(s) => FactViewFind(kb.facts, s);
      case OfRule(k) => RuleViewFind(kb.rules, k);
    }
    if Has(kb, x) && |SupportOf(kb, x)| == 0 {
      RetractRemoves(kb, x, m);
      UnlinkShrinks(kb, x, m);
      assert Shrinks(kb, r, {x}) && Gone(r, x);
      assert !IsAsserted(r, x);
    } else if Has(kb, x) && AssertedOf(kb, x) {
      RetractUnasserts(kb, x, m);
      match x {
        case OfFact(s) => FactViewFind(r.facts, s);
        case OfRule(k) => RuleViewFind(r.rules, k);
      }
      assert !IsAsserted(r, x);
    } else {
      RetractKeeps(kb, x, m);
      ShrinksRefl(kb);
      assert !IsAsserted(kb, x);
      assert Shrinks(kb, r, {x});
    }
    ShrinksAsserted(kb, r, x);
  }

  /** The support pair `p` names `x` as its rule or as its fact. */
  predicate Mentions(x: Key, p: Support) {
    x == OfRule(p.rule) || x == OfFact(p.fact)
  }

  /** The stored `d`, if any, has no support pair that names `x`. */
  ghost predicate Clear(kb: KB, x: Key, d: Key) {
    match d
    case OfFact(s) => s in FactView(kb.facts) ==>
      forall p :: p in FactView(kb.facts)[s].supportedBy ==> !Mentions(x, p)
    case OfRule(k) => k in RuleView(kb.rules) ==>
      forall p :: p in RuleView(kb.rules)[k].supportedBy ==> !Mentions(x, p)
  }

  lemma ClearShrinks(a: KB, b: KB, e: set<Key>, x: Key, d: Key)
    requires Shrinks(a, b, e) && Clear(a, x, d)
    ensures Clear(b, x, d)
  {
  }

  /** After the corrected step on `d`, no support pair of `d` names `x`. */
  lemma StepClears(kb: KB, x: Key, d: Key)
    requires Unique(kb)
    ensures Clear(Step(kb, x, d, Corrected), x, d)
  {
    match d {
      case OfFact(s) =>
        FactViewFind(kb.facts, s);
        match FindFact(kb.facts, s) {
          case None =>
          case Some(j) =>
            var f := kb.facts[j];
            var f' := f.(supportedBy := Trim(Corrected, f.supportedBy, x, true));
            var kb2 := kb.(facts := kb.facts[j := f']);
            KeepUncutMembers(f.supportedBy, Corrected, x, true);
            TrimFactShrinks(kb, j, f');
            assert kb2.facts[j].statement == s;
            if |f'.supportedBy| == 0 && !f'.asserted {
              assert Step(kb, x, d, Corrected) == Retracted(kb2, d, Corrected) == Unlink(kb2, d, Corrected);
              UnlinkShrinks(kb2, d, Corrected);
            } else {
              assert Step(kb, x, d, Corrected) == kb2;
            }
        }
      case OfRule(k) =>
        RuleViewFind(kb.rules, k);
        match FindRule(kb.rules, k) {
          case None =>
          case Some(j) =>
            var rl := kb.rules[j];
            var rl' := rl.(supportedBy := Trim(Corrected, rl.supportedBy, x, false));
            var kb2 := kb.(rules := kb.rules[j := rl']);
            KeepUncutMembers(rl.supportedBy, Corrected, x, false);
            TrimRuleShrinks(kb, j, rl');
            assert kb2.rules[j].Key() == k;
            if |rl'.supportedBy| == 0 && !rl'.asserted {
              assert Step(kb, x, d, Corrected) == Retracted(kb2, d, Corrected) == Unlink(kb2, d, Corrected);
              UnlinkShrinks(kb2, d, Corrected);
            } else {
              assert Step(kb, x, d, Corrected) == kb2;
            }
        }
    }
  }

  /** After the corrected cascade, no dependent it visited keeps a pair naming `x`. */
  lemma {:induction false} CascadeClears(kb: KB, x: Key, deps: seq<Key>)
    requires Unique(kb)
    decreases |deps|
    ensures forall j :: 0 <= j < |deps| ==> Clear(Cascade(kb, x, deps, Corrected), x, deps[j])
  {
    if deps != [] {
      var kb1 := Step(kb, x, deps[0], Corrected);
      var r := Cascade(kb1, x, deps[1..], Corrected);
      assert Cascade(kb, x, deps, Corrected) == r;
      StepClears(kb, x, deps[0]);
      StepShrinks(kb, x, deps[0], Corrected);
      CascadeShrinks(kb1, x, deps[1..], Corrected);
      ClearShrinks(kb1, r, {}, x, deps[0]);
      CascadeClears(kb1, x, deps[1..]);
      forall j | 0 <= j < |deps| ensures Clear(r, x, deps[j]) {
        if j > 0 {
          assert deps[j] == deps[1..][j - 1];
        }
      }
    }
  }

  /** Retracting an unsupported item with the corrected cascade: the item is gone,
      and none of the facts and rules it recorded as dependents is left holding a
      support pair that names it (each such dependent lost those pairs, and was
      itself retracted when no support and no assertion remained). */
  lemma RetractCuts(kb: KB, x: Key)
    requires Unique(kb) && Has(kb, x) && |SupportOf(kb, x)| == 0
    ensures Gone(Retracted(kb, x, Corrected), x)
    ensures forall d :: d in DepsOf(kb, x) ==> Clear(Retracted(kb, x, Corrected), x, d)
  {
    RetractRemoves(kb, x, Corrected);
    var kb1: KB;
    match x {
      case OfFact(s) =>
        FactViewFind(kb.facts, s);
        var i := FindFact(kb.facts, s).value;
        kb1 := kb.(facts := RemoveAt(kb.facts, i));
      case OfRule(k) =>
        RuleViewFind(kb.rules, k);
        var i := FindRule(kb.rules, k).value;
        kb1 := kb.(rules := RemoveAt(kb.rules, i));
    }
    assert Unlink(kb, x, Corrected) == Cascade(kb1, x, DepsOf(kb, x), Corrected);
    RemoveShrinks(kb, x);
    CascadeClears(kb1, x, DepsOf(kb, x));
  }

  /** Over a store without duplicates, justification read off the lists and off
      the views agree. */
  lemma JustifiedViews(kb: KB)
    requires Unique(kb)
    ensures AllJustified(kb) <==> JustifiedBut(kb, {})
  {
    forall s | s in FactView(kb.facts)
      ensures FindFact(kb.facts, s).Some? && FactView(kb.facts)[s] == kb.facts[FindFact(kb.facts, s).value]
    {
      FactViewFind(kb.facts, s);
    }
    forall k | k in RuleView(kb.rules)
      ensures FindRule(kb.rules, k).Some? && RuleView(kb.rules)[k] == kb.rules[FindRule(kb.rules, k).value]
    {
      RuleViewFind(kb.rules, k);
    }
    forall i | 0 <= i < |kb.facts|
      ensures kb.facts[i].statement in FactView(kb.facts) && FactView(kb.facts)[kb.facts[i].statement] == kb.facts[i]
    {
      FactViewHolds(kb.facts, i);
    }
    forall i | 0 <= i < |kb.rules|
      ensures kb.rules[i].Key() in RuleView(kb.rules) && RuleView(kb.rules)[kb.rules[i].Key()] == kb.rules[i]
    {
      RuleViewHolds(kb.rules, i);
    }
  }

  /** Every stored rule has a first antecedent exactly when every key in the rule
      view has one. */
  lemma AntecedentViews(kb: KB)
    requires Unique(kb)
    ensures RulesHaveAntecedents(kb) <==> forall k :: k in RuleView(kb.rules) ==> |k.lhs| > 0
  {
    forall k | k in RuleView(kb.rules)
      ensures FindRule(kb.rules, k).Some? && kb.rules[FindRule(kb.rules, k).value].Key() == k
    {
      RuleViewFind(kb.rules, k);
    }
    forall i | 0 <= i < |kb.rules| ensures kb.rules[i].Key() in RuleView(kb.rules) {
      RuleViewHolds(kb.rules, i);
    }
  }

  /** Retraction keeps the store's invariants: no duplicates, every item asserted
      or supported, every rule with a first antecedent. */
  lemma RetractKeepsValid(kb: KB, x: Key, m: Mode)
    requires Unique(kb) && AllJustified(kb) && RulesHaveAntecedents(kb)
    ensures Unique(Retracted(kb, x, m))
    ensures AllJustified(Retracted(kb, x, m))
    ensures RulesHaveAntecedents(Retracted(kb, x, m))
  {
    var r := Retracted(kb, x, m);
    RetractUnassertsOnly(kb, x, m);
    JustifiedViews(kb);
    JustifiedViews(r);
    AntecedentViews(kb);
    AntecedentViews(r);
  }

  // ---------------------------------------------------------------------------
  // Retraction takes away only what lost its support

  /** `y` is stored in `a` and no longer stored in `b`. */
  ghost predicate Lost(a: KB, b: KB, y: Key) {
    !Gone(a, y) && Gone(b, y)
  }

  /** The support pair `p` names `x`, or names an item stored in `a` and gone from `b`. */
  ghost predicate Undermined(a: KB, b: KB, x: Key, p: Support) {
    Mentions(x, p) || Lost(a, b, OfRule(p.rule)) || Lost(a, b, OfFact(p.fact))
  }

  /** Every support pair that an item other than `x` has in `a` and no longer has
      in `b`, whether the pair was trimmed or the item taken out, is undermined. */
  ghost predicate DropsOnly(a: KB, b: KB, x: Key) {
    FactsDropOnly(a, b, x) && RulesDropOnly(a, b, x)
  }

  ghost predicate FactsDropOnly(a: KB, b: KB, x: Key) {
    forall s, p ::
      (s in FactView(a.facts) && p in FactView(a.facts)[s].supportedBy && OfFact(s) != x
       && !(s in FactView(b.facts) && p in FactView(b.facts)[s].supportedBy))
      ==> Undermined(a, b, x, p)
  }

  ghost predicate RulesDropOnly(a: KB, b: KB, x: Key) {
    forall k, p ::
      (k in RuleView(a.rules) && p in RuleView(a.rules)[k].supportedBy && OfRule(k) != x
       && !(k in RuleView(b.rules) && p in RuleView(b.rules)[k].supportedBy))
      ==> Undermined(a, b, x, p)
  }

  /** The stored `y`, if any, has no support pairs. */
  ghost predicate Bare(kb: KB, y: Key) {
    match y
    case OfFact(s) => s in FactView(kb.facts) ==> FactView(kb.facts)[s].supportedBy == []
    case OfRule(k) => k in RuleView(kb.rules) ==> RuleView(kb.rules)[k].supportedBy == []
  }

  /** Two retraction steps in a row: the second, out of `y`, undermines what it
      drops either through `x` itself or through `y`, which the two steps took
      out and which had no pairs of its own left to drop. */
  lemma DropsOnlyTrans(a: KB, b: KB, c: KB, e1: set<Key>, e2: set<Key>, x: Key, y: Key)
    requires Shrinks(a, b, e1) && Shrinks(b, c, e2)
    requires DropsOnly(a, b, x) && DropsOnly(b, c, y)
    requires y == x || (Lost(a, c, y) && Bare(b, y))
    ensures DropsOnly(a, c, x)
  {
    FactsDropOnlyTrans(a, b, c, e1, e2, x, y);
    RulesDropOnlyTrans(a, b, c, e1, e2, x, y);
  }

  lemma FactsDropOnlyTrans(a: KB, b: KB, c: KB, e1: set<Key>, e2: set<Key>, x: Key, y: Key)
    requires Shrinks(a, b, e1) && Shrinks(b, c, e2)
    requires FactsDropOnly(a, b, x) && FactsDropOnly(b, c, y)
    requires y == x || (Lost(a, c, y) && Bare(b, y))
    ensures FactsDropOnly(a, c, x)
  {
    forall s, p | s in FactView(a.facts) && p in FactView(a.facts)[s].supportedBy && OfFact(s) != x
        && !(s in FactView(c.facts) && p in FactView(c.facts)[s].supportedBy)
      ensures Undermined(a, c, x, p)
    {
      if s in FactView(b.facts) && p in FactView(b.facts)[s].supportedBy {
        assert Undermined(b, c, y, p);
        UnderminedTrans(a, b, c, e1, e2, x, y, p);
      } else {
        assert Undermined(a, b, x, p);
        UnderminedTrans(a, b, c, e1, e2, x, x, p);
      }
    }
  }

  lemma RulesDropOnlyTrans(a: KB, b: KB, c: KB, e1: set<Key>, e2: set<Key>, x: Key, y: Key)
    requires Shrinks(a, b, e1) && Shrinks(b, c, e2)
    requires RulesDropOnly(a, b, x) && RulesDropOnly(b, c, y)
    requires y == x || (Lost(a, c, y) && Bare(b, y))
    ensures RulesDropOnly(a, c, x)
  {
    forall k, p | k in RuleView(a.rules) && p in RuleView(a.rules)[k].supportedBy && OfRule(k) != x
        && !(k in RuleView(c.rules) && p in RuleView(c.rules)[k].supportedBy)
      ensures Undermined(a, c, x, p)
    {
      if k in RuleView(b.rules) && p in RuleView(b.rules)[k].supportedBy {
        assert Undermined(b, c, y, p);
        UnderminedTrans(a, b, c, e1, e2, x, y, p);
      } else {
        assert Undermined(a, b, x, p);
        UnderminedTrans(a, b, c, e1, e2, x, x, p);
      }
    }
  }

  /** A pair undermined in either of two steps is undermined across both. */
  lemma UnderminedTrans(a: KB, b: KB, c: KB, e1: set<Key>, e2: set<Key>, x: Key, y: Key, p: Support)
    requires Shrinks(a, b, e1) && Shrinks(b, c, e2)
    requires y == x || Lost(a, c, y)
    requires Undermined(a, b, x, p) || Undermined(b, c, y, p)
    ensures Undermined(a, c, x, p)
  {
  }

  lemma DropsOnlyRefl(kb: KB, x: Key)
    ensures DropsOnly(kb, kb, x)
  {
  }

  /** Taking out the stored `x` drops only the pairs of `x` itself. */
  lemma RemoveDropsOnly(kb: KB, x: Key)
    requires Unique(kb) && Has(kb, x)
    ensures var kb1 := match x
        case OfFact(s) => kb.(facts := RemoveAt(kb.facts, FindFact(kb.facts, s).value))
        case OfRule(k) => kb.(rules := RemoveAt(kb.rules, FindRule(kb.rules, k).value));
      DropsOnly(kb, kb1, x)
  {
    match x {
      case OfFact(s) => FactViewRemove(kb.facts, FindFact(kb.facts, s).value);
      case OfRule(k) => RuleViewRemove(kb.rules, FindRule(kb.rules, k).value);
    }
  }

  /** Trimming the stored fact at `j` of pairs that name `x`. */
  lemma TrimFactDropsOnly(kb: KB, j: nat, f': Fact, x: Key)
    requires Unique(kb) && FindFact(kb.facts, f'.statement) == Some(j)
    requires TrimmedFact(kb.facts[j], f') && f'.asserted == kb.facts[j].asserted
    requires forall p :: p in kb.facts[j].supportedBy && p !in f'.supportedBy ==> Mentions(x, p)
    ensures DropsOnly(kb, kb.(facts := kb.facts[j := f']), x)
  {
    TrimFactShrinks(kb, j, f');
    FactViewFind(kb.facts, f'.statement);
  }

  lemma TrimRuleDropsOnly(kb: KB, j: nat, rl': Rule, x: Key)
    requires Unique(kb) && FindRule(kb.rules, rl'.Key()) == Some(j)
    requires TrimmedRule(kb.rules[j], rl') && rl'.asserted == kb.rules[j].asserted
    requires forall p :: p in kb.rules[j].supportedBy && p !in rl'.supportedBy ==> Mentions(x, p)
    ensures DropsOnly(kb, kb.(rules := kb.rules[j := rl']), x)
  {
    TrimRuleShrinks(kb, j, rl');
    RuleViewFind(kb.rules, rl'.Key());
  }

  lemma {:induction false} UnlinkDropsOnly(kb: KB, x: Key, m: Mode)
    requires Unique(kb) && Has(kb, x)
    decreases Size(kb), 0
    ensures DropsOnly(kb, Unlink(kb, x, m), x)
  {
    var kb1: KB, deps: seq<Key>;
    match x {
      case OfFact(s) =>
        var i := FindFact(kb.facts, s).value;
        var f := kb.facts[i];
        kb1 := kb.(facts := RemoveAt(kb.facts, i));
        deps := Dependents(f.supportsFacts, f.supportsRules);
      case OfRule(k) =>
        var i := FindRule(kb.rules, k).value;
        var rl := kb.rules[i];
        kb1 := kb.(rules := RemoveAt(kb.rules, i));
        deps := Dependents(rl.supportsFacts, rl.supportsRules);
    }
    assert Unlink(kb, x, m) == Cascade(kb1, x, deps, m);
    RemoveShrinks(kb, x);
    RemoveDropsOnly(kb, x);
    CascadeShrinks(kb1, x, deps, m);
    CascadeDropsOnly(kb1, x, deps, m);
    DropsOnlyTrans(kb, kb1, Cascade(kb1, x, deps, m), {x}, {}, x, x);
  }

  lemma {:induction false} CascadeDropsOnly(kb: KB, x: Key, deps: seq<Key>, m: Mode)
    requires Unique(kb)
    decreases Size(kb), 3, |deps|
    ensures DropsOnly(kb, Cascade(kb, x, deps, m), x)
  {
    if deps == [] {
      DropsOnlyRefl(kb, x);
    } else {
      var kb1 := Step(kb, x, deps[0], m);
      StepShrinks(kb, x, deps[0], m);
      StepDropsOnly(kb, x, deps[0], m);
      CascadeShrinks(kb1, x, deps[1..], m);
      CascadeDropsOnly(kb1, x, deps[1..], m);
      DropsOnlyTrans(kb, kb1, Cascade(kb1, x, deps[1..], m), {}, {}, x, x);
    }
  }

  lemma {:induction false} StepDropsOnly(kb: KB, x: Key, d: Key, m: Mode)
    requires Unique(kb)
    decreases Size(kb), 2, 1
    ensures DropsOnly(kb, Step(kb, x, d, m), x)
  {
    match d {
      case OfFact(s) =>
        if FindFact(kb.facts, s).None? {
          DropsOnlyRefl(kb, x);
        } else {
          StepFactDropsOnly(kb, x, s, m);
        }
      case OfRule(k) =>
        if FindRule(kb.rules, k).None? {
          DropsOnlyRefl(kb, x);
        } else {
          StepRuleDropsOnly(kb, x, k, m);
        }
    }
  }

  lemma {:induction false} StepFactDropsOnly(kb: KB, x: Key, s: Statement, m: Mode)
    requires Unique(kb) && HasFact(kb, s)
    decreases Size(kb), 2, 0
    ensures DropsOnly(kb, Step(kb, x, OfFact(s), m), x)
  {
    var d := OfFact(s);
    var j := FindFact(kb.facts, s).value;
    var f := kb.facts[j];
    var f' := f.(supportedBy := Trim(m, f.supportedBy, x, true));
    var kb2 := kb.(facts := kb.facts[j := f']);
    TrimFactDropsOnly(kb, j, f', x);
    if |f'.supportedBy| == 0 && !f'.asserted {
      assert kb2.facts[j].statement == s;
      assert Step(kb, x, d, m) == Retracted(kb2, d, m) == Unlink(kb2, d, m);
      TrimFactShrinks(kb, j, f');
      FactViewFind(kb.facts, s);
      UnlinkShrinks(kb2, d, m);
      UnlinkDropsOnly(kb2, d, m);
      DropsOnlyTrans(kb, kb2, Unlink(kb2, d, m), {}, {d}, x, d);
    } else {
      assert Step(kb, x, d, m) == kb2;
    }
  }

  lemma {:induction false} StepRuleDropsOnly(kb: KB, x: Key, k: RuleKey, m: Mode)
    requires Unique(kb) && HasRule(kb, k)
    decreases Size(kb), 2, 0
    ensures DropsOnly(kb, Step(kb, x, OfRule(k), m), x)
  {
    var d := OfRule(k);
    var j := FindRule(kb.rules, k).value;
    var rl := kb.rules[j];
    var rl' := rl.(supportedBy := Trim(m, rl.supportedBy, x, false));
    var kb2 := kb.(rules := kb.rules[j := rl']);
    TrimRuleDropsOnly(kb, j, rl', x);
    if |rl'.supportedBy| == 0 && !rl'.asserted {
      assert kb2.rules[j].Key() == k;
      assert Step(kb, x, d, m) == Retracted(kb2, d, m) == Unlink(kb2, d, m);
      TrimRuleShrinks(kb, j, rl');
      RuleViewFind(kb.rules, k);
      UnlinkShrinks(kb2, d, m);
      UnlinkDropsOnly(kb2, d, m);
      DropsOnlyTrans(kb, kb2, Unlink(kb2, d, m), {}, {d}, x, d);
    } else {
      assert Step(kb, x, d, m) == kb2;
    }
  }

  /** Clearing the flag of a supported, asserted `x` drops no pair. */
  lemma UnassertDropsOnly(kb: KB, x: Key, m: Mode)
    requires Unique(kb) && Has(kb, x) && |SupportOf(kb, x)| > 0 && AssertedOf(kb, x)
    ensures DropsOnly(kb, Retracted(kb, x, m), x)
    ensures forall y :: Gone(Retracted(kb, x, m), y) <==> Gone(kb, y)
  {
    match x {
      case OfFact(s) =>
        var i := FindFact(kb.facts, s).value;
        assert Retracted(kb, x, m) == kb.(facts := kb.facts[i := kb.facts[i].(asserted := false)]);
        UnassertFact(kb, i);
      case OfRule(k) =>
        var i := FindRule(kb.rules, k).value;
        assert Retracted(kb, x, m) == kb.(rules := kb.rules[i := kb.rules[i].(asserted := false)]);
        UnassertRule(kb, i);
    }
  }

  /** Retraction takes out only what lost its support: every item other than `x`
      that is gone was not asserted, and every support pair an item other than `x`
      lost, whether the item survived or not, names `x` or names another item
      that the retraction took out. An item keeps any pair whose rule and fact
      both survive. The items taken out never excuse each other's loss: they
      come in an order in which each was recorded as a dependent by `x` or by an
      item before it, and held only pairs naming `x` or an item before it. */
  lemma RetractDropsOnly(kb: KB, x: Key, m: Mode)
    requires Unique(kb)
    ensures forall y :: y != x && Lost(kb, Retracted(kb, x, m), y) ==> !IsAsserted(kb, y)
    ensures DropsOnly(kb, Retracted(kb, x, m), x)
    ensures exists order :: Unwinds(kb, Retracted(kb, x, m), x, DepsOf(kb, x), order)
  {
    RetractUnassertsOnly(kb, x, m);
    match x {
      case OfFact(s) => FactViewFind(kb.facts, s);
      case OfRule(k) => RuleViewFind(kb.rules, k);
    }
    if Has(kb, x) && |SupportOf(kb, x)| == 0 {
      RetractRemoves(kb, x, m);
      UnlinkDropsOnly(kb, x, m);
      var order := UnlinkUnwinds(kb, x, m);
      assert Unwinds(kb, Retracted(kb, x, m), x, DepsOf(kb, x), order);
    } else if Has(kb, x) && AssertedOf(kb, x) {
      UnassertDropsOnly(kb, x, m);
      UnwindsNone(kb, Retracted(kb, x, m), x, DepsOf(kb, x));
    } else {
      RetractKeeps(kb, x, m);
      DropsOnlyRefl(kb, x);
      UnwindsNone(kb, kb, x, DepsOf(kb, x));
    }
  }

  // ---------------------------------------------------------------------------
  // The order retraction unwinds in

  /** `order` lists exactly the items other than `x` stored in `a` and gone from `b`. */
  ghost predicate LostListed(a: KB, b: KB, x: Key, order: seq<Key>) {
    && (forall y :: y != x && Lost(a, b, y) ==> y in order)
    && (forall i :: 0 <= i < |order| ==> order[i] != x && Lost(a, b, order[i]))
  }

  /** `order[i]` is one of the `roots`, or a dependent recorded by an item earlier in `order`. */
  ghost predicate Reached(a: KB, roots: seq<Key>, order: seq<Key>, i: nat)
    requires i < |order|
  {
    order[i] in roots || exists j :: 0 <= j < i && Records(a, order[j], order[i])
  }

  /** Every support pair `order[i]` has in `a` names `x` or an item earlier in `order`. */
  ghost predicate Undercut(a: KB, x: Key, order: seq<Key>, i: nat)
    requires i < |order|
  {
    forall p :: p in PairsOf(a, order[i]) ==> Mentions(x, p) || exists j :: 0 <= j < i && Mentions(order[j], p)
  }

  /** The cascade out of `x` over `roots` took out the items of `order`, in that
      order: each was reached from a root or from an item taken out before it, and
      each held only support pairs naming `x` or an item taken out before it. So
      the items taken out never excuse each other's loss: the first of them held
      only pairs naming `x`. */
  ghost predicate Unwinds(a: KB, b: KB, x: Key, roots: seq<Key>, order: seq<Key>) {
    && LostListed(a, b, x, order)
    && (forall i :: 0 <= i < |order| ==> Reached(a, roots, order, i))
    && (forall i :: 0 <= i < |order| ==> Undercut(a, x, order, i))
  }

  /** No root keeps a pair naming `x`, and no dependent recorded by an item of
      `order` keeps a pair naming that item. */
  ghost predicate Swept(a: KB, b: KB, x: Key, roots: seq<Key>, order: seq<Key>) {
    && (forall d :: d in roots ==> Clear(b, x, d))
    && (forall i, d :: 0 <= i < |order| && Records(a, order[i], d) ==> Clear(b, order[i], d))
  }

  /** `b` is `a` with `x` taken out and every other item as it was. */
  ghost predicate OnlyRemoves(a: KB, b: KB, x: Key) {
    && !Gone(a, x) && Gone(b, x)
    && forall y :: y != x ==> (Gone(b, y) <==> Gone(a, y)) && PairsOf(b, y) == PairsOf(a, y) && ListsOf(b, y) == ListsOf(a, y)
  }

  /** `b` is `a` with at most the support pairs of `d` changed. */
  ghost predicate OnlyPairsOf(a: KB, b: KB, d: Key) {
    forall y :: (Gone(b, y) <==> Gone(a, y)) && ListsOf(b, y) == ListsOf(a, y) && (y != d ==> PairsOf(b, y) == PairsOf(a, y))
  }

  lemma RemoveOnly(kb: KB, x: Key)
    requires Unique(kb) && Has(kb, x)
    ensures var kb1 := match x
        case OfFact(s) => kb.(facts := RemoveAt(kb.facts, FindFact(kb.facts, s).value))
        case OfRule(k) => kb.(rules := RemoveAt(kb.rules, FindRule(kb.rules, k).value));
      OnlyRemoves(kb, kb1, x)
  {
    match x {
      case OfFact(s) =>
        var i := FindFact(kb.facts, s).value;
        FactViewRemove(kb.facts, i);
        FactViewFind(kb.facts, s);
      case OfRule(k) =>
        var i := FindRule(kb.rules, k).value;
        RuleViewRemove(kb.rules, i);
        RuleViewFind(kb.rules, k);
    }
  }

  /** Nothing is taken out: the empty order. */
  lemma UnwindsNone(a: KB, b: KB, x: Key, roots: seq<Key>)
    requires forall y :: Gone(b, y) <==> Gone(a, y)
    ensures Unwinds(a, b, x, roots, [])
  {
  }

  /** Lifting the cascade out of `x` over the store `a1` it ran on to the store `a`
      from which `x` was taken out. */
  lemma RemovedUnwinds(a: KB, a1: KB, c: KB, x: Key, roots: seq<Key>, order: seq<Key>)
    requires OnlyRemoves(a, a1, x)
    requires Unwinds(a1, c, x, roots, order)
    ensures Unwinds(a, c, x, roots, order)
    ensures Swept(a1, c, x, roots, order) ==> Swept(a, c, x, roots, order)
  {
    forall i | 0 <= i < |order| ensures ListsOf(a, order[i]) == ListsOf(a1, order[i]) {
      assert order[i] != x;
    }
    forall i | 0 <= i < |order| ensures Reached(a, roots, order, i) && Undercut(a, x, order, i) {
      assert Reached(a1, roots, order, i) && Undercut(a1, x, order, i);
      assert PairsOf(a, order[i]) == PairsOf(a1, order[i]);
    }
  }

  /** Lifting the unlink of a dependent `d`, emptied of support by the step out of
      `x`, to the step: `d` comes first, then what its own cascade took out. */
  lemma StepLift(kb: KB, kb2: KB, c: KB, x: Key, d: Key, o: seq<Key>)
    requires Gone(kb, x) && !Gone(kb, d) && Gone(c, d)
    requires OnlyPairsOf(kb, kb2, d)
    requires forall p :: p in PairsOf(kb, d) ==> Mentions(x, p)
    requires Unwinds(kb2, c, d, DepsOf(kb2, d), o)
    ensures Unwinds(kb, c, x, [d], [d] + o)
    ensures Swept(kb2, c, d, DepsOf(kb2, d), o) ==> Swept(kb, c, x, [d], [d] + o)
  {
    var order := [d] + o;
    StepLiftListed(kb, kb2, c, x, d, o);
    assert order[0] == d;
    forall i | 0 <= i < |order| ensures Reached(kb, [d], order, i) && Undercut(kb, x, order, i) {
      if i > 0 {
        StepLiftAt(kb, kb2, c, x, d, o, i - 1);
      }
    }
    if Swept(kb2, c, d, DepsOf(kb2, d), o) {
      forall e | e in DepsOf(kb2, d) ensures Clear(c, d, e) {
        assert Clear(c, d, e);
      }
      forall i, e | 0 <= i < |order| && Records(kb, order[i], e) ensures Clear(c, order[i], e) {
        if i > 0 {
          assert order[i] == o[i - 1];
        } else {
          DepsOfRecords(kb2, d, e);
        }
      }
    }
  }

  lemma StepLiftListed(kb: KB, kb2: KB, c: KB, x: Key, d: Key, o: seq<Key>)
    requires Gone(kb, x) && !Gone(kb, d) && Gone(c, d)
    requires OnlyPairsOf(kb, kb2, d)
    requires LostListed(kb2, c, d, o)
    ensures LostListed(kb, c, x, [d] + o)
  {
    var order := [d] + o;
    assert order[0] == d;
    forall y | y != x && Lost(kb, c, y) ensures y in order {
      if y != d {
        assert Lost(kb2, c, y);
        var i :| 0 <= i < |o| && o[i] == y;
        assert order[i + 1] == y;
      }
    }
    forall i | 0 <= i < |order| ensures order[i] != x && Lost(kb, c, order[i]) {
      if i > 0 {
        assert order[i] == o[i - 1];
        assert Lost(kb2, c, o[i - 1]);
      }
    }
  }

  /** The item at `i + 1` of `[d] + o` is reached and undercut. */
  lemma StepLiftAt(kb: KB, kb2: KB, c: KB, x: Key, d: Key, o: seq<Key>, i: nat)
    requires i < |o|
    requires OnlyPairsOf(kb, kb2, d) && !Gone(kb, d)
    requires LostListed(kb2, c, d, o)
    requires Reached(kb2, DepsOf(kb2, d), o, i) && Undercut(kb2, d, o, i)
    ensures Reached(kb, [d], [d] + o, i + 1) && Undercut(kb, x, [d] + o, i + 1)
  {
    var order := [d] + o;
    assert order[0] == d && order[i + 1] == o[i] && o[i] != d;
    if o[i] in DepsOf(kb2, d) {
      DepsOfRecords(kb2, d, o[i]);
      assert ListsOf(kb2, d) == ListsOf(kb, d);
      ReachedLater(kb, [d], order, 0, i + 1);
    } else {
      var j :| 0 <= j < i && Records(kb2, o[j], o[i]);
      assert ListsOf(kb2, o[j]) == ListsOf(kb, o[j]);
      assert order[j + 1] == o[j];
      ReachedLater(kb, [d], order, j + 1, i + 1);
    }
    assert PairsOf(kb, o[i]) == PairsOf(kb2, o[i]);
    UndercutShift(kb, x, d, o, i);
  }

  /** `order[i]` recorded by `order[j]`, earlier, is reached. */
  lemma ReachedLater(a: KB, roots: seq<Key>, order: seq<Key>, j: nat, i: nat)
    requires j < i < |order| && Records(a, order[j], order[i])
    ensures Reached(a, roots, order, i)
  {
  }

  /** Pairs naming `d` or an earlier item of `o` name an earlier item of `[d] + o`. */
  lemma UndercutShift(a: KB, x: Key, d: Key, o: seq<Key>, i: nat)
    requires i < |o|
    requires forall p :: p in PairsOf(a, o[i]) ==> Mentions(d, p) || exists j :: 0 <= j < i && Mentions(o[j], p)
    ensures Undercut(a, x, [d] + o, i + 1)
  {
    var order := [d] + o;
    assert order[0] == d && order[i + 1] == o[i];
    forall p | p in PairsOf(a, order[i + 1])
      ensures Mentions(x, p) || exists j :: 0 <= j < i + 1 && Mentions(order[j], p)
    {
      if Mentions(d, p) {
        assert Mentions(order[0], p);
      } else {
        var j :| 0 <= j < i && Mentions(o[j], p);
        assert order[j + 1] == o[j];
        assert Mentions(order[j + 1], p);
      }
    }
  }

  /** An item still stored after retraction's edits records the dependents it
      recorded before, and keeps only support pairs it had. */
  lemma ShrinksLists(a: KB, b: KB, e: set<Key>, z: Key)
    requires Shrinks(a, b, e)
    ensures !Gone(b, z) ==> !Gone(a, z) && ListsOf(b, z) == ListsOf(a, z)
    ensures forall y :: Records(b, z, y) ==> Records(a, z, y)
    ensures forall p :: p in PairsOf(b, z) ==> p in PairsOf(a, z)
  {
  }

  /** Trimming the stored fact `s` changes the pairs of `s` and nothing else. */
  lemma TrimFactOnly(kb: KB, j: nat, f': Fact)
    requires Unique(kb) && FindFact(kb.facts, f'.statement) == Some(j)
    requires TrimmedFact(kb.facts[j], f') && f'.asserted == kb.facts[j].asserted
    ensures OnlyPairsOf(kb, kb.(facts := kb.facts[j := f']), OfFact(f'.statement))
  {
    TrimFactShrinks(kb, j, f');
    FactViewFind(kb.facts, f'.statement);
  }

  lemma TrimRuleOnly(kb: KB, j: nat, rl': Rule)
    requires Unique(kb) && FindRule(kb.rules, rl'.Key()) == Some(j)
    requires TrimmedRule(kb.rules[j], rl') && rl'.asserted == kb.rules[j].asserted
    ensures OnlyPairsOf(kb, kb.(rules := kb.rules[j := rl']), OfRule(rl'.Key()))
  {
    TrimRuleShrinks(kb, j, rl');
    RuleViewFind(kb.rules, rl'.Key());
  }

  /** The step on the first dependent, then the cascade over the rest: the items
      the rest took out come after those the first step took out. Their pairs in
      the store before the step name `x`, an item the first step took out, or an
      item taken out before them in the rest. */
  lemma UnwindsSeq(a: KB, b: KB, c: KB, x: Key, deps: seq<Key>, o1: seq<Key>, o2: seq<Key>)
    requires deps != [] && Shrinks(a, b, {}) && Shrinks(b, c, {}) && DropsOnly(a, b, x)
    requires Unwinds(a, b, x, [deps[0]], o1) && Unwinds(b, c, x, deps[1..], o2)
    ensures Unwinds(a, c, x, deps, o1 + o2)
    ensures Swept(a, b, x, [deps[0]], o1) && Swept(b, c, x, deps[1..], o2) ==> Swept(a, c, x, deps, o1 + o2)
  {
    var order := o1 + o2;
    UnwindsSeqListed(a, b, c, x, o1, o2);
    forall i | 0 <= i < |order| ensures Reached(a, deps, order, i) && Undercut(a, x, order, i) {
      if i < |o1| {
        UnwindsSeqFirst(a, b, x, deps, o1, o2, i);
      } else {
        UnwindsSeqRest(a, b, c, x, deps, o1, o2, i - |o1|);
      }
    }
    if Swept(a, b, x, [deps[0]], o1) && Swept(b, c, x, deps[1..], o2) {
      UnwindsSeqSwept(a, b, c, x, deps, o1, o2);
    }
  }

  lemma UnwindsSeqSwept(a: KB, b: KB, c: KB, x: Key, deps: seq<Key>, o1: seq<Key>, o2: seq<Key>)
    requires deps != [] && Shrinks(a, b, {}) && Shrinks(b, c, {})
    requires LostListed(b, c, x, o2)
    requires Swept(a, b, x, [deps[0]], o1) && Swept(b, c, x, deps[1..], o2)
    ensures Swept(a, c, x, deps, o1 + o2)
  {
    var order := o1 + o2;
    forall d | d in deps ensures Clear(c, x, d) {
      if d == deps[0] {
        assert Clear(b, x, d);
        ClearShrinks(b, c, {}, x, d);
      } else {
        assert d in deps[1..];
      }
    }
    forall i, e | 0 <= i < |order| && Records(a, order[i], e) ensures Clear(c, order[i], e) {
      if i < |o1| {
        assert order[i] == o1[i];
        assert Clear(b, o1[i], e);
        ClearShrinks(b, c, {}, o1[i], e);
      } else {
        var k := i - |o1|;
        assert order[i] == o2[k] && Lost(b, c, o2[k]);
        ShrinksLists(a, b, {}, o2[k]);
        assert Records(b, o2[k], e);
      }
    }
  }

  lemma UnwindsSeqListed(a: KB, b: KB, c: KB, x: Key, o1: seq<Key>, o2: seq<Key>)
    requires Shrinks(a, b, {}) && Shrinks(b, c, {})
    requires LostListed(a, b, x, o1) && LostListed(b, c, x, o2)
    ensures LostListed(a, c, x, o1 + o2)
  {
    var order := o1 + o2;
    forall y | y != x && Lost(a, c, y) ensures y in order {
      if Gone(b, y) {
        assert y in o1;
      } else {
        assert y in o2;
      }
    }
    forall i | 0 <= i < |order| ensures order[i] != x && Lost(a, c, order[i]) {
      if i < |o1| {
        assert order[i] == o1[i] && Lost(a, b, o1[i]);
        ShrinksLists(b, c, {}, o1[i]);
      } else {
        assert order[i] == o2[i - |o1|] && Lost(b, c, o2[i - |o1|]);
        ShrinksLists(a, b, {}, o2[i - |o1|]);
      }
    }
  }

  lemma UnwindsSeqFirst(a: KB, b: KB, x: Key, deps: seq<Key>, o1: seq<Key>, o2: seq<Key>, i: nat)
    requires deps != [] && i < |o1|
    requires Reached(a, [deps[0]], o1, i) && Undercut(a, x, o1, i)
    ensures Reached(a, deps, o1 + o2, i) && Undercut(a, x, o1 + o2, i)
  {
    var order := o1 + o2;
    assert order[i] == o1[i];
    if o1[i] !in [deps[0]] {
      var j :| 0 <= j < i && Records(a, o1[j], o1[i]);
      assert order[j] == o1[j];
      ReachedLater(a, deps, order, j, i);
    }
    forall p | p in PairsOf(a, order[i]) ensures Mentions(x, p) || exists j :: 0 <= j < i && Mentions(order[j], p) {
      if !Mentions(x, p) {
        var j :| 0 <= j < i && Mentions(o1[j], p);
        assert order[j] == o1[j];
      }
    }
  }

  lemma UnwindsSeqRest(a: KB, b: KB, c: KB, x: Key, deps: seq<Key>, o1: seq<Key>, o2: seq<Key>, k: nat)
    requires deps != [] && k < |o2| && Shrinks(a, b, {}) && DropsOnly(a, b, x)
    requires LostListed(a, b, x, o1) && LostListed(b, c, x, o2)
    requires Reached(b, deps[1..], o2, k) && Undercut(b, x, o2, k)
    ensures Reached(a, deps, o1 + o2, |o1| + k) && Undercut(a, x, o1 + o2, |o1| + k)
  {
    var order := o1 + o2;
    var i := |o1| + k;
    assert order[i] == o2[k];
    if o2[k] !in deps[1..] {
      var j :| 0 <= j < k && Records(b, o2[j], o2[k]);
      ShrinksLists(a, b, {}, o2[j]);
      assert order[|o1| + j] == o2[j];
      ReachedLater(a, deps, order, |o1| + j, i);
    }
    assert !Gone(b, o2[k]);
    forall p | p in PairsOf(a, order[i]) ensures Mentions(x, p) || exists j :: 0 <= j < i && Mentions(order[j], p) {
      UnwindsSeqPair(a, b, x, o1, o2, k, p);
    }
  }

  /** A pair the item `o2[k]` had before the first step: the step dropped it
      through `x` or an item it took out, or the item still had it afterwards. */
  lemma UnwindsSeqPair(a: KB, b: KB, x: Key, o1: seq<Key>, o2: seq<Key>, k: nat, p: Support)
    requires k < |o2| && DropsOnly(a, b, x) && LostListed(a, b, x, o1) && !Gone(b, o2[k]) && o2[k] != x
    requires Undercut(b, x, o2, k) && p in PairsOf(a, o2[k])
    ensures Mentions(x, p) || exists j :: 0 <= j < |o1| + k && Mentions((o1 + o2)[j], p)
  {
    var order := o1 + o2;
    if p in PairsOf(b, o2[k]) {
      if !Mentions(x, p) {
        var j :| 0 <= j < k && Mentions(o2[j], p);
        assert order[|o1| + j] == o2[j];
      }
    } else {
      assert Undermined(a, b, x, p) by {
        match o2[k] {
          case OfFact(s) =>
          case OfRule(q) =>
        }
      }
      if !Mentions(x, p) {
        var y := if Lost(a, b, OfRule(p.rule)) then OfRule(p.rule) else OfFact(p.fact);
        assert Lost(a, b, y) && y != x && Mentions(y, p);
        var j :| 0 <= j < |o1| && o1[j] == y;
        assert order[j] == o1[j];
      }
    }
  }

  /** Unlinking `x` takes out, besides `x`, the items of `order`, each reached from
      the dependents `x` recorded and each left with no pair but those naming `x`
      or an item taken out before it. With the corrected cascade, no dependent
      recorded by `x` or by an item of `order` keeps a pair naming it. */
  lemma {:induction false} UnlinkUnwinds(kb: KB, x: Key, m: Mode) returns (order: seq<Key>)
    requires Unique(kb) && Has(kb, x)
    decreases Size(kb), 0
    ensures Unwinds(kb, Unlink(kb, x, m), x, DepsOf(kb, x), order)
    ensures m == Corrected ==> Swept(kb, Unlink(kb, x, m), x, DepsOf(kb, x), order)
  {
    var kb1: KB, deps: seq<Key>;
    match x {
      case OfFact(s) =>
        var i := FindFact(kb.facts, s).value;
        var f := kb.facts[i];
        kb1 := kb.(facts := RemoveAt(kb.facts, i));
        deps := Dependents(f.supportsFacts, f.supportsRules);
        FactViewFind(kb.facts, s);
      case OfRule(k) =>
        var i := FindRule(kb.rules, k).value;
        var rl := kb.rules[i];
        kb1 := kb.(rules := RemoveAt(kb.rules, i));
        deps := Dependents(rl.supportsFacts, rl.supportsRules);
        RuleViewFind(kb.rules, k);
    }
    assert deps == DepsOf(kb, x);
    assert Unlink(kb, x, m) == Cascade(kb1, x, deps, m);
    RemoveShrinks(kb, x);
    RemoveOnly(kb, x);
    order := CascadeUnwinds(kb1, x, deps, m);
    RemovedUnwinds(kb, kb1, Unlink(kb, x, m), x, deps, order);
  }

  lemma {:induction false} CascadeUnwinds(kb: KB, x: Key, deps: seq<Key>, m: Mode) returns (order: seq<Key>)
    requires Unique(kb) && Gone(kb, x)
    decreases Size(kb), 3, |deps|
    ensures Unwinds(kb, Cascade(kb, x, deps, m), x, deps, order)
    ensures m == Corrected ==> Swept(kb, Cascade(kb, x, deps, m), x, deps, order)
  {
    if deps == [] {
      order := [];
      UnwindsNone(kb, kb, x, deps);
    } else {
      var kb1 := Step(kb, x, deps[0], m);
      var c := Cascade(kb1, x, deps[1..], m);
      StepShrinks(kb, x, deps[0], m);
      StepDropsOnly(kb, x, deps[0], m);
      CascadeShrinks(kb1, x, deps[1..], m);
      var o1 := StepUnwinds(kb, x, deps[0], m);
      var o2 := CascadeUnwinds(kb1, x, deps[1..], m);
      order := o1 + o2;
      UnwindsSeq(kb, kb1, c, x, deps, o1, o2);
    }
  }

  lemma {:induction false} StepUnwinds(kb: KB, x: Key, d: Key, m: Mode) returns (order: seq<Key>)
    requires Unique(kb) && Gone(kb, x)
    decreases Size(kb), 2, 1
    ensures Unwinds(kb, Step(kb, x, d, m), x, [d], order)
    ensures m == Corrected ==> Swept(kb, Step(kb, x, d, m), x, [d], order)
  {
    match d {
      case OfFact(s) =>
        if FindFact(kb.facts, s).None? {
          order := [];
          UnwindsNone(kb, kb, x, [d]);
          if m == Corrected {
            StepClears(kb, x, d);
          }
        } else {
          order := StepFactUnwinds(kb, x, s, m);
        }
      case OfRule(k) =>
        if FindRule(kb.rules, k).None? {
          order := [];
          UnwindsNone(kb, kb, x, [d]);
          if m == Corrected {
            StepClears(kb, x, d);
          }
        } else {
          order := StepRuleUnwinds(kb, x, k, m);
        }
    }
  }

  lemma {:induction false} StepFactUnwinds(kb: KB, x: Key, s: Statement, m: Mode) returns (order: seq<Key>)
    requires Unique(kb) && HasFact(kb, s) && Gone(kb, x)
    decreases Size(kb), 2, 0
    ensures Unwinds(kb, Step(kb, x, OfFact(s), m), x, [OfFact(s)], order)
    ensures m == Corrected ==> Swept(kb, Step(kb, x, OfFact(s), m), x, [OfFact(s)], order)
  {
    var d := OfFact(s);
    var j := FindFact(kb.facts, s).value;
    var f := kb.facts[j];
    var f' := f.(supportedBy := Trim(m, f.supportedBy, x, true));
    var kb2 := kb.(facts := kb.facts[j := f']);
    TrimFactShrinks(kb, j, f');
    TrimFactOnly(kb, j, f');
    FactViewFind(kb.facts, s);
    if m == Corrected {
      StepClears(kb, x, d);
    }
    if |f'.supportedBy| == 0 && !f'.asserted {
      assert kb2.facts[j].statement == s;
      assert Step(kb, x, d, m) == Retracted(kb2, d, m) == Unlink(kb2, d, m);
      UnlinkShrinks(kb2, d, m);
      var o := UnlinkUnwinds(kb2, d, m);
      TrimEmpty(m, PairsOf(kb, d), x, d.OfFact?);
      StepLift(kb, kb2, Unlink(kb2, d, m), x, d, o);
      order := [d] + o;
    } else {
      assert Step(kb, x, d, m) == kb2;
      order := [];
      UnwindsNone(kb, kb2, x, [d]);
    }
  }

  lemma {:induction false} StepRuleUnwinds(kb: KB, x: Key, k: RuleKey, m: Mode) returns (order: seq<Key>)
    requires Unique(kb) && HasRule(kb, k) && Gone(kb, x)
    decreases Size(kb), 2, 0
    ensures Unwinds(kb, Step(kb, x, OfRule(k), m), x, [OfRule(k)], order)
    ensures m == Corrected ==> Swept(kb, Step(kb, x, OfRule(k), m), x, [OfRule(k)], order)
  {
    var d := OfRule(k);
    var j := FindRule(kb.rules, k).value;
    var rl := kb.rules[j];
    var rl' := rl.(supportedBy := Trim(m, rl.supportedBy, x, false));
    var kb2 := kb.(rules := kb.rules[j := rl']);
    TrimRuleShrinks(kb, j, rl');
    TrimRuleOnly(kb, j, rl');
    RuleViewFind(kb.rules, k);
    if m == Corrected {
      StepClears(kb, x, d);
    }
    if |rl'.supportedBy| == 0 && !rl'.asserted {
      assert kb2.rules[j].Key() == k;
      assert Step(kb, x, d, m) == Retracted(kb2, d, m) == Unlink(kb2, d, m);
      UnlinkShrinks(kb2, d, m);
      var o := UnlinkUnwinds(kb2, d, m);
      TrimEmpty(m, PairsOf(kb, d), x, d.OfFact?);
      StepLift(kb, kb2, Unlink(kb2, d, m), x, d, o);
      order := [d] + o;
    } else {
      assert Step(kb, x, d, m) == kb2;
      order := [];
      UnwindsNone(kb, kb2, x, [d]);
    }
  }

  /** A list the trim empties held only pairs naming `x`. */
  lemma TrimEmpty(m: Mode, s: seq<Support>, x: Key, ofFact: bool)
    requires Trim(m, s, x, ofFact) == []
    ensures forall p :: p in s ==> Mentions(x, p)
  {
  }

  // ---------------------------------------------------------------------------
  // The corrected cascade reaches everything that leaned on what it took out

  /** Retracting with the corrected cascade, from a store where every support pair
      is recorded by the rule and the fact it names: no item left in the store
      holds a support pair naming `x` or any other item the retraction took out. */
  lemma RetractSweeps(kb: KB, x: Key)
    requires Unique(kb) && Linked(kb)
    ensures forall z, y, p ::
              Lost(kb, Retracted(kb, x, Corrected), z) && p in PairsOf(Retracted(kb, x, Corrected), y) ==> !Mentions(z, p)
  {
    var r := Retracted(kb, x, Corrected);
    RetractUnassertsOnly(kb, x, Corrected);
    match x {
      case OfFact(s) => FactViewFind(kb.facts, s);
      case OfRule(k) => RuleViewFind(kb.rules, k);
    }
    if Has(kb, x) && |SupportOf(kb, x)| == 0 {
      RetractRemoves(kb, x, Corrected);
      var order := UnlinkUnwinds(kb, x, Corrected);
      forall z, y, p | Lost(kb, r, z) && p in PairsOf(r, y) ensures !Mentions(z, p) {
        SweptClears(kb, r, x, order, z, y, p);
      }
    } else if Has(kb, x) && AssertedOf(kb, x) {
      UnassertDropsOnly(kb, x, Corrected);
    } else {
      RetractKeeps(kb, x, Corrected);
    }
  }

  /** A pair `y` keeps after the cascade never names an item the cascade took out:
      an item it names recorded `y` as a dependent, so the sweep cleared `y` of it. */
  lemma SweptClears(kb: KB, r: KB, x: Key, order: seq<Key>, z: Key, y: Key, p: Support)
    requires Linked(kb) && Shrinks(kb, r, {x})
    requires Unwinds(kb, r, x, DepsOf(kb, x), order) && Swept(kb, r, x, DepsOf(kb, x), order)
    requires Lost(kb, r, z) && p in PairsOf(r, y)
    ensures !Mentions(z, p)
  {
    ShrinksLists(kb, r, {x}, y);
    if Records(kb, z, y) {
      if z == x {
        DepsOfRecords(kb, x, y);
      } else {
        var i :| 0 <= i < |order| && order[i] == z;
        assert Records(kb, order[i], y);
      }
    }
  }

  /** Retracting with the corrected cascade keeps every support pair recorded by
      the rule and the fact it names. */
  lemma RetractKeepsLinked(kb: KB, x: Key)
    requires Unique(kb) && Linked(kb)
    ensures Linked(Retracted(kb, x, Corrected))
  {
    var r := Retracted(kb, x, Corrected);
    RetractUnassertsOnly(kb, x, Corrected);
    RetractSweeps(kb, x);
    forall y, p | p in PairsOf(r, y) ensures Records(r, OfRule(p.rule), y) && Records(r, OfFact(p.fact), y) {
      ShrinksLists(kb, r, {x}, y);
      assert p in PairsOf(kb, y);
      assert Mentions(OfRule(p.rule), p) && Mentions(OfFact(p.fact), p);
      assert !Lost(kb, r, OfRule(p.rule)) && !Lost(kb, r, OfFact(p.fact));
      ShrinksLists(kb, r, {x}, OfRule(p.rule));
      ShrinksLists(kb, r, {x}, OfFact(p.fact));
    }
  }
}
