/** `KnowledgeBase.kb_ask`: a read-only scan matching a query against every stored fact. */
module Asking {
  import opened Logic
  import opened Items

  /** One entry of the returned list of bindings: the bindings and the fact they came from. */
  datatype Answer = Answer(bindings: Bindings, fact: Fact)

  /** The answers to `query` over `facts`, in the order the facts are stored.
      A query that is not a fact is invalid and gets the empty answer. */
  function Ask(facts: seq<Fact>, query: Item, u: Unifier): (r: seq<Answer>)
    ensures query.RuleItem? ==> r == []
    ensures |r| <= |facts|
  {
    match query
    case RuleItem(_) => []
    case FactItem(q) =>
      if facts == [] then []
      else
        var here := match u.unify(q.statement, facts[0].statement)
          case None => []
          case Some(b) => [Answer(b, facts[0])];
        here + Ask(facts[1..], query, u)
  }

  /** Every answer names a stored fact and the bindings `match` gives for it. */
  lemma {:induction false} AskSound(facts: seq<Fact>, query: Item, u: Unifier)
    ensures forall a :: a in Ask(facts, query, u) ==>
      && a.fact in facts
      && query.FactItem?
      && u.unify(query.fact.statement, a.fact.statement) == Some(a.bindings)
  {
    if query.FactItem? && facts != [] {
      AskSound(facts[1..], query, u);
    }
  }

  /** Scanning `facts` followed by `f` answers for `facts`, then for `f`: the order
      a loop over the stored facts runs in. */
  lemma {:induction false} AskSnoc(facts: seq<Fact>, f: Fact, query: Item, u: Unifier)
    requires query.FactItem?
    ensures Ask(facts + [f], query, u)
      == Ask(facts, query, u) + (match u.unify(query.fact.statement, f.statement)
          case None => []
          case Some(b) => [Answer(b, f)])
  {
    if facts == [] {
      assert [] + [f] == [f];
      assert [f][1..] == [];
    } else {
      assert (facts + [f])[0] == facts[0] && (facts + [f])[1..] == facts[1..] + [f];
      AskSnoc(facts[1..], f, query, u);
    }
  }

  /** Every stored fact the query matches contributes its bindings to the answer. */
  lemma {:induction false} AskComplete(facts: seq<Fact>, q: Statement, u: Unifier, i: nat)
    requires i < |facts| && u.unify(q, facts[i].statement).Some?
    ensures Answer(u.unify(q, facts[i].statement).value, facts[i]) in Ask(facts, FactItem(NewFact(q, [])), u)
  {
    if i > 0 {
      AskComplete(facts[1..], q, u, i - 1);
    }
  }

  /** The answer is empty exactly when no stored fact matches the query. */
  lemma AskEmptyIff(facts: seq<Fact>, q: Statement, u: Unifier)
    ensures Ask(facts, FactItem(NewFact(q, [])), u) == []
      <==> forall i :: 0 <= i < |facts| ==> u.unify(q, facts[i].statement).None?
  {
    if exists i :: 0 <= i < |facts| && u.unify(q, facts[i].statement).Some? {
      var i :| 0 <= i < |facts| && u.unify(q, facts[i].statement).Some?;
      AskComplete(facts, q, u, i);
    }
  }
}
