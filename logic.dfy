/** The logical vocabulary the knowledge base works over: terms, statements and
    the two unification primitives it consumes without implementing them. */
module Logic {

  datatype Option<+T> = None | Some(value: T)

  /** A term is a variable (written `?x` in the fact language) or a constant. */
  datatype Term = Var(name: string) | Const(name: string)

  /** A predicate applied to an ordered sequence of terms; compared structurally. */
  datatype Statement = Statement(pred: string, terms: seq<Term>)

  /** One variable binding, and the list of them a successful match produces. */
  datatype Binding = Binding(variable: string, value: Term)
  type Bindings = seq<Binding>

  /** The primitives `match` and `instantiate` of the `util` module, which this
      model does not define: they are supplied as function values, and every
      property below holds for whichever functions are supplied.
      `unify(a, b)` is `None` where `match` returns a false value. */
  datatype Unifier = Unifier(
    unify: (Statement, Statement) -> Option<Bindings>,
    instantiate: (Statement, Bindings) -> Statement)

  /** `[instantiate(s, b) for s in ss]`: applies the same bindings to every statement. */
  function InstantiateAll(u: Unifier, ss: seq<Statement>, b: Bindings): (r: seq<Statement>)
    ensures |r| == |ss|
    ensures forall k :: 0 <= k < |ss| ==> r[k] == u.instantiate(ss[k], b)
  {
    if ss == [] then [] else [u.instantiate(ss[0], b)] + InstantiateAll(u, ss[1..], b)
  }
}
