# Forward-chaining knowledge base with truth maintenance, in Dafny

This project models `student_code.py`, a forward-chaining knowledge base.

- **`KnowledgeBase`** stores facts and rules. `kb_add` / `kb_assert` add an item: the item is merged into an equal stored item, or it is appended and inference runs against every item of the other kind. `kb_ask` matches a query against the stored facts. `kb_retract` takes an item back, then cascades through what it supported.
- **`InferenceEngine.fc_infer`** takes one forward-chaining step. It matches a fact against a rule's first antecedent, asserts the derived fact or the rule with one antecedent fewer, and records that new item as a dependent of both parents.

Every item carries four pieces of metadata:

- `asserted`;
- `supported_by`, a list of (rule, fact) pairs;
- the dependents it supports, split into `supports_facts` and `supports_rules`.

Items are compared by structure: a fact by its statement, a rule by its antecedents and consequent. The model names each dependent by that structural key and resolves it by lookup in the store. The source instead records object references in `supports_facts` / `supports_rules`, and its cascade edits whatever object is recorded there. The two agree except when a derived item was merged into an equal stored item; that case is the third row of the Findings.

Modules:

- `Logic` (`logic.dfy`): terms, statements, bindings. Also the `Unifier` that stands for `util.match` and `util.instantiate`; it is passed in, so every property holds for any such pair of functions.
- `Items` (`items.dfy`): facts, rules, keys and the store value `KB`. Lookup by structural equality, and a map "view" of each list that later proofs reason over.
- `Asking` (`ask.dfy`): `kb_ask` as a function.
- `Inference` (`inference.dfy`): `kb_add` and `fc_infer` as mutually recursive functions of the store, plus what they keep and what they record. The two call each other without a general bound, so they carry a `Fuel` value (`Out` or `More(next)`): how many nested derivations are still allowed.
- `Retraction` (`retraction.dfy`): `kb_retract` as a function of the store, in two modes. `AsWritten` applies the source's comparisons and its removal-while-iterating loop to the stored item that each recorded dependent names; where the source has recorded a detached copy instead, its step is `StepOnCopy` (see Left out). `Corrected` is the cascade the code evidently intends (see Findings). The module holds the decision table, the invariants retraction keeps and the property the corrected cascade guarantees.
- `Engine` (`knowledge_base.dfy`): the two classes. Their fields are updated in place by methods with loops. Each method is proved to leave the store exactly as the matching function above says, and to keep the store's invariants:
  - no two equal items;
  - every item asserted or supported;
  - every rule with a first antecedent.
- `Scenarios` (`scenarios.dfy`): concrete runs. A rule and a matching fact are asserted, then the fact is retracted in both modes. A fact with two supports loses one and stays. A derived fact merged into an asserted one is retracted through its rule. A fact recorded twice by one rule is retracted through that rule. Two facts that support only each other survive a retraction that never reached them. A rule of two antecedents is specialised by one fact and completed by another, and retracting the first fact unwinds both derived items.

## Model

| member | source | states |
|---|---|---|
| Logic.InstantiateAll | student_code.py:272-275 | the instantiated remaining antecedents keep their number and order; each one is `instantiate` of the original with the same bindings |
| Items.NewFact | student_code.py:256 | a fact built with support pairs has those pairs, no dependents yet, and is justified (asserted exactly when it has no support) |
| Items.NewRule | student_code.py:279 | the same for a rule built from antecedents, consequent and support pairs |
| Items.FindFact | student_code.py:22-34 | the result is the first position holding a fact equal to the statement, and it is none exactly when no stored fact is equal |
| Items.FindRule | student_code.py:36-48 | the result is the first position holding an equal rule, and it is none exactly when no stored rule is equal |
| Items.RemoveAt | student_code.py:148 | removing position `i` shifts every later element left by one and keeps the earlier ones |
| Items.FactViewRemove | student_code.py:148 | removing a stored fact from a list without duplicates leaves a list without duplicates whose view lacks exactly that fact |
| Items.RuleViewRemove | student_code.py:168 | the same for rules |
| Asking.Ask | student_code.py:94-117 | a non-fact query gets the empty answer, and there are no more answers than stored facts |
| Asking.AskSound | student_code.py:108-111 | every answer is for a fact query, names a stored fact, and carries the bindings `match` gives for that fact |
| Asking.AskComplete | student_code.py:108-111 | every stored fact the query matches contributes an answer with its bindings |
| Asking.AskSnoc | student_code.py:108-111 | scanning one more stored fact appends its answer, if it matches, after the answers for the earlier facts |
| Asking.AskEmptyIff | student_code.py:113 | the answer is empty exactly when the query matches no stored fact |
| Inference.MergeFact | student_code.py:63-70 | merging into a stored equal fact keeps its statement and dependents and never clears its flag; the merged support is exactly the stored pairs and the incoming ones, and the fact ends asserted exactly when it was asserted or came without support |
| Inference.MergeRule | student_code.py:76-83 | the same for a rule |
| Inference.Added | student_code.py:50-83 | `kb_add`, with all the inference it triggers, never shortens the fact list or the rule list |
| Inference.InferEach | student_code.py:61-62 | running `fc_infer` over a list of attempts never shortens either list |
| Inference.InferEachSnoc | student_code.py:61-62 | running the attempts followed by one more is running the earlier attempts, then `fc_infer` on the new one: the order the loop runs in |
| Inference.Inferred | student_code.py:200-250 | one `fc_infer` step never shortens either list |
| Inference.Derive | student_code.py:253-290 | a successful derivation never shortens either list |
| Inference.AppendSupportsFact | student_code.py:262-265 | recording a dependent fact changes neither the number of items nor any flag or support pair, and only grows dependents lists |
| Inference.AppendSupportsRule | student_code.py:285-288 | the same for a dependent rule |
| Inference.StoreKeeps | student_code.py:59-60 | appending an item not already stored keeps every stored item, creates no duplicate, and keeps justification and first antecedents when the item is admissible |
| Inference.MergeKeeps | student_code.py:63-70 | merging into the stored equal item keeps every invariant |
| Inference.AddedKeeps | student_code.py:50-83 | `kb_add`, with all the inference it triggers, only grows stored items in place, never creates an equal duplicate, and keeps every item justified and every rule with a first antecedent |
| Inference.InferEachKeeps | student_code.py:61-62 | running inference over a list of attempts keeps the same invariants |
| Inference.InferredKeeps | student_code.py:200-290 | one `fc_infer` step keeps the same invariants |
| Inference.DeriveKeeps | student_code.py:253-290 | a successful derivation keeps the same invariants |
| Inference.InferredFails | student_code.py:233-238 | when the match fails (or the step's preconditions do not hold, or fuel is spent) the store is unchanged |
| Inference.AddedMergesFact | student_code.py:63-70 | adding a fact equal to a stored one adds no entry and changes no other item; its support pairs are appended in order, or, when it has none, the stored fact becomes asserted |
| Inference.AddedMergesRule | student_code.py:76-83 | the same for a rule |
| Inference.AddedAppendsFact | student_code.py:58-62 | a new fact lands at the end of the fact list, at its first equal position, and keeps at least the metadata it came with |
| Inference.AddedAppendsRule | student_code.py:71-75 | a new rule lands at the end of the rule list in the same way |
| Inference.AddedStores | student_code.py:50-83 | after `kb_add` the item is stored and holds every support pair it was added with |
| Inference.AddedLinks | student_code.py:50-83 | `kb_add`, with all the inference it triggers, leaves every support pair recorded by the rule and the fact it names, apart from pairs the caller has yet to record |
| Inference.InferEachLinks | student_code.py:61-62 | running `fc_infer` over a list of attempts does the same |
| Inference.InferredLinks | student_code.py:200-290 | one `fc_infer` step does the same: the pair it gives the derived item is recorded by both parents |
| Inference.DerivedFactLinks | student_code.py:254-265 | asserting the derived fact and appending it to both parents' `supports_facts` records its new pair |
| Inference.DerivedRuleLinks | student_code.py:269-288 | the same with `supports_rules` for a derived rule |
| Inference.AssertKeepsLinked | student_code.py:85-92 | asserting an item without support keeps every support pair recorded by the rule and the fact it names |
| Inference.InferredKeepsLinked | student_code.py:200-290 | so does one `fc_infer` step |
| Inference.AssertFactTwice | student_code.py:85-92 | asserting the same unsupported fact a second time leaves the whole store as the first call left it |
| Inference.AssertRuleTwice | student_code.py:85-92 | the same for a rule |
| Inference.RecordFactDependent | student_code.py:262-265 | after both appends, the derived fact is the newest entry of the rule's and the fact's `supports_facts`, and its own support is untouched |
| Inference.RecordRuleDependent | student_code.py:285-288 | the same with `supports_rules` for a derived rule |
| Inference.InferredDerivesFact | student_code.py:254-267 | when a fact matches a one-antecedent rule, `instantiate(rhs, b)` is stored with the pair (rule, fact) among its support and is the last new entry of both parents' `supports_facts` |
| Inference.InferredDerivesRule | student_code.py:269-290 | when the rule has more antecedents, the rule with one antecedent fewer is stored, with the remaining antecedents and the consequent instantiated and (rule, fact) among its support, and is the last new entry of both parents' `supports_rules` |
| Retraction.Cuts | student_code.py:184-194 | a pair the cascade cuts always names the retracted item. Corrected, it is cut exactly when it names the item in either slot. As written, a retracted fact never cuts a dependent fact's pair, and a retracted rule never cuts a dependent rule's pair |
| Retraction.IndexOf | student_code.py:187 | `remove` takes out the first position holding the pair |
| Retraction.RemoveWhileIterating | student_code.py:185-187 | removing pairs while iterating keeps only pairs of the original list, keeps every pair that is not cut, and never lengthens it |
| Retraction.KeepUncutSnoc | student_code.py:185-187 | filtering one more pair appends it, unless it is cut, after what is kept of the earlier pairs |
| Retraction.KeepUncutMembers | student_code.py:185-187 | the filtered list holds exactly the pairs of the original that are not cut |
| Retraction.Trim | student_code.py:184-196 | in either mode, what is left of a dependent's support is drawn from its original support and keeps every pair that is not cut |
| Retraction.Retracted | student_code.py:119-196 | the number of stored items never grows |
| Retraction.Unlink | student_code.py:147-148 | taking out a stored item and cascading leaves strictly fewer items |
| Retraction.RetractRemoves | student_code.py:147-157 | an unsupported item, asserted or not, is taken out and its dependents cascaded; afterwards it is no longer stored |
| Retraction.RetractUnasserts | student_code.py:151-153 | a supported asserted item only has its flag cleared: the store is otherwise identical, with the same size and the same support, and there is no cascade |
| Retraction.RetractKeeps | student_code.py:159-161 | a supported unasserted item (or an absent one) leaves the store unchanged |
| Retraction.RetractUnassertsOnly | student_code.py:143-196 | after retraction, the asserted items are exactly those asserted before, minus the retracted one, so a cascade never removes or unasserts an asserted item; every remaining item is a trimmed version of one stored before |
| Retraction.UnlinkShrinks | student_code.py:147-148 | removing an item and cascading only removes items, trims support pairs and keeps every other asserted item |
| Retraction.Cascade | student_code.py:184-196 | the cascade over a list of dependents never grows the number of stored items |
| Retraction.Step | student_code.py:185-189 | one dependent's trim-and-maybe-retract never grows the number of stored items |
| Retraction.StepOnCopy | student_code.py:184-189 | the step as the source runs it on a recorded object that is not the stored item: it never grows the store, and it changes nothing unless the object's own pairs are all cut and the object is unasserted |
| Retraction.CascadeShrinks | student_code.py:184-196 | the cascade over a list of dependents only removes items and trims support, and keeps justification |
| Retraction.CascadeSnoc | student_code.py:184-196 | cascading over one more dependent is the cascade over the earlier dependents followed by one step on the new one |
| Retraction.StepShrinks | student_code.py:185-189 | one dependent's trim-and-maybe-retract does the same |
| Retraction.StepClears | student_code.py:185-189 | after the corrected step, the dependent, if still stored, has no support pair naming the retracted item |
| Retraction.CascadeClears | student_code.py:184-196 | after the corrected cascade, no visited dependent keeps a pair naming the retracted item |
| Retraction.RetractCuts | student_code.py:184-196 | retracting an unsupported item with the corrected cascade removes it, and none of its recorded dependents is left holding a pair that names it |
| Retraction.UnlinkDropsOnly | student_code.py:147-148 | removing an item and cascading drops from any other item only pairs that name the removed item or another item that is gone |
| Retraction.CascadeDropsOnly | student_code.py:184-196 | the cascade drops only such pairs |
| Retraction.StepDropsOnly | student_code.py:185-189 | one dependent's step drops only such pairs |
| Retraction.RetractDropsOnly | student_code.py:143-196 | retraction takes out only what lost its support: every other item that is gone was unasserted, and every pair that any other item lost, whether the item survived or not, names the retracted item or another item retraction took out; a pair whose rule and fact both survive is kept; and the items taken out can be listed in an order where each was reached from a recorded dependent of the retracted item or of an item listed before it, and held only pairs naming the retracted item or an item listed before it, so items taken out never excuse each other's loss |
| Retraction.RetractSweeps | student_code.py:184-196 | in a store where every support pair is recorded by the rule and the fact it names, the corrected retraction leaves no remaining item holding a pair that names any item it took out, at any depth of the cascade |
| Retraction.RetractKeepsLinked | student_code.py:119-196 | the corrected retraction keeps every support pair recorded by the rule and the fact it names |
| Retraction.RetractKeepsValid | student_code.py:119-196 | retraction, in either mode, keeps the store free of duplicates, every item justified and every rule with a first antecedent |
| Scenarios.AssertChains | student_code.py:58-62 | asserting `P(?x) => Q(?x)` and then `P(a)` stores `Q(a)` supported by (rule, `P(a)`) and recorded as a dependent of both |
| Scenarios.RetractAsWrittenKeepsQ | student_code.py:184-189 | as written, retracting `P(a)` from that store leaves `Q(a)` stored, still supported by the pair naming `P(a)` |
| Scenarios.RetractCorrectedRemovesQ | student_code.py:184-189 | corrected, the same retraction also removes `Q(a)`, leaving only the rule |
| Scenarios.RemoveWhileIteratingSkips | student_code.py:185-187 | as written, when `P(?x) => Q(a)` is retracted from `Q(a)` supported by (rule, `P(a)`) and (rule, `P(b)`), the second pair survives |
| Scenarios.KeepUncutDropsBoth | student_code.py:185-187 | corrected, both pairs go |
| Scenarios.RetractKeepsCoSupported | student_code.py:184-189 | retracting `P(a)` from a store where `Q(a)` is supported through both `P(a)` and `P(b)` leaves `Q(a)` stored with the pair through `P(b)` |
| Scenarios.AssertAliased | student_code.py:58-70 | asserting `Q(a)`, then `P(?x) => Q(?x)`, then `P(a)` merges the inferred `Q(a)` into the asserted one, which keeps its flag and gains the pair (rule, `P(a)`) |
| Scenarios.RetractRuleAsWrittenUnassertsQ | student_code.py:143-189 | as written, retracting the rule from that store trims the detached inferred copy, and `kb_retract` of the copy clears the flag of the stored, asserted `Q(a)`, which keeps the stale pair |
| Scenarios.RetractRuleKeepsAssertedQ | student_code.py:184-189 | in the model, the same retraction takes the rule's pair off the stored `Q(a)` and leaves it asserted |
| Scenarios.RetractCoRuleAsWritten | student_code.py:184-189 | in the model, retracting `P(?x) => Q(a)` as written from `Q(a)` supported through `P(a)` and `P(b)` visits the stored `Q(a)` twice: the first visit skips the pair through `P(b)`, the second takes it and then `Q(a)` |
| Scenarios.SecondVisitOnCopy | student_code.py:184-189 | in the source the second visit is to the merged copy built from `P(b)`; its step keeps the stored `Q(a)` with the pair through `P(b)` |
| Scenarios.RetractKeepsCycle | student_code.py:143-196 | in either mode, retracting `S(c)` from a store where `P(a)` and `Q(a)` support only each other takes out `S(c)` alone, since nothing recorded `P(a)` or `Q(a)` as a dependent of it |
| Scenarios.CycleNotUnwound | student_code.py:143-196 | removing `P(a)` and `Q(a)` as well admits no unwinding order: neither was reached from `S(c)` |
| Scenarios.AssertJoins | student_code.py:269-290 | asserting `P(?x) & S(?x) => T(?x)`, `P(a)` and `S(a)` stores the rule `S(a) => T(a)` supported by (rule, `P(a)`) and `T(a)` supported by (`S(a) => T(a)`, `S(a)`), each recorded by both parents |
| Scenarios.RetractUnwindsSpecialised | student_code.py:143-196 | in either mode, retracting `P(a)` from that store takes out `S(a) => T(a)` and then `T(a)`, leaving `S(a)` and the asserted rule |
| Engine.KnowledgeBase.constructor | student_code.py:8-11 | the store starts with the given lists and a new inference engine, and it is valid when those lists are free of duplicates, justified and have first antecedents |
| Engine.KnowledgeBase.FactIndex | student_code.py:32-34 | the loop finds the first equal fact, or reports that there is none |
| Engine.KnowledgeBase.RuleIndex | student_code.py:46-48 | the loop finds the first equal rule, or reports that there is none |
| Engine.KnowledgeBase.GetFact | student_code.py:22-34 | returns the stored equal fact exactly when there is one |
| Engine.KnowledgeBase.GetRule | student_code.py:36-48 | returns the stored equal rule exactly when there is one |
| Engine.KnowledgeBase.Add | student_code.py:50-83 | the new state is `Added` of the old one, so everything proved about `Added` holds of it, and the store stays valid |
| Engine.KnowledgeBase.InferAll | student_code.py:61-62 | the loop runs `fc_infer` on every attempt in order: the new state is `InferEach` of the old one, and the store stays valid |
| Engine.KnowledgeBase.MergeFactAt | student_code.py:63-70 | the pair-by-pair append loop (or setting the flag) leaves the stored fact merged and everything else unchanged |
| Engine.KnowledgeBase.MergeRuleAt | student_code.py:76-83 | the same for a rule |
| Engine.KnowledgeBase.Assert | student_code.py:85-92 | the same as `Add` |
| Engine.KnowledgeBase.RecordFact | student_code.py:262-265 | appends a dependent fact to the stored owner; the invariants are kept |
| Engine.KnowledgeBase.RecordRule | student_code.py:285-288 | appends a dependent rule to the stored owner; the invariants are kept |
| Engine.KnowledgeBase.Ask | student_code.py:94-117 | the scan returns exactly `Ask` of the stored facts and changes nothing |
| Engine.KnowledgeBase.Retract | student_code.py:119-181 | the new state is the corrected `Retracted` of the old one; a valid store stays valid |
| Engine.KnowledgeBase.Unlink | student_code.py:147-148 | removes the stored item and runs the cascade: the new state is `Unlink` of the old one |
| Engine.KnowledgeBase.CascadeFrom | student_code.py:184-196 | one loop over `supports_facts` and then `supports_rules`, as the two loops of the source visit them, produces exactly the corrected `Cascade` over those dependents |
| Engine.KnowledgeBase.Step | student_code.py:185-189 | one turn of a cascade loop produces exactly the corrected `Step` |
| Engine.KeepPairs | student_code.py:185-187 | the loop keeps exactly the pairs not naming the retracted item, in order |
| Engine.InferenceEngine.constructor | student_code.py:11 | the engine holds the supplied `match` and `instantiate` |
| Engine.InferenceEngine.FcInfer | student_code.py:200-250 | the new state of the knowledge base is `Inferred` of the old one, and it stays valid |
| Engine.InferenceEngine.DeriveInto | student_code.py:253-290 | the assertion and the two dependent records produce exactly `Derive`, and the store stays valid |
| Engine.InferenceEngine.InstantiateRest | student_code.py:272-275 | the loop instantiates every remaining antecedent in order, as `InstantiateAll` does |

## Left out

- Tracing is left out because it is output only: `print`, `printv`, the `verbose` flag, `__repr__` / `__str__`, and the index printing in `fc_infer`.
- `util.match`, `util.instantiate`, `ListOfBindings` and the `read` parser module are not part of this model.
  - `match` and `instantiate` are parameters.
  - A successful `match` is taken to be truthy.
  - The answer to `kb_ask` is a sequence of (bindings, fact) entries.
- `logical_classes` is not part of this model. The model assumes its behaviour:
  - facts compare by statement and rules by antecedents and consequent;
  - a fact never equals a rule;
  - a new item is asserted exactly when it is built without support.
- The mutable default arguments of `KnowledgeBase.__init__` are left out: the constructor takes the initial lists explicitly.
- Fuel: `kb_add` and `fc_infer` carry a `Fuel` value, because the source has no bound on nested inference.
  - Once fuel is spent, `fc_infer` does nothing.
  - The model does not capture chains of derivation longer than the fuel given.
- Inference.Added: runs `fc_infer` against the items of the other kind stored when the new item was appended (student_code.py:61-62, 74-75). Python's `for` runs over the live list, so it also reaches a rule R' that nested inference appended during the loop. The nested `kb_add` of R' has already run `fc_infer` of the new fact against R', so the source runs it a second time: the derived item is merged into itself, gaining a duplicate support pair, and is appended once more to both parents' `supports_*` lists. The model records one pair and one entry.
- Engine.KnowledgeBase.Add: iterates over the same snapshot as `Inference.Added`, for the same reason.
- Engine.InferenceEngine.FcInfer: where the source raises, the model leaves the store unchanged instead. This covers a rule without antecedents (`rule.lhs[0]`) and a fact or rule that is not stored (`index`).
- Retraction.Retracted: leaves the store unchanged when the item is absent, where the source fails on `None`. Engine.KnowledgeBase.Retract requires the item to be stored.
- Retraction.Step: passes over a dependent that is no longer stored, where the source would edit a detached object or fail.
- Aliasing is not modelled. When a derived item merges into an equal stored item, `fc_infer` appends its own fresh, unstored object to the parents' `supports_*` lists. Dependents here are keys resolved by lookup, so the cascade always edits the stored item. `Retraction.StepOnCopy` models the source's step on such an object, for the Findings. The same holds for an item recorded twice. Take R2 = `P(?x) => Q(a)` and the store `CoSupported`, where `Q(a)` is supported through `P(a)` and `P(b)`. `Scenarios.RetractCoRuleAsWritten` shows `Retracted(CoSupported, OfRule(R2), AsWritten)` takes `Q(a)` out and leaves only `P(a)` and `P(b)`, because the model's second visit is to the stored `Q(a)`. The source's second visit is to the copy built from `P(b)`, and `Scenarios.SecondVisitOnCopy` shows it keeps `Q(a)` with (R2, `P(b)`).
- Retraction.RetractUnassertsOnly: holds of the model, where dependents are resolved by lookup, and not of the source. Input: assert `Q(a)`, assert `P(?x) => Q(?x)`, assert `P(a)`, retract the rule. The source trims the detached copy of `Q(a)`, and `kb_retract` of that copy clears the flag of the stored, asserted `Q(a)`, which also keeps the pair naming the removed rule. The model keeps `Q(a)` asserted with no support.
- Retraction.UnlinkShrinks: "keeps every other asserted item" likewise holds of the model and not of the source, on the same input.
- Asking.Ask: its own contract bounds only the number of answers. Which fact each answer comes from, and that every matching fact answers, is stated by `AskSound`, `AskComplete` and `AskSnoc`.
- Retraction.RetractCuts: states only the first level of the cascade. The statement at every depth is `Retraction.RetractSweeps`. It requires every support pair to be recorded by the rule and the fact it names, which `Inference.AssertKeepsLinked`, `Inference.InferredKeepsLinked` and `Retraction.RetractKeepsLinked` show the operations keep.
- Engine.KnowledgeBase.Retract: runs the corrected cascade of the Findings below. The cascade as written is modelled only as the function `Retraction.Retracted` with mode `AsWritten`.

## Findings

| source | as written | input that shows it | evidently intended | confidence | as-written member | corrected member |
|---|---|---|---|---|---|---|
| student_code.py:184-196 | a dependent fact's pairs are compared with the retracted item on the rule slot `fr[0]`, and a dependent rule's pairs on the fact slot `fr[1]`. So when a fact is retracted, its dependent facts never lose the pair naming it | assert `P(?x) => Q(?x)`, assert `P(a)`, retract `P(a)`: `Q(a)` stays, supported by (rule, `P(a)`) | drop every pair that names the retracted item in either slot, then retract the dependent if it is left unsupported and unasserted; this assumes the recorded dependent is the stored item, which the third row shows is not always so | not executed; relies on a fact never equalling a rule in `logical_classes` | Scenarios.RetractAsWrittenKeepsQ | Retraction.RetractCuts |
| student_code.py:185-187 | `supported_by.remove(fr)` inside `for fr in supported_by` shifts the list under the iterator, which then skips the pair after each one removed | with R = `P(?x) => Q(a)`, assert R, `P(a)` and `P(b)`, so `Q(a)` is supported by `[(R, P(a)), (R, P(b))]`; retract R: `(R, P(b))` survives the first visit. The end state of the whole retraction also depends on the second recorded `Q(a)`, which in the source is the merged copy: `Scenarios.SecondVisitOnCopy` shows that the source keeps `Q(a)` with `(R, P(b))` | remove every matching pair | not executed | Scenarios.RemoveWhileIteratingSkips | Scenarios.KeepUncutDropsBoth |
| student_code.py:184-189 | the cascade trims and retracts the objects recorded in `supports_facts`, but when `kb_add` merged a derived fact into an equal stored one (63-67), the recorded object is the unstored copy built at 256; `kb_retract` of that copy (188-189) then looks up the stored fact (144) and decides on the stored fact's flag and pairs | assert `Q(a)`, assert `P(?x) => Q(?x)`, assert `P(a)`, retract the rule: the stored `Q(a)` loses its asserted flag (151-153) and keeps the pair naming the removed rule | trim the stored fact's own pairs, and keep an asserted fact asserted: `Q(a)` stays asserted with no support | not executed | Scenarios.RetractRuleAsWrittenUnassertsQ | Scenarios.RetractRuleKeepsAssertedQ |
