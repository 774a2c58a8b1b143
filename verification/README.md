# Natural proofs by term instantiation: a Dafny model

This project models the natural-proof engine of the `fol-synthesis`
repository (`synthesis/fol/prover.py`, class `NaturalProof`). It also models
the bound-escalation driver `prove` of `examples/fossil_variants.py`. The
engine reduces "the theory entails the goal" to the unsatisfiability of a
stream of quantifier-free formulas, in these steps:

- **Prenex normalisation** (`prenex_normalize`). All quantifiers are pulled
  into a list, outermost first. Bound variables are renamed to
  `<prefix><index>`, where the prefix is the longest variable name of the
  input. Negation and the left side of an implication dualise the kinds, and
  an equivalence becomes two implications.
- **Skolemisation** (`skolemize`). The prenex list is walked. Each
  existential variable is replaced by a fresh function symbol applied to the
  universal variables seen so far, and that symbol is added to the language.
- **Term instantiation** (`term_instantiate`). Two insertion-ordered sets are
  kept: the ground terms of the foreground sort and the formulas emitted so
  far. They are seeded from the constants of that sort, or failing those,
  from the ground terms of the inputs. Each round instantiates every formula
  over every tuple of the ground terms known when that formula's turn
  starts, and harvests new ground terms from each instance. It runs for at
  most `depth` rounds and stops early after a round that emits nothing.
- **Validity encoding** (`encode_validity`). The theory's sentences are
  Skolemised left to right, threading the language through. The Skolemised
  universal closure of the negated goal is put first, and the list is handed
  to term instantiation.
- **The escalation loop** (`prove`). Four bounds and the initial lemmas are
  read from the keyword arguments, and those keys are removed. The LFP prover
  is then called again and again, with bounds that grow with the iteration
  number. Each call receives the lemmas the previous one returned, until a
  call succeeds.

## Structure

Each module lives in its own file:

- `wrappers.dfy`: the `Result` datatype.
- `names.dfy`: decimal rendering of an index, and `<prefix><index>` names.
- `sequences.dfy`: an insertion-ordered set as a duplicate-free sequence.
  This is Python's `OrderedDict` used as a set.
- `syntax.dfy`: sorts, symbols, terms, formulas and languages, plus the
  operations of the formula library that the engine calls. These are
  substitution, free variables, fresh names, language extension and
  universal closure.
- `term_collection.dfy`: `get_all_terms`, `get_all_ground_terms_in_term` and
  `get_all_ground_terms`.
- `prenex.dfy`: `QuantifierKind.dual`, `flip_quantifier_list`,
  `count_quantifiers`, `get_longest_variable_name` and `prenex_normalize`.
- `skolem.dfy`: `skolemize`.
- `instantiation.dfy`: `term_instantiate`.
- `validity.dfy`: `encode_validity`.
- `escalation.dfy`: `prove`.

The pure recursive functions of the source are Dafny functions. The loops of
`skolemize`, `term_instantiate`, `encode_validity` and `prove` are methods.
Each method is proved equal to a specification function (`Skolemization`,
`TermInstantiation`, `ValidityStream`), or is proved to follow the schedule
(`FollowsSchedule`), and the lemmas are stated about those functions.

Where the code and its comments disagree, the model follows the code:

- The comment above the loop of `prove` says the natural-proof depth rises
  by `i` and the counterexample size bound by `i // 3`. The code adds
  `i // 2` to both, and the model does the same (`Escalation.BoundsAt`).
- `term_instantiate` runs `range(depth)`, so depth 0 yields no formula, not
  even a ground input. `Instantiation.TermInstantiationDepthZero` states
  this.
- `prenex_normalize` rewrites an equivalence even when it contains no
  quantifier. So "a quantifier-free formula comes back unchanged" holds only
  for formulas without an equivalence
  (`Prenex.PrenexQuantifierFreeUnchanged`,
  `Prenex.PrenexIffQuantifierFree`).

## Model

| member | source | states |
|---|---|---|
| Names.NatToString | synthesis/fol/prover.py:233 | the index in a renamed variable's name is rendered as a non-empty string of decimal digits, one digit exactly for indices below 10 |
| Names.NatToStringInjective | synthesis/fol/prover.py:233-238 | different indices render as different strings |
| Names.IndexedName | synthesis/fol/prover.py:233 | `<prefix><index>` starts with the prefix and is strictly longer than it |
| Names.IndexedNameInjective | synthesis/fol/prover.py:233-238 | two names with the same prefix are equal only when their indices are |
| Sequences.Insert | synthesis/fol/prover.py:326-327 | setting a key of an ordered dict keeps the old keys in place: the new key is added at the end, an existing key changes nothing, and no duplicates appear |
| Sequences.InsertAllProperties | synthesis/fol/prover.py:334-335 | harvesting terms into the ordered set keeps its prefix, adds exactly the harvested terms and keeps it duplicate-free |
| Sequences.InsertAllPresent | synthesis/fol/prover.py:334-335 | harvesting terms that are all known leaves the ordered set unchanged |
| Sequences.InsertAllAppend | synthesis/fol/prover.py:304-306 | harvesting two lists in turn is the same as harvesting their concatenation |
| Syntax.SubstFreeVars | synthesis/fol/prover.py:324 | a variable free after substitution was free and unmapped before, or occurs in the image of a mapped free variable |
| Syntax.SubstQuantifierFree | synthesis/fol/prover.py:274 | substitution keeps a formula quantifier-free, and introduces no quantifier |
| Syntax.SubstEmpty | synthesis/fol/prover.py:323-324 | the empty substitution is the identity on formulas |
| Syntax.SortVariables | synthesis/fol/prover.py:318 | `sorted` returns the same variables, each once |
| Syntax.FreeVarSeqSound | synthesis/fol/prover.py:318 | the free-variable occurrences listed left to right are exactly the free variables |
| Syntax.FreeVariableList | synthesis/fol/prover.py:318 | the sorted free variables are exactly the free variables, each once |
| Syntax.GetFreshFunctionName | synthesis/fol/prover.py:265 | the fresh name extends the hint `sk` and is not the name of any function symbol of the language |
| Syntax.ExpandWithFunction | synthesis/fol/prover.py:271 | expanding a language keeps its sorts and relations and appends the symbol after the old function symbols |
| Syntax.ForallChain | synthesis/fol/prover.py:364 | quantifying the listed variables removes exactly them from the free variables |
| Syntax.QuantifyAllFreeVariables | synthesis/fol/prover.py:364 | the universal closure of the negated goal is a sentence |
| TermCollection.GroundTermsInTermSpec | synthesis/fol/prover.py:62-80 | a term is returned exactly when it is a ground subterm of the given sort |
| TermCollection.GroundTermsInListSpec | synthesis/fol/prover.py:73 | the sum over the arguments holds exactly the ground subterms of the sort of some argument |
| TermCollection.GroundTermsSpec | synthesis/fol/prover.py:83-90 | a term is returned exactly when it is a ground subterm of the sort of some atom argument, so every returned term is ground and of that sort |
| TermCollection.AllTermsFreeVars | synthesis/fol/prover.py:32-60 | every free variable occurs in a collected term, and in a quantifier-free formula every variable of a collected term is free |
| TermCollection.AllTermsFreeVarsBinary | synthesis/fol/prover.py:45-50 | for a binary connective, collecting terms from both sides still covers every free variable |
| Prenex.Dual | synthesis/fol/prover.py:16-20 | the dual kind is always the other kind |
| Prenex.FlipQuantifierList | synthesis/fol/prover.py:93-94 | the flipped list has the same length and variables, and every kind is changed |
| Prenex.FlipInvolution | synthesis/fol/prover.py:93-94 | flipping twice gives the list back |
| Prenex.FlipAppend | synthesis/fol/prover.py:93-94 | flipping distributes over concatenation |
| Prenex.CountQuantifiersZero | synthesis/fol/prover.py:97-118 | the count is zero exactly when the formula is quantifier-free |
| Prenex.LongestNameInTerm | synthesis/fol/prover.py:125-136 | no variable of the term has a longer name than the result, which is the default, `x` or the name of a variable of the term |
| Prenex.LongestNameAmong | synthesis/fol/prover.py:128-136 | the argument loop never shortens the best name, and returns a name at least as long as any variable name in the arguments |
| Prenex.LongestVariableName | synthesis/fol/prover.py:121-169 | no variable of the formula, free or bound, has a longer name than the result, which is the default, `x` or the name of one of its variables |
| Prenex.LongestInQuantifier | synthesis/fol/prover.py:160-168 | for a quantifier, neither the bound variable nor any variable of the body has a longer name than the result, which is `x` or one of those names |
| Prenex.LongestInBoth | synthesis/fol/prover.py:146-155 | for a binary connective, the result is at least as long as every variable name of both sides |
| Prenex.LongerOrLeft | synthesis/fol/prover.py:138-144 | the result is one of the two names and at least as long as both |
| Prenex.DualSlots | synthesis/fol/prover.py:212-219 | in the reference description, dualising keeps length and sorts and changes every kind |
| Prenex.Named | synthesis/fol/prover.py:233-238 | naming slots keeps their number |
| Prenex.NamedAppend | synthesis/fol/prover.py:208-209 | the right operand's quantifiers are numbered on from the left operand's |
| Prenex.NamedDual | synthesis/fol/prover.py:213-219 | flipping named quantifiers is naming the dualised slots |
| Prenex.PrenexQuantifiers | synthesis/fol/prover.py:182-239 | entry `k` of the list is the `k`-th quantifier of the formula in pre-order, named `<prefix><index + k>`, of the same sort, with its kind dualised under negation and on implication left sides, and an equivalence contributes both directions |
| Prenex.NamedKinds | synthesis/fol/prover.py:216-219 | in the naming of an implication's slots, the left slots' kinds are dualised and the right slots' are kept |
| Prenex.PrenexNames | synthesis/fol/prover.py:189-190 | entry `k` is named `<prefix><index + k>`, so all bound names of one result differ |
| Prenex.NamedNames | synthesis/fol/prover.py:233-238 | named slots are called `<prefix><index + k>` and no two share a name |
| Prenex.ImpliesKinds | synthesis/fol/prover.py:216-219 | in an implication, the left side's quantifiers come first with their kinds dualised, and the right side's follow unchanged |
| Prenex.PrenexBodyQuantifierFree | synthesis/fol/prover.py:186-187 | the returned formula is quantifier-free |
| Prenex.PrenexBodyFreeVars | synthesis/fol/prover.py:189-191 | every free variable of the body is a free variable of the input or a variable of the quantifier list |
| Prenex.PrenexKeepsFreeVars | synthesis/fol/prover.py:189-191 | free variables are not renamed: every free variable of the input is still free in the body |
| Prenex.PrenexFresh | synthesis/fol/prover.py:196-198 | with the default prefix, every bound name of the result is strictly longer than every variable name of the input, so none clashes |
| Prenex.ShapeCount | synthesis/fol/prover.py:97-118 | the pre-order quantifier description is at least as long as `count_quantifiers`, empty exactly when the count is zero, and equal to it without equivalences |
| Prenex.PrenexLength | synthesis/fol/prover.py:182-244 | the list has at least `count_quantifiers` entries, is empty exactly when the count is zero, and has exactly that many entries without equivalences |
| Prenex.PrenexQuantifierFreeUnchanged | synthesis/fol/prover.py:200-219 | a formula without quantifiers and equivalences comes back unchanged with an empty list |
| Prenex.PrenexIffQuantifierFree | synthesis/fol/prover.py:221-229 | an equivalence between quantifier-free sides without equivalences is rewritten into the conjunction of the two implications, with no quantifiers |
| Skolem.SkolemSymbol | synthesis/fol/prover.py:265-270 | a Skolem symbol's name is fresh for the language, its inputs are the sorts of the universals seen so far, and its output is the existential's sort |
| Skolem.SkolemTerm | synthesis/fol/prover.py:274 | the replacing term has exactly the universals seen so far as variables, and the existential's sort |
| Skolem.Skolemize | synthesis/fol/prover.py:247-276 | the loop over the quantifier list computes the Skolemization and returns a quantifier-free formula |
| Skolem.UniversalVariables | synthesis/fol/prover.py:258-262 | the universals collected are exactly the variables of the universal entries |
| Skolem.ExistentialCount | synthesis/fol/prover.py:263-271 | the number of Skolem symbols added is at most the list length, and is zero exactly when every entry is universal |
| Skolem.ExpandFreshDistinct | synthesis/fol/prover.py:265-271 | adding a symbol with a fresh name keeps function names distinct |
| Skolem.SkolemizeListLanguage | synthesis/fol/prover.py:260-274 | the walk keeps sorts and relations, keeps the old symbols in front, adds one symbol per existential, and keeps names distinct |
| Skolem.SkolemizeListSymbol | synthesis/fol/prover.py:264-271 | the symbol added for the `k`-th entry, an existential, sits right after those added for earlier existentials; its inputs are the sorts of the universals before it, its output is the entry's sort, and its name differs from every earlier symbol's |
| Skolem.SkolemizeListFreeVars | synthesis/fol/prover.py:273-274 | after the walk, a free variable is free in the body or among the universals, and is never an existential of the list |
| Skolem.PrenexFreshVariables | synthesis/fol/prover.py:189-198 | the variables of a prenex list are pairwise distinct |
| Skolem.SkolemizationBody | synthesis/fol/prover.py:252 | the Skolemized formula is quantifier-free; its free variables are free in the input or universals of its prenex list, never existentials |
| Skolem.SkolemizeListQuantifierFree | synthesis/fol/prover.py:252-274 | replacing existentials keeps the body quantifier-free |
| Skolem.SkolemizationLanguage | synthesis/fol/prover.py:254 | the expanded language keeps sorts, relations and the old symbols in front, gains one symbol per existential, keeps names distinct, and is unchanged without existentials |
| Instantiation.NullaryTerms | synthesis/fol/prover.py:298-301 | every collected constant is a ground term of the foreground sort |
| Instantiation.HarvestAll | synthesis/fol/prover.py:304-306 | every harvested term is a ground term of the foreground sort |
| Instantiation.Seed | synthesis/fol/prover.py:297-306 | the seed is duplicate-free and holds ground terms of the foreground sort only |
| Instantiation.NullaryTermsSpec | synthesis/fol/prover.py:298-301 | a term is collected exactly when it is a nullary symbol of the foreground sort applied to nothing, and nothing is collected when there is no such symbol |
| Instantiation.HarvestAllSpec | synthesis/fol/prover.py:304-306 | a term is harvested exactly when it is a ground term of the foreground sort in some input formula |
| Instantiation.SeedSpec | synthesis/fol/prover.py:297-306 | the seed is the constants of the foreground sort when there is one, and otherwise the ground terms of that sort in the inputs |
| Instantiation.FilterSort | synthesis/fol/prover.py:318 | exactly the variables of the foreground sort are kept, and distinctness is kept |
| Instantiation.ForegroundVariables | synthesis/fol/prover.py:318 | the sorted variables are exactly the free variables of the foreground sort, each once |
| Instantiation.PrependEachLength | synthesis/fol/prover.py:322 | one step of the product has `|g| * |ts|` tuples |
| Instantiation.PrependEachMembers | synthesis/fol/prover.py:322 | each tuple of one product step starts with an element of `g` and continues with a shorter tuple |
| Instantiation.PrependEachComplete | synthesis/fol/prover.py:322 | one product step contains every extension of every shorter tuple |
| Instantiation.TuplesMembers | synthesis/fol/prover.py:322 | every assignment has one term per variable, each drawn from the ground terms |
| Instantiation.TuplesComplete | synthesis/fol/prover.py:322 | every tuple over the ground terms is enumerated |
| Instantiation.TuplesCount | synthesis/fol/prover.py:322 | there are `|g|` to the power `n` assignments |
| Instantiation.ZipMap | synthesis/fol/prover.py:323 | the dictionary maps only listed variables to listed terms, and maps every variable when there are enough terms |
| Instantiation.ZipMapLookup | synthesis/fol/prover.py:323 | with distinct variables, the `i`-th variable maps to the `i`-th term |
| Instantiation.InsertEach | synthesis/fol/prover.py:334-335 | the harvesting loop inserts the terms in order |
| Instantiation.NullarySeed | synthesis/fol/prover.py:298-301 | the first seeding loop computes the constants of the foreground sort in order |
| Instantiation.HarvestSeed | synthesis/fol/prover.py:303-306 | the second seeding loop harvests the inputs' ground terms in order |
| Instantiation.EmitAndHarvest | synthesis/fol/prover.py:326-335 | one instance is emitted only when new and harvested in every case; the output only grows, and the new-formula flag tracks growth |
| Instantiation.SeedGround | synthesis/fol/prover.py:297-306 | the seeding loops compute the seed |
| Instantiation.InstantiateFormula | synthesis/fol/prover.py:317-335 | one formula's turn instantiates it over every tuple of a snapshot of the ground terms; the output only grows, and the flag tracks growth |
| Instantiation.InstantiateRound | synthesis/fol/prover.py:313-335 | one round processes the formulas in order, and the flag says whether anything was emitted |
| Instantiation.InstantiateRounds | synthesis/fol/prover.py:313-339 | the round loop runs at most `depth` rounds and stops after a round without a new formula |
| Instantiation.TermInstantiate | synthesis/fol/prover.py:279-339 | the generator fails on an interpreted sort, a missing ground term or a negative depth, in that order, and otherwise yields the instantiation stream |
| Instantiation.ExtendsTransitive | synthesis/fol/prover.py:294-295 | growth of both ordered sets is transitive |
| Instantiation.StepExtends | synthesis/fol/prover.py:326-335 | one instance only appends to both sets |
| Instantiation.ProcessAssignmentsExtends | synthesis/fol/prover.py:322-335 | a formula's assignments only append to both sets |
| Instantiation.RoundExtends | synthesis/fol/prover.py:317-335 | a round only appends to both sets |
| Instantiation.RoundsExtends | synthesis/fol/prover.py:313-339 | any number of rounds only appends to both sets, so yielded formulas are never retracted |
| Instantiation.RoundsMonotone | synthesis/fol/prover.py:313 | more rounds extend fewer rounds: a deeper run's output starts with a shallower run's |
| Instantiation.RoundsIncludeFirst | synthesis/fol/prover.py:313-339 | with positive depth, the result includes everything the first round produced |
| Instantiation.TermInstantiationMonotone | synthesis/fol/prover.py:279-339 | for depths `0 <= d1 <= d2`, both succeed or both fail, and the shallower stream is a prefix of the deeper one |
| Instantiation.TermInstantiationDepthZero | synthesis/fol/prover.py:311-313 | at depth 0, once the assertions pass, nothing is yielded |
| Instantiation.ProcessAssignmentsEmits | synthesis/fol/prover.py:322-331 | every assignment's instance is in the output, whether new or already emitted |
| Instantiation.RoundEmits | synthesis/fol/prover.py:317-331 | after a round, every input formula's instance under every tuple of the ground terms known at the round's start is in the output |
| Instantiation.TermInstantiationComplete | synthesis/fol/prover.py:279-339 | with positive depth, every instance of every input over the seed is yielded, and every input without foreground free variables is yielded itself |
| Instantiation.InstanceWithoutForeground | synthesis/fol/prover.py:318-324 | a formula without foreground free variables is its own instance |
| Instantiation.StepFixed | synthesis/fol/prover.py:326-335 | re-emitting a known instance of a closed state changes nothing |
| Instantiation.ProcessAssignmentsFixed | synthesis/fol/prover.py:322-335 | from a closed state, a formula's turn that emits nothing changes nothing |
| Instantiation.RoundFixed | synthesis/fol/prover.py:337-339 | from a closed state, a round that emits nothing leaves both sets unchanged, so the early exit is a fixpoint |
| Instantiation.AllRoundsFixed | synthesis/fol/prover.py:337-339 | repeating a fixpoint round changes nothing |
| Instantiation.RoundsAreAllRounds | synthesis/fol/prover.py:337-339 | from a closed state, stopping early gives the same result as always running `depth` rounds |
| Instantiation.StepClosed | synthesis/fol/prover.py:326-335 | harvesting every instance keeps every emitted formula's ground terms known |
| Instantiation.ProcessAssignmentsClosed | synthesis/fol/prover.py:322-335 | a formula's turn keeps the state closed |
| Instantiation.RoundClosed | synthesis/fol/prover.py:317-335 | a round keeps the state closed |
| Instantiation.InstanceOverGrows | synthesis/fol/prover.py:320 | an instance over a snapshot stays an instance over any later ground-term set |
| Instantiation.StepGood | synthesis/fol/prover.py:326-335 | emitting an instance over known ground terms keeps the invariant: ground terms are ground and foreground-sorted, the output is duplicate-free, and every output is an instance over them |
| Instantiation.ProcessAssignmentsGood | synthesis/fol/prover.py:322-335 | a formula's assignments over a snapshot keep the invariant |
| Instantiation.AssignmentGood | synthesis/fol/prover.py:320-335 | one instance under a snapshot assignment keeps the invariant |
| Instantiation.ProcessFormulaGood | synthesis/fol/prover.py:317-335 | a formula's turn keeps the invariant |
| Instantiation.RoundGood | synthesis/fol/prover.py:317-335 | a round keeps the invariant |
| Instantiation.RoundsGood | synthesis/fol/prover.py:313-339 | the round loop keeps the invariant |
| Instantiation.InstanceFreeVars | synthesis/fol/prover.py:318-324 | an instance under ground terms has no free variable of the foreground sort left, and no free variable the formula lacks |
| Instantiation.TermInstantiationSound | synthesis/fol/prover.py:286-331 | every yielded formula is yielded once, is an instance of an input under ground terms of the foreground sort, and has no free variable of that sort |
| Validity.SkolemizeSentences | synthesis/fol/prover.py:359-361 | the loop replaces each sentence in place by its Skolemization, threading the language, and computes the Skolemized list |
| Validity.EncodeValidity | synthesis/fol/prover.py:342-372 | the sentences are Skolemized in place, each in the language the previous ones left, then the negated goal; the result is the final language and the instantiation of the negated goal followed by the sentences |
| Validity.SkolemizeAllProperties | synthesis/fol/prover.py:359-361 | one quantifier-free formula per sentence, whose free variables are its own or universals of its prenex list; sorts, relations and old symbols stay, and names stay distinct |
| Validity.EncodingProperties | synthesis/fol/prover.py:352-367 | the list has one formula per sentence plus the negated goal, first; each is quantifier-free; the negated goal's free variables are universals of its prenex list; the language only gains function symbols after the old ones |
| Validity.EncodeValidityYieldsGround | synthesis/fol/prover.py:369-372 | with positive depth, every encoded formula without a foreground free variable is in the stream |
| Escalation.InitialBounds | examples/fossil_variants.py:213-240 | reading the bounds succeeds exactly when every given bound is an integer; with none given the defaults (1, 0, 0, 4) apply; an error names a given bound key whose value is not an integer |
| Escalation.InitialBoundsAsRequested | examples/fossil_variants.py:213-216 | each bound read is the integer given for it, or its default (1, 0, 0, 4) when none is given |
| Escalation.InitialLemmas | examples/fossil_variants.py:230 | reading the initial lemmas succeeds exactly when they are absent or given as lemmas; the result is the given list, or none when absent |
| Escalation.Forwarded | examples/fossil_variants.py:218-232 | the forwarded keywords are exactly the non-control ones, with unchanged values |
| Escalation.BoundsAtSchedule | examples/fossil_variants.py:237-240 | the per-iteration bounds equal the step-by-step schedule: the formula depth rises every iteration, the other three after every odd one |
| Escalation.BoundsMonotone | examples/fossil_variants.py:234-240 | iteration 0 uses the initial bounds, and no bound ever decreases |
| Escalation.ScheduleExtends | examples/fossil_variants.py:244-255 | one more call on schedule after failed calls keeps the trace on schedule |
| Escalation.Escalate | examples/fossil_variants.py:234-260 | the calls follow the schedule, the first receiving the initial bounds and lemmas and each later one the previous call's lemmas; the loop stops at the first proof and returns that call's lemmas, or runs out after `maxIterations` calls |
| Escalation.DeleteKey | examples/fossil_variants.py:218-219 | deleting a key if present removes exactly that key |
| Escalation.DeleteBoundKeys | examples/fossil_variants.py:218-228 | the four deletions remove exactly the bound keys |
| Escalation.ForwardedIsRemoval | examples/fossil_variants.py:218-232 | the keywords left after the deletions are the forwarded ones |
| Escalation.Prove | examples/fossil_variants.py:180-260 | an unknown theory or an ill-typed initial lemma or bound fails before any call; otherwise the calls follow the schedule from the initial bounds and lemmas, with exactly the non-control keywords forwarded, and the outcome is the lemmas of the first successful call |
| Escalation.ProveStartsAsRequested | examples/fossil_variants.py:213-253 | on success, the first call `prove` makes gets each bound as given or at its default (1, 0, 0, 4), and the given initial lemmas or none |

## Left out

- Semantics are not modelled: there are no models, satisfaction, or LFP
  semantics. So neither the equisatisfiability of Skolemisation nor the
  soundness of the validity reduction is stated. The properties are
  syntactic: shape, names, free variables, languages, and the contents and
  order of the stream.
- Generators are modelled by the whole sequence they yield, in yield order.
  Python's `assert` statements become `Failure` results. The model fails up
  front, where the generator would fail on its first `next`.
- `Theory.convert_to_fo_theory`, `Language.get_sublanguage`,
  `Language.get_sort` and `Parser.parse_formula` are not part of this model.
  A theory is its language and its first-order sentences. `prove` takes the
  set of known theory names and a request carrying the names and the
  statement as text.
- `FOSSIL.prove_lfp` is not part of this model. It is a function parameter
  from a call to its result.
- The formula library (`base`) is not part of this model. Substitution, free
  variables, `get_fresh_function_name`, `expand_with_function` and
  `quantify_all_free_variables` are modelled on a plain algebraic syntax.
  The fresh name is `sk` followed by enough `_` characters to be longer than
  every existing name. The library's own numbering scheme is not modelled.
- Syntax.SortVariables: `sorted` orders variables by the library's
  comparison, which is not part of this model. A lexicographic order on
  name, then sort name, is used. Only the set of variables and its
  distinctness are stated, not the order.
- The library's substitution is not part of this model. `Syntax.Subst`
  lets a quantifier shadow its own variable and does not avoid capture.
  Prenex normalisation and Skolemisation substitute only into
  quantifier-free bodies, where no capture can happen. Term instantiation
  substitutes into the formulas it is given; in `encode_validity` these are
  quantifier-free.
- `get_longest_variable_name` (lines 170-177) and `prenex_normalize` (lines
  241-242) each have a branch for other quantifier-free formulas. These
  branches cannot be reached for the formula constructors modelled here and
  are left out.
- The `print` of each iteration of `prove` is left out.
- Escalation.Escalate: the `while True` loop has no cap in the source. The
  model runs at most `maxIterations` iterations and returns `Unfinished` when
  they are used up.
- Escalation.InitialLemmas: `tuple(...)` also accepts strings and other
  iterables, which Python would split into elements. Here any value other
  than a lemma list is an error.
- Escalation.InitialBounds: Python accepts any value that supports
  `+ iteration // 2`, including booleans and floats. The model accepts
  integers only.
- Integers are unbounded in Python and in the model.
