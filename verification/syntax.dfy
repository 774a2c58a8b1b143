/**
 * The first-order syntax the prover works on: sorts, symbols, terms, formulas,
 * signatures ("languages"), free variables and substitution. In the repository
 * these live in the logic collaborator `synthesis/fol/base`; this module gives
 * them the minimal closed form the prover's case analysis needs.
 */
module Syntax {
  import opened Wrappers
  import opened Sequences

  /** A sort; one with an SMT hook is interpreted by the decision procedure (e.g. `Int`). */
  datatype Sort = Sort(name: string, smtHook: Option<string>)

  datatype FunctionSymbol = FunctionSymbol(inputSorts: seq<Sort>, outputSort: Sort, name: string)

  datatype RelationSymbol = RelationSymbol(inputSorts: seq<Sort>, name: string)

  /** Variables are compared by name and sort. */
  datatype Variable = Variable(name: string, sort: Sort)

  datatype Term =
    | Var(variable: Variable)
    | App(symbol: FunctionSymbol, arguments: seq<Term>)

  datatype Formula =
    | Falsum
    | Verum
    | RelApp(relation: RelationSymbol, arguments: seq<Term>)
    | Eq(lhs: Term, rhs: Term)
    | And(left: Formula, right: Formula)
    | Or(left: Formula, right: Formula)
    | Not(operand: Formula)
    | Implies(left: Formula, right: Formula)
    | Iff(left: Formula, right: Formula)
    | Forall(variable: Variable, body: Formula)
    | Exists(variable: Variable, body: Formula)

  /** A signature; extending it yields a new value. */
  datatype Language = Language(
    sorts: seq<Sort>,
    functionSymbols: seq<FunctionSymbol>,
    relationSymbols: seq<RelationSymbol>)

  function TermSort(t: Term): Sort {
    match t
    case Var(v) => v.sort
    case App(f, _) => f.outputSort
  }

  function TermVars(t: Term): set<Variable> {
    match t
    case Var(v) => {v}
    case App(_, args) => set i, v | 0 <= i < |args| && v in TermVars(args[i]) :: v
  }

  predicate IsGround(t: Term) {
    TermVars(t) == {}
  }

  function VarTerms(vs: seq<Variable>): (r: seq<Term>)
    ensures |r| == |vs|
    ensures forall i :: 0 <= i < |vs| ==> r[i] == Var(vs[i])
  {
    seq(|vs|, i requires 0 <= i < |vs| => Var(vs[i]))
  }

  function FreeVars(f: Formula): set<Variable> {
    match f
    case Falsum => {}
    case Verum => {}
    case RelApp(_, args) => set i, v | 0 <= i < |args| && v in TermVars(args[i]) :: v
    case Eq(l, r) => TermVars(l) + TermVars(r)
    case And(l, r) => FreeVars(l) + FreeVars(r)
    case Or(l, r) => FreeVars(l) + FreeVars(r)
    case Not(g) => FreeVars(g)
    case Implies(l, r) => FreeVars(l) + FreeVars(r)
    case Iff(l, r) => FreeVars(l) + FreeVars(r)
    case Forall(x, b) => FreeVars(b) - {x}
    case Exists(x, b) => FreeVars(b) - {x}
  }

  /** Every variable occurring in the formula, bound ones included. */
  function VariablesIn(f: Formula): set<Variable> {
    match f
    case Falsum => {}
    case Verum => {}
    case RelApp(_, args) => set i, v | 0 <= i < |args| && v in TermVars(args[i]) :: v
    case Eq(l, r) => TermVars(l) + TermVars(r)
    case And(l, r) => VariablesIn(l) + VariablesIn(r)
    case Or(l, r) => VariablesIn(l) + VariablesIn(r)
    case Not(g) => VariablesIn(g)
    case Implies(l, r) => VariablesIn(l) + VariablesIn(r)
    case Iff(l, r) => VariablesIn(l) + VariablesIn(r)
    case Forall(x, b) => {x} + VariablesIn(b)
    case Exists(x, b) => {x} + VariablesIn(b)
  }

  predicate QuantifierFree(f: Formula) {
    match f
    case Falsum => true
    case Verum => true
    case RelApp(_, _) => true
    case Eq(_, _) => true
    case And(l, r) => QuantifierFree(l) && QuantifierFree(r)
    case Or(l, r) => QuantifierFree(l) && QuantifierFree(r)
    case Not(g) => QuantifierFree(g)
    case Implies(l, r) => QuantifierFree(l) && QuantifierFree(r)
    case Iff(l, r) => QuantifierFree(l) && QuantifierFree(r)
    case Forall(_, _) => false
    case Exists(_, _) => false
  }

  function SubstTerm(t: Term, m: map<Variable, Term>): Term {
    match t
    case Var(v) => if v in m then m[v] else t
    case App(f, args) => App(f, seq(|args|, i requires 0 <= i < |args| => SubstTerm(args[i], m)))
  }

  /**
   * Simultaneous substitution. A quantifier shadows its own variable; there is
   * no capture avoidance. The prover only substitutes into quantifier-free
   * formulas, where neither matters.
   */
  function Subst(f: Formula, m: map<Variable, Term>): Formula {
    match f
    case Falsum => f
    case Verum => f
    case RelApp(r, args) => RelApp(r, seq(|args|, i requires 0 <= i < |args| => SubstTerm(args[i], m)))
    case Eq(l, r) => Eq(SubstTerm(l, m), SubstTerm(r, m))
    case And(l, r) => And(Subst(l, m), Subst(r, m))
    case Or(l, r) => Or(Subst(l, m), Subst(r, m))
    case Not(g) => Not(Subst(g, m))
    case Implies(l, r) => Implies(Subst(l, m), Subst(r, m))
    case Iff(l, r) => Iff(Subst(l, m), Subst(r, m))
    case Forall(x, b) => Forall(x, Subst(b, m - {x}))
    case Exists(x, b) => Exists(x, Subst(b, m - {x}))
  }

  /** A variable free after substitution was free and unmapped before, or comes from the image of a free mapped variable. */
  lemma {:induction false} SubstTermVars(t: Term, m: map<Variable, Term>, v: Variable)
    requires v in TermVars(SubstTerm(t, m))
    ensures (v in TermVars(t) && v !in m) || exists k :: k in m && k in TermVars(t) && v in TermVars(m[k])
  {
    match t
    case Var(x) =>
      if x in m {
        assert x in TermVars(t) && v in TermVars(m[x]);
      }
    case App(f, args) =>
      var args' := seq(|args|, i requires 0 <= i < |args| => SubstTerm(args[i], m));
      var i :| 0 <= i < |args'| && v in TermVars(args'[i]);
      SubstTermVars(args[i], m, v);
      if v in TermVars(args[i]) && v !in m {
        assert v in TermVars(t);
      } else {
        var k :| k in m && k in TermVars(args[i]) && v in TermVars(m[k]);
        assert k in TermVars(t);
      }
  }

  lemma {:induction false} SubstFreeVars(f: Formula, m: map<Variable, Term>, v: Variable)
    requires v in FreeVars(Subst(f, m))
    ensures (v in FreeVars(f) && v !in m) || exists k :: k in m && k in FreeVars(f) && v in TermVars(m[k])
  {
    match f
    case Falsum =>
    case Verum =>
    case RelApp(r, args) =>
      var args' := seq(|args|, i requires 0 <= i < |args| => SubstTerm(args[i], m));
      var i :| 0 <= i < |args'| && v in TermVars(args'[i]);
      SubstTermVars(args[i], m, v);
      if v in TermVars(args[i]) && v !in m {
        assert v in FreeVars(f);
      } else {
        var k :| k in m && k in TermVars(args[i]) && v in TermVars(m[k]);
        assert k in FreeVars(f);
      }
    case Eq(l, r) =>
      if v in TermVars(SubstTerm(l, m)) { SubstTermVars(l, m, v); } else { SubstTermVars(r, m, v); }
    case And(l, r) =>
      if v in FreeVars(Subst(l, m)) { SubstFreeVars(l, m, v); } else { SubstFreeVars(r, m, v); }
    case Or(l, r) =>
      if v in FreeVars(Subst(l, m)) { SubstFreeVars(l, m, v); } else { SubstFreeVars(r, m, v); }
    case Not(g) =>
      SubstFreeVars(g, m, v);
    case Implies(l, r) =>
      if v in FreeVars(Subst(l, m)) { SubstFreeVars(l, m, v); } else { SubstFreeVars(r, m, v); }
    case Iff(l, r) =>
      if v in FreeVars(Subst(l, m)) { SubstFreeVars(l, m, v); } else { SubstFreeVars(r, m, v); }
    case Forall(x, b) =>
      SubstFreeVars(b, m - {x}, v);
      if !(v in FreeVars(b) && v !in m - {x}) {
        var k :| k in m - {x} && k in FreeVars(b) && v in TermVars((m - {x})[k]);
        assert k in FreeVars(f);
      }
    case Exists(x, b) =>
      SubstFreeVars(b, m - {x}, v);
      if !(v in FreeVars(b) && v !in m - {x}) {
        var k :| k in m - {x} && k in FreeVars(b) && v in TermVars((m - {x})[k]);
        assert k in FreeVars(f);
      }
  }

  /** An unmapped variable of the term survives substitution. */
  lemma {:induction false} SubstTermKeeps(t: Term, m: map<Variable, Term>, v: Variable)
    requires v in TermVars(t) && v !in m
    ensures v in TermVars(SubstTerm(t, m))
  {
    match t
    case Var(x) =>
    case App(f, args) =>
      var args' := seq(|args|, i requires 0 <= i < |args| => SubstTerm(args[i], m));
      var i :| 0 <= i < |args| && v in TermVars(args[i]);
      SubstTermKeeps(args[i], m, v);
      assert v in TermVars(args'[i]);
  }

  /** An unmapped free variable of the formula stays free after substitution. */
  lemma {:induction false} SubstKeeps(f: Formula, m: map<Variable, Term>, v: Variable)
    requires v in FreeVars(f) && v !in m
    ensures v in FreeVars(Subst(f, m))
  {
    match f
    case Falsum =>
    case Verum =>
    case RelApp(r, args) =>
      var args' := seq(|args|, i requires 0 <= i < |args| => SubstTerm(args[i], m));
      var i :| 0 <= i < |args| && v in TermVars(args[i]);
      SubstTermKeeps(args[i], m, v);
      assert v in TermVars(args'[i]);
    case Eq(l, r) =>
      if v in TermVars(l) { SubstTermKeeps(l, m, v); } else { SubstTermKeeps(r, m, v); }
    case And(l, r) =>
      if v in FreeVars(l) { SubstKeeps(l, m, v); } else { SubstKeeps(r, m, v); }
    case Or(l, r) =>
      if v in FreeVars(l) { SubstKeeps(l, m, v); } else { SubstKeeps(r, m, v); }
    case Not(g) =>
      SubstKeeps(g, m, v);
    case Implies(l, r) =>
      if v in FreeVars(l) { SubstKeeps(l, m, v); } else { SubstKeeps(r, m, v); }
    case Iff(l, r) =>
      if v in FreeVars(l) { SubstKeeps(l, m, v); } else { SubstKeeps(r, m, v); }
    case Forall(x, b) =>
      SubstKeeps(b, m - {x}, v);
    case Exists(x, b) =>
      SubstKeeps(b, m - {x}, v);
  }

  /** Substitution keeps the connective structure, so it keeps a formula quantifier-free. */
  lemma {:induction false} SubstQuantifierFree(f: Formula, m: map<Variable, Term>)
    ensures QuantifierFree(Subst(f, m)) == QuantifierFree(f)
  {
    match f
    case And(l, r) => SubstQuantifierFree(l, m); SubstQuantifierFree(r, m);
    case Or(l, r) => SubstQuantifierFree(l, m); SubstQuantifierFree(r, m);
    case Not(g) => SubstQuantifierFree(g, m);
    case Implies(l, r) => SubstQuantifierFree(l, m); SubstQuantifierFree(r, m);
    case Iff(l, r) => SubstQuantifierFree(l, m); SubstQuantifierFree(r, m);
    case _ =>
  }

  lemma {:induction false} SubstTermEmpty(t: Term)
    ensures SubstTerm(t, map[]) == t
  {
    match t
    case Var(_) =>
    case App(f, args) =>
      var args' := seq(|args|, i requires 0 <= i < |args| => SubstTerm(args[i], map[]));
      forall i | 0 <= i < |args| ensures args'[i] == args[i] {
        SubstTermEmpty(args[i]);
      }
      assert args' == args;
  }

  /** The empty substitution is the identity. */
  lemma {:induction false} SubstEmpty(f: Formula)
    ensures Subst(f, map[]) == f
  {
    match f
    case Falsum =>
    case Verum =>
    case RelApp(r, args) =>
      var args' := seq(|args|, i requires 0 <= i < |args| => SubstTerm(args[i], map[]));
      forall i | 0 <= i < |args| ensures args'[i] == args[i] {
        SubstTermEmpty(args[i]);
      }
      assert args' == args;
    case Eq(l, r) => SubstTermEmpty(l); SubstTermEmpty(r);
    case And(l, r) => SubstEmpty(l); SubstEmpty(r);
    case Or(l, r) => SubstEmpty(l); SubstEmpty(r);
    case Not(g) => SubstEmpty(g);
    case Implies(l, r) => SubstEmpty(l); SubstEmpty(r);
    case Iff(l, r) => SubstEmpty(l); SubstEmpty(r);
    case Forall(x, b) => var e: map<Variable, Term> := map[]; assert e - {x} == e; SubstEmpty(b);
    case Exists(x, b) => var e: map<Variable, Term> := map[]; assert e - {x} == e; SubstEmpty(b);
  }

  // ---------------------------------------------------------------------------
  // An ordered list of the free variables. The logic collaborator sorts
  // variables by an order of its own; this model uses the lexicographic order
  // on names, then on sort names.

  predicate StringLess(a: string, b: string) {
    if a == [] then b != []
    else if b == [] then false
    else if a[0] == b[0] then StringLess(a[1..], b[1..])
    else a[0] < b[0]
  }

  predicate VariableLess(a: Variable, b: Variable) {
    StringLess(a.name, b.name) || (a.name == b.name && StringLess(a.sort.name, b.sort.name))
  }

  function InsertVariable(x: Variable, s: seq<Variable>): (r: seq<Variable>)
    ensures forall v :: v in r <==> v == x || v in s
    ensures Distinct(s) ==> Distinct(r)
  {
    if x in s then s
    else if s == [] || VariableLess(x, s[0]) then [x] + s
    else
      var rest := InsertVariable(x, s[1..]);
      assert Distinct(s) ==> Distinct([s[0]] + rest) by {
        if Distinct(s) { DistinctCons(s[0], rest); }
      }
      [s[0]] + rest
  }

  /** Insertion sort, dropping repeated variables. */
  function SortVariables(xs: seq<Variable>): (r: seq<Variable>)
    ensures forall v :: v in r <==> v in xs
    ensures Distinct(r)
  {
    if xs == [] then [] else InsertVariable(xs[0], SortVariables(xs[1..]))
  }

  function TermVarSeq(t: Term): seq<Variable> {
    match t
    case Var(v) => [v]
    case App(_, args) => ArgsVarSeq(args)
  }

  function ArgsVarSeq(args: seq<Term>): seq<Variable> {
    if args == [] then [] else TermVarSeq(args[0]) + ArgsVarSeq(args[1..])
  }

  function Without(s: seq<Variable>, x: Variable): (r: seq<Variable>)
    ensures forall v :: v in r <==> v in s && v != x
  {
    if s == [] then [] else (if s[0] == x then [] else [s[0]]) + Without(s[1..], x)
  }

  /** Free-variable occurrences, left to right, with repetitions. */
  function FreeVarSeq(f: Formula): seq<Variable> {
    match f
    case Falsum => []
    case Verum => []
    case RelApp(_, args) => ArgsVarSeq(args)
    case Eq(l, r) => TermVarSeq(l) + TermVarSeq(r)
    case And(l, r) => FreeVarSeq(l) + FreeVarSeq(r)
    case Or(l, r) => FreeVarSeq(l) + FreeVarSeq(r)
    case Not(g) => FreeVarSeq(g)
    case Implies(l, r) => FreeVarSeq(l) + FreeVarSeq(r)
    case Iff(l, r) => FreeVarSeq(l) + FreeVarSeq(r)
    case Forall(x, b) => Without(FreeVarSeq(b), x)
    case Exists(x, b) => Without(FreeVarSeq(b), x)
  }

  lemma {:induction false} TermVarSeqSound(t: Term)
    ensures forall v :: v in TermVarSeq(t) <==> v in TermVars(t)
  {
    match t
    case Var(_) =>
    case App(_, args) => ArgsVarSeqSound(args);
  }

  lemma {:induction false} ArgsVarSeqSound(args: seq<Term>)
    ensures forall v :: v in ArgsVarSeq(args) <==> exists i :: 0 <= i < |args| && v in TermVars(args[i])
  {
    if args != [] {
      TermVarSeqSound(args[0]);
      ArgsVarSeqSound(args[1..]);
      forall v | v in ArgsVarSeq(args) ensures exists i :: 0 <= i < |args| && v in TermVars(args[i]) {
        if v !in TermVarSeq(args[0]) {
          assert v in ArgsVarSeq(args[1..]);
          var i :| 0 <= i < |args[1..]| && v in TermVars(args[1..][i]);
          assert v in TermVars(args[i + 1]);
        }
      }
      forall v | exists i :: 0 <= i < |args| && v in TermVars(args[i]) ensures v in ArgsVarSeq(args) {
        var i :| 0 <= i < |args| && v in TermVars(args[i]);
        if i > 0 {
          assert v in TermVars(args[1..][i - 1]);
        }
      }
    }
  }

  lemma {:induction false} FreeVarSeqSound(f: Formula)
    ensures forall v :: v in FreeVarSeq(f) <==> v in FreeVars(f)
  {
    match f
    case Falsum =>
    case Verum =>
    case RelApp(_, args) => ArgsVarSeqSound(args);
    case Eq(l, r) => TermVarSeqSound(l); TermVarSeqSound(r);
    case And(l, r) => FreeVarSeqSound(l); FreeVarSeqSound(r);
    case Or(l, r) => FreeVarSeqSound(l); FreeVarSeqSound(r);
    case Not(g) => FreeVarSeqSound(g);
    case Implies(l, r) => FreeVarSeqSound(l); FreeVarSeqSound(r);
    case Iff(l, r) => FreeVarSeqSound(l); FreeVarSeqSound(r);
    case Forall(_, b) => FreeVarSeqSound(b);
    case Exists(_, b) => FreeVarSeqSound(b);
  }

  /** The free variables in the collaborator's sorted order, each once. */
  function FreeVariableList(f: Formula): (r: seq<Variable>)
    ensures forall v :: v in r <==> v in FreeVars(f)
    ensures Distinct(r)
  {
    FreeVarSeqSound(f);
    SortVariables(FreeVarSeq(f))
  }

  // ---------------------------------------------------------------------------
  // Signatures

  function FunctionNames(lang: Language): set<string> {
    set i | 0 <= i < |lang.functionSymbols| :: lang.functionSymbols[i].name
  }

  /** No two function symbols of the language share a name. */
  predicate FunctionNamesDistinct(lang: Language) {
    forall i, j :: 0 <= i < j < |lang.functionSymbols| ==>
      lang.functionSymbols[i].name != lang.functionSymbols[j].name
  }

  function MaxNameLength(fs: seq<FunctionSymbol>): (n: nat)
    ensures forall i :: 0 <= i < |fs| ==> |fs[i].name| <= n
  {
    if fs == [] then 0
    else
      var rest := MaxNameLength(fs[1..]);
      if |fs[0].name| > rest then |fs[0].name| else rest
  }

  /**
   * A function name that is not yet in the language and starts with `hint`.
   * The collaborator's own naming scheme is not part of this model; this one
   * is fresh because it is longer than every existing name.
   */
  function GetFreshFunctionName(lang: Language, hint: string): (r: string)
    ensures r !in FunctionNames(lang)
    ensures |r| > |hint| && r[..|hint|] == hint
  {
    var n := MaxNameLength(lang.functionSymbols);
    hint + seq(n + 1, _ => '_')
  }

  /** A new language value with one more function symbol, appended last. */
  function ExpandWithFunction(lang: Language, symbol: FunctionSymbol): (r: Language)
    ensures r.sorts == lang.sorts && r.relationSymbols == lang.relationSymbols
    ensures r.functionSymbols == lang.functionSymbols + [symbol]
    ensures FunctionNames(r) == FunctionNames(lang) + {symbol.name}
  {
    var r := lang.(functionSymbols := lang.functionSymbols + [symbol]);
    var n := |lang.functionSymbols|;
    assert symbol.name == r.functionSymbols[n].name;
    assert forall i :: 0 <= i < n ==> r.functionSymbols[i] == lang.functionSymbols[i];
    assert forall name :: name in FunctionNames(r) ==> name in FunctionNames(lang) || name == symbol.name;
    r
  }

  // ---------------------------------------------------------------------------
  // Universal closure

  function ForallChain(vs: seq<Variable>, f: Formula): (r: Formula)
    ensures FreeVars(r) == FreeVars(f) - set v | v in vs
  {
    if vs == [] then f
    else
      var inner := ForallChain(vs[1..], f);
      assert (set v | v in vs) == {vs[0]} + set v | v in vs[1..];
      Forall(vs[0], inner)
  }

  /** `Formula.quantify_all_free_variables`: the universal closure, a sentence. */
  function QuantifyAllFreeVariables(f: Formula): (r: Formula)
    ensures FreeVars(r) == {}
  {
    ForallChain(FreeVariableList(f), f)
  }
}
