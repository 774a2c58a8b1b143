/**
 * Quantifier kinds, quantifier lists and prenex normalisation
 * (`QuantifierKind.dual`, `NaturalProof.flip_quantifier_list`,
 * `count_quantifiers`, `get_longest_variable_name`, `prenex_normalize`).
 *
 * Normalisation pulls every quantifier of a formula into a list, outermost
 * first, and returns the quantifier-free rest. Bound variables are renamed to
 * `<prefix><index>`, where the prefix is by default the longest variable name
 * of the input, so the new names are strictly longer than every old one.
 */
module Prenex {
  import opened Syntax
  import opened Names

  datatype QuantifierKind = Universal | Existential

  /** `QuantifierKind.dual`: swaps the two kinds. */
  function Dual(k: QuantifierKind): (r: QuantifierKind)
    ensures r != k
  {
    if k == Universal then Existential else Universal
  }

  /** One entry `(variable, kind)` of a quantifier list. */
  datatype Quantifier = Quantifier(variable: Variable, kind: QuantifierKind)

  /** Outermost quantifier first. */
  type QuantifierList = seq<Quantifier>

  /** `flip_quantifier_list`: the same variables, every kind dualised. */
  function FlipQuantifierList(qs: QuantifierList): (r: QuantifierList)
    ensures |r| == |qs|
    ensures forall i :: 0 <= i < |qs| ==> r[i].variable == qs[i].variable && r[i].kind != qs[i].kind
  {
    seq(|qs|, i requires 0 <= i < |qs| => Quantifier(qs[i].variable, Dual(qs[i].kind)))
  }

  /** Flipping twice gives back the list. */
  lemma FlipInvolution(qs: QuantifierList)
    ensures FlipQuantifierList(FlipQuantifierList(qs)) == qs
  {
  }

  lemma FlipAppend(a: QuantifierList, b: QuantifierList)
    ensures FlipQuantifierList(a + b) == FlipQuantifierList(a) + FlipQuantifierList(b)
  {
  }

  /** `count_quantifiers`: the number of quantifier nodes of the formula. */
  function CountQuantifiers(f: Formula): nat {
    match f
    case Falsum => 0
    case Verum => 0
    case RelApp(_, _) => 0
    case Eq(_, _) => 0
    case And(l, r) => CountQuantifiers(l) + CountQuantifiers(r)
    case Or(l, r) => CountQuantifiers(l) + CountQuantifiers(r)
    case Implies(l, r) => CountQuantifiers(l) + CountQuantifiers(r)
    case Iff(l, r) => CountQuantifiers(l) + CountQuantifiers(r)
    case Not(g) => CountQuantifiers(g)
    case Forall(_, b) => CountQuantifiers(b) + 1
    case Exists(_, b) => CountQuantifiers(b) + 1
  }

  /** A formula has no quantifier node exactly when it is quantifier-free. */
  lemma {:induction false} CountQuantifiersZero(f: Formula)
    ensures CountQuantifiers(f) == 0 <==> QuantifierFree(f)
  {
    match f
    case And(l, r) => CountQuantifiersZero(l); CountQuantifiersZero(r);
    case Or(l, r) => CountQuantifiersZero(l); CountQuantifiersZero(r);
    case Implies(l, r) => CountQuantifiersZero(l); CountQuantifiersZero(r);
    case Iff(l, r) => CountQuantifiersZero(l); CountQuantifiersZero(r);
    case Not(g) => CountQuantifiersZero(g);
    case _ =>
  }

  // ---------------------------------------------------------------------------
  // get_longest_variable_name. Recursive calls always use the default "x",
  // as in the source; only the outermost call sees the caller's default.

  function LongestNameInTerm(t: Term, default: string): (r: string)
    ensures forall v :: v in TermVars(t) ==> |v.name| <= |r|
    ensures r == default || r == "x" || exists v :: v in TermVars(t) && v.name == r
  {
    match t
    case Var(v) => v.name
    case App(_, args) => LongestNameAmong(args, default)
  }

  /** The loop over arguments: a name replaces the best so far only when strictly longer. */
  function LongestNameAmong(args: seq<Term>, best: string): (r: string)
    ensures |best| <= |r|
    ensures forall i, v :: 0 <= i < |args| && v in TermVars(args[i]) ==> |v.name| <= |r|
    ensures r == best || r == "x" || exists i, v :: 0 <= i < |args| && v in TermVars(args[i]) && v.name == r
  {
    if args == [] then best
    else
      var name := LongestNameInTerm(args[0], "x");
      var r := LongestNameAmong(args[1..], if |name| > |best| then name else best);
      assert forall i, v :: 1 <= i < |args| && v in TermVars(args[i]) ==> v in TermVars(args[1..][i - 1]);
      assert forall i, v :: 0 <= i < |args[1..]| && v in TermVars(args[1..][i]) ==> v in TermVars(args[i + 1]);
      r
  }

  function LongestVariableName(f: Formula, default: string): (r: string)
    ensures forall v :: v in VariablesIn(f) ==> |v.name| <= |r|
    ensures r == default || r == "x" || exists v :: v in VariablesIn(f) && v.name == r
    decreases Weight(f), 1
  {
    match f
    case Falsum => default
    case Verum => default
    case RelApp(_, args) => LongestNameAmong(args, default)
    case Eq(l, r) => LongerOrLeft(LongestNameInTerm(l, "x"), LongestNameInTerm(r, "x"))
    case And(l, r) => LongestInBoth(l, r)
    case Or(l, r) => LongestInBoth(l, r)
    case Implies(l, r) => LongestInBoth(l, r)
    case Iff(l, r) => LongestInBoth(l, r)
    case Not(g) => LongestVariableName(g, "x")
    case Forall(x, b) => LongestInQuantifier(x, b)
    case Exists(x, b) => LongestInQuantifier(x, b)
  }

  /** A quantifier: its variable's name unless the body has a strictly longer one. */
  function LongestInQuantifier(x: Variable, b: Formula): (r: string)
    ensures forall v :: v in {x} + VariablesIn(b) ==> |v.name| <= |r|
    ensures r == "x" || exists v :: v in {x} + VariablesIn(b) && v.name == r
    decreases 1 + Weight(b), 0
  {
    LongerOrLeft(x.name, LongestVariableName(b, "x"))
  }

  /** A binary connective: the longer of the two sides' names, the left one on a tie. */
  function LongestInBoth(l: Formula, r: Formula): (r': string)
    ensures forall v :: v in VariablesIn(l) + VariablesIn(r) ==> |v.name| <= |r'|
    ensures r' == "x" || exists v :: v in VariablesIn(l) + VariablesIn(r) && v.name == r'
    decreases 1 + Weight(l) + Weight(r), 0
  {
    LongerOrLeft(LongestVariableName(l, "x"), LongestVariableName(r, "x"))
  }

  /** The left name unless the right one is strictly longer. */
  function LongerOrLeft(left: string, right: string): (r: string)
    ensures |left| <= |r| && |right| <= |r|
    ensures r == left || r == right
  {
    if |left| >= |right| then left else right
  }

  // ---------------------------------------------------------------------------
  // prenex_normalize

  /** The quantifier list and the quantifier-free body. */
  datatype PrenexForm = PrenexForm(quantifiers: QuantifierList, body: Formula)

  /**
   * A termination measure in which an equivalence outweighs the conjunction of
   * the two implications it is rewritten into.
   */
  function Weight(f: Formula): nat {
    match f
    case Falsum => 1
    case Verum => 1
    case RelApp(_, _) => 1
    case Eq(_, _) => 1
    case And(l, r) => 1 + Weight(l) + Weight(r)
    case Or(l, r) => 1 + Weight(l) + Weight(r)
    case Implies(l, r) => 1 + Weight(l) + Weight(r)
    case Iff(l, r) => 4 + 2 * Weight(l) + 2 * Weight(r)
    case Not(g) => 1 + Weight(g)
    case Forall(_, b) => 1 + Weight(b)
    case Exists(_, b) => 1 + Weight(b)
  }

  /** The variable `<prefix><index>` that replaces a bound variable of sort `sort`. */
  function RenamedVariable(prefix: string, index: nat, sort: Sort): Variable {
    Variable(IndexedName(prefix, index), sort)
  }

  function PrenexNormalize(f: Formula, index: nat, prefix: string): PrenexForm
    decreases Weight(f)
  {
    match f
    case Falsum => PrenexForm([], f)
    case Verum => PrenexForm([], f)
    case RelApp(_, _) => PrenexForm([], f)
    case Eq(_, _) => PrenexForm([], f)
    case And(l, r) =>
      var left := PrenexNormalize(l, index, prefix);
      var right := PrenexNormalize(r, index + |left.quantifiers|, prefix);
      PrenexForm(left.quantifiers + right.quantifiers, And(left.body, right.body))
    case Or(l, r) =>
      var left := PrenexNormalize(l, index, prefix);
      var right := PrenexNormalize(r, index + |left.quantifiers|, prefix);
      PrenexForm(left.quantifiers + right.quantifiers, Or(left.body, right.body))
    case Not(g) =>
      var inner := PrenexNormalize(g, index, prefix);
      PrenexForm(FlipQuantifierList(inner.quantifiers), Not(inner.body))
    case Implies(l, r) =>
      var left := PrenexNormalize(l, index, prefix);
      var right := PrenexNormalize(r, index + |left.quantifiers|, prefix);
      PrenexForm(FlipQuantifierList(left.quantifiers) + right.quantifiers, Implies(left.body, right.body))
    case Iff(l, r) =>
      assert Weight(And(Implies(l, r), Implies(r, l))) == 3 + 2 * Weight(l) + 2 * Weight(r);
      PrenexNormalize(And(Implies(l, r), Implies(r, l)), index, prefix)
    case Forall(x, b) =>
      var inner := PrenexNormalize(b, index + 1, prefix);
      var renamed := RenamedVariable(prefix, index, x.sort);
      PrenexForm([Quantifier(renamed, Universal)] + inner.quantifiers, Subst(inner.body, map[x := Var(renamed)]))
    case Exists(x, b) =>
      var inner := PrenexNormalize(b, index + 1, prefix);
      var renamed := RenamedVariable(prefix, index, x.sort);
      PrenexForm([Quantifier(renamed, Existential)] + inner.quantifiers, Subst(inner.body, map[x := Var(renamed)]))
  }

  /** `prenex_normalize(formula)`: index 0, prefix the longest variable name (default "x"). */
  function PrenexNormalizeDefault(f: Formula): PrenexForm {
    PrenexNormalize(f, 0, LongestVariableName(f, "x"))
  }

  // ---------------------------------------------------------------------------
  // Reference description of the quantifier list: the sorts and kinds of the
  // quantifiers in pre-order, kinds dualised under a negation and on the left
  // of an implication; an equivalence contributes both directions.

  datatype Slot = Slot(sort: Sort, kind: QuantifierKind)

  function DualSlots(s: seq<Slot>): (r: seq<Slot>)
    ensures |r| == |s|
    ensures forall i :: 0 <= i < |s| ==> r[i].sort == s[i].sort && r[i].kind != s[i].kind
  {
    seq(|s|, i requires 0 <= i < |s| => Slot(s[i].sort, Dual(s[i].kind)))
  }

  function Shape(f: Formula): seq<Slot> {
    match f
    case Falsum => []
    case Verum => []
    case RelApp(_, _) => []
    case Eq(_, _) => []
    case And(l, r) => Shape(l) + Shape(r)
    case Or(l, r) => Shape(l) + Shape(r)
    case Not(g) => DualSlots(Shape(g))
    case Implies(l, r) => DualSlots(Shape(l)) + Shape(r)
    case Iff(l, r) => DualSlots(Shape(l)) + Shape(r) + DualSlots(Shape(r)) + Shape(l)
    case Forall(x, b) => [Slot(x.sort, Universal)] + Shape(b)
    case Exists(x, b) => [Slot(x.sort, Existential)] + Shape(b)
  }

  /** Slots turned into quantifiers named `<prefix><index>`, `<prefix><index + 1>`, ... */
  function Named(s: seq<Slot>, prefix: string, index: nat): (r: QuantifierList)
    ensures |r| == |s|
  {
    seq(|s|, k requires 0 <= k < |s| => Quantifier(RenamedVariable(prefix, index + k, s[k].sort), s[k].kind))
  }

  lemma NamedAppend(a: seq<Slot>, b: seq<Slot>, prefix: string, index: nat)
    ensures Named(a + b, prefix, index) == Named(a, prefix, index) + Named(b, prefix, index + |a|)
  {
  }

  lemma NamedDual(s: seq<Slot>, prefix: string, index: nat)
    ensures FlipQuantifierList(Named(s, prefix, index)) == Named(DualSlots(s), prefix, index)
  {
  }

  /**
   * Entry `k` of the list is the `k`-th quantifier of the formula in
   * pre-order, renamed to `<prefix><index + k>`, with its kind dualised under
   * an odd number of negations and implication left sides.
   */
  lemma {:induction false} PrenexQuantifiers(f: Formula, index: nat, prefix: string)
    ensures PrenexNormalize(f, index, prefix).quantifiers == Named(Shape(f), prefix, index)
    decreases Weight(f), 1
  {
    match f
    case Falsum =>
    case Verum =>
    case RelApp(_, _) =>
    case Eq(_, _) =>
    case And(l, r) => QuantifiersAnd(l, r, index, prefix);
    case Or(l, r) => QuantifiersOr(l, r, index, prefix);
    case Implies(l, r) => QuantifiersImplies(l, r, index, prefix);
    case Not(g) => QuantifiersNot(g, index, prefix);
    case Iff(l, r) => QuantifiersIff(l, r, index, prefix);
    case Forall(x, b) => QuantifiersForall(x, b, index, prefix);
    case Exists(x, b) => QuantifiersExists(x, b, index, prefix);
  }

  lemma {:induction false} QuantifiersNot(g: Formula, index: nat, prefix: string)
    ensures PrenexNormalize(Not(g), index, prefix).quantifiers == Named(Shape(Not(g)), prefix, index)
    decreases Weight(Not(g)), 0
  {
    PrenexQuantifiers(g, index, prefix);
    NamedDual(Shape(g), prefix, index);
  }

  lemma {:induction false} QuantifiersForall(x: Variable, b: Formula, index: nat, prefix: string)
    ensures PrenexNormalize(Forall(x, b), index, prefix).quantifiers == Named(Shape(Forall(x, b)), prefix, index)
    decreases Weight(Forall(x, b)), 0
  {
    var inner := PrenexNormalize(b, index + 1, prefix);
    var head := Quantifier(RenamedVariable(prefix, index, x.sort), Universal);
    assert PrenexNormalize(Forall(x, b), index, prefix).quantifiers == [head] + inner.quantifiers;
    PrenexQuantifiers(b, index + 1, prefix);
    NamedAppend([Slot(x.sort, Universal)], Shape(b), prefix, index);
    assert Named([Slot(x.sort, Universal)], prefix, index) == [head];
    assert Shape(Forall(x, b)) == [Slot(x.sort, Universal)] + Shape(b);
  }

  lemma {:induction false} QuantifiersExists(x: Variable, b: Formula, index: nat, prefix: string)
    ensures PrenexNormalize(Exists(x, b), index, prefix).quantifiers == Named(Shape(Exists(x, b)), prefix, index)
    decreases Weight(Exists(x, b)), 0
  {
    var inner := PrenexNormalize(b, index + 1, prefix);
    var head := Quantifier(RenamedVariable(prefix, index, x.sort), Existential);
    assert PrenexNormalize(Exists(x, b), index, prefix).quantifiers == [head] + inner.quantifiers;
    PrenexQuantifiers(b, index + 1, prefix);
    NamedAppend([Slot(x.sort, Existential)], Shape(b), prefix, index);
    assert Named([Slot(x.sort, Existential)], prefix, index) == [head];
    assert Shape(Exists(x, b)) == [Slot(x.sort, Existential)] + Shape(b);
  }

  lemma {:induction false} QuantifiersAnd(l: Formula, r: Formula, index: nat, prefix: string)
    ensures PrenexNormalize(And(l, r), index, prefix).quantifiers == Named(Shape(And(l, r)), prefix, index)
    decreases Weight(And(l, r)), 0
  {
    var left := PrenexNormalize(l, index, prefix);
    var j := index + |left.quantifiers|;
    var right := PrenexNormalize(r, j, prefix);
    assert PrenexNormalize(And(l, r), index, prefix).quantifiers == left.quantifiers + right.quantifiers;
    PrenexQuantifiers(l, index, prefix);
    PrenexQuantifiers(r, j, prefix);
    assert j == index + |Shape(l)|;
    NamedAppend(Shape(l), Shape(r), prefix, index);
    assert Shape(And(l, r)) == Shape(l) + Shape(r);
  }

  lemma {:induction false} QuantifiersOr(l: Formula, r: Formula, index: nat, prefix: string)
    ensures PrenexNormalize(Or(l, r), index, prefix).quantifiers == Named(Shape(Or(l, r)), prefix, index)
    decreases Weight(Or(l, r)), 0
  {
    var left := PrenexNormalize(l, index, prefix);
    var j := index + |left.quantifiers|;
    var right := PrenexNormalize(r, j, prefix);
    assert PrenexNormalize(Or(l, r), index, prefix).quantifiers == left.quantifiers + right.quantifiers;
    PrenexQuantifiers(l, index, prefix);
    PrenexQuantifiers(r, j, prefix);
    assert j == index + |Shape(l)|;
    NamedAppend(Shape(l), Shape(r), prefix, index);
    assert Shape(Or(l, r)) == Shape(l) + Shape(r);
  }

  lemma {:induction false} QuantifiersImplies(l: Formula, r: Formula, index: nat, prefix: string)
    ensures PrenexNormalize(Implies(l, r), index, prefix).quantifiers == Named(Shape(Implies(l, r)), prefix, index)
    decreases Weight(Implies(l, r)), 0
  {
    var left := PrenexNormalize(l, index, prefix);
    var j := index + |left.quantifiers|;
    var right := PrenexNormalize(r, j, prefix);
    assert PrenexNormalize(Implies(l, r), index, prefix).quantifiers
        == FlipQuantifierList(left.quantifiers) + right.quantifiers;
    PrenexQuantifiers(l, index, prefix);
    PrenexQuantifiers(r, j, prefix);
    assert j == index + |Shape(l)|;
    NamedDual(Shape(l), prefix, index);
    NamedAppend(DualSlots(Shape(l)), Shape(r), prefix, index);
    assert Shape(Implies(l, r)) == DualSlots(Shape(l)) + Shape(r);
  }

  lemma {:induction false} QuantifiersIff(l: Formula, r: Formula, index: nat, prefix: string)
    ensures PrenexNormalize(Iff(l, r), index, prefix).quantifiers == Named(Shape(Iff(l, r)), prefix, index)
    decreases Weight(Iff(l, r)), 0
  {
    var g := And(Implies(l, r), Implies(r, l));
    assert Weight(g) == 3 + 2 * Weight(l) + 2 * Weight(r);
    assert PrenexNormalize(Iff(l, r), index, prefix) == PrenexNormalize(g, index, prefix);
    PrenexQuantifiers(g, index, prefix);
    ShapeIff(l, r);
  }

  /** The rewritten equivalence has the equivalence's slots. */
  lemma ShapeIff(l: Formula, r: Formula)
    ensures Shape(And(Implies(l, r), Implies(r, l))) == Shape(Iff(l, r))
  {
    var a, b, c, d := DualSlots(Shape(l)), Shape(r), DualSlots(Shape(r)), Shape(l);
    assert Shape(And(Implies(l, r), Implies(r, l))) == (a + b) + (c + d);
    assert (a + b) + (c + d) == a + b + c + d;
  }

  /** Entry `k` is named `<prefix><index + k>`, so all bound names of one result differ. */
  lemma PrenexNames(f: Formula, index: nat, prefix: string)
    ensures var q := PrenexNormalize(f, index, prefix).quantifiers;
      (forall k :: 0 <= k < |q| ==> q[k].variable.name == IndexedName(prefix, index + k)) &&
      (forall j, k :: 0 <= j < k < |q| ==> q[j].variable.name != q[k].variable.name)
  {
    PrenexQuantifiers(f, index, prefix);
    NamedNames(Shape(f), prefix, index);
  }

  lemma NamedNames(s: seq<Slot>, prefix: string, index: nat)
    ensures var q := Named(s, prefix, index);
      (forall k :: 0 <= k < |q| ==> q[k].variable.name == IndexedName(prefix, index + k)) &&
      (forall j, k :: 0 <= j < k < |q| ==> q[j].variable.name != q[k].variable.name)
  {
    var q := Named(s, prefix, index);
    forall j, k | 0 <= j < k < |q| ensures q[j].variable.name != q[k].variable.name {
      if q[j].variable.name == q[k].variable.name {
        IndexedNameInjective(prefix, index + j, index + k);
      }
    }
  }

  /**
   * Polarity under an implication: the kinds attached to the left side's
   * quantifiers are the duals of those the left side gets when normalised on
   * its own; the right side's are unchanged.
   */
  lemma ImpliesKinds(a: Formula, b: Formula, index: nat, prefix: string)
    ensures var q := PrenexNormalize(Implies(a, b), index, prefix).quantifiers;
      var qa := PrenexNormalizeDefault(a).quantifiers;
      var qb := PrenexNormalizeDefault(b).quantifiers;
      |q| == |qa| + |qb| &&
      (forall k :: 0 <= k < |qa| ==> q[k].kind == Dual(qa[k].kind)) &&
      (forall k :: 0 <= k < |qb| ==> q[|qa| + k].kind == qb[k].kind)
  {
    var pa, pb := LongestVariableName(a, "x"), LongestVariableName(b, "x");
    PrenexQuantifiers(Implies(a, b), index, prefix);
    PrenexQuantifiers(a, 0, pa);
    PrenexQuantifiers(b, 0, pb);
    assert Shape(Implies(a, b)) == DualSlots(Shape(a)) + Shape(b);
    NamedKinds(Shape(a), Shape(b), prefix, index, pa, pb);
  }

  /** The kinds of named slots follow the slots, whatever the names. */
  lemma NamedKinds(sa: seq<Slot>, sb: seq<Slot>, prefix: string, index: nat, pa: string, pb: string)
    ensures var q, qa, qb := Named(DualSlots(sa) + sb, prefix, index), Named(sa, pa, 0), Named(sb, pb, 0);
      |q| == |qa| + |qb| &&
      (forall k :: 0 <= k < |qa| ==> q[k].kind == Dual(qa[k].kind)) &&
      (forall k :: 0 <= k < |qb| ==> q[|qa| + k].kind == qb[k].kind)
  {
    var q := Named(DualSlots(sa) + sb, prefix, index);
    forall k | 0 <= k < |sb| ensures q[|sa| + k].kind == sb[k].kind {
      assert (DualSlots(sa) + sb)[|sa| + k] == sb[k];
    }
  }

  /** The returned body never contains a quantifier. */
  lemma {:induction false} PrenexBodyQuantifierFree(f: Formula, index: nat, prefix: string)
    ensures QuantifierFree(PrenexNormalize(f, index, prefix).body)
    decreases Weight(f)
  {
    match f
    case Falsum =>
    case Verum =>
    case RelApp(_, _) =>
    case Eq(_, _) =>
    case And(l, r) =>
      PrenexBodyQuantifierFree(l, index, prefix);
      PrenexBodyQuantifierFree(r, index + |PrenexNormalize(l, index, prefix).quantifiers|, prefix);
    case Or(l, r) =>
      PrenexBodyQuantifierFree(l, index, prefix);
      PrenexBodyQuantifierFree(r, index + |PrenexNormalize(l, index, prefix).quantifiers|, prefix);
    case Not(g) =>
      PrenexBodyQuantifierFree(g, index, prefix);
    case Implies(l, r) =>
      PrenexBodyQuantifierFree(l, index, prefix);
      PrenexBodyQuantifierFree(r, index + |PrenexNormalize(l, index, prefix).quantifiers|, prefix);
    case Iff(l, r) =>
      assert Weight(And(Implies(l, r), Implies(r, l))) == 3 + 2 * Weight(l) + 2 * Weight(r);
      PrenexBodyQuantifierFree(And(Implies(l, r), Implies(r, l)), index, prefix);
    case Forall(x, b) =>
      var inner := PrenexNormalize(b, index + 1, prefix);
      PrenexBodyQuantifierFree(b, index + 1, prefix);
      SubstQuantifierFree(inner.body, map[x := Var(RenamedVariable(prefix, index, x.sort))]);
    case Exists(x, b) =>
      var inner := PrenexNormalize(b, index + 1, prefix);
      PrenexBodyQuantifierFree(b, index + 1, prefix);
      SubstQuantifierFree(inner.body, map[x := Var(RenamedVariable(prefix, index, x.sort))]);
  }

  /** The body's free variables are the formula's own free variables or bound variables of the list. */
  predicate BodyVarsBound(f: Formula, p: PrenexForm) {
    forall v :: v in FreeVars(p.body) ==>
      v in FreeVars(f) || exists k :: 0 <= k < |p.quantifiers| && p.quantifiers[k].variable == v
  }

  lemma {:induction false} PrenexBodyFreeVars(f: Formula, index: nat, prefix: string)
    ensures BodyVarsBound(f, PrenexNormalize(f, index, prefix))
    decreases Weight(f), 1
  {
    match f
    case Falsum =>
    case Verum =>
    case RelApp(_, _) =>
    case Eq(_, _) =>
    case And(l, r) => BodyVarsAnd(l, r, index, prefix);
    case Or(l, r) => BodyVarsOr(l, r, index, prefix);
    case Implies(l, r) => BodyVarsImplies(l, r, index, prefix);
    case Not(g) => BodyVarsNot(g, index, prefix);
    case Iff(l, r) => BodyVarsIff(l, r, index, prefix);
    case Forall(x, b) => BodyVarsForall(x, b, index, prefix);
    case Exists(x, b) => BodyVarsExists(x, b, index, prefix);
  }

  /** No free variable is renamed: every free variable of the formula is still free in the body. */
  lemma {:induction false} PrenexKeepsFreeVars(f: Formula, index: nat, prefix: string, v: Variable)
    requires v in FreeVars(f)
    ensures v in FreeVars(PrenexNormalize(f, index, prefix).body)
    decreases Weight(f)
  {
    match f
    case RelApp(_, _) =>
    case Eq(_, _) =>
    case And(l, r) =>
      var left := PrenexNormalize(l, index, prefix);
      var j := index + |left.quantifiers|;
      assert PrenexNormalize(f, index, prefix).body == And(left.body, PrenexNormalize(r, j, prefix).body);
      if v in FreeVars(l) { PrenexKeepsFreeVars(l, index, prefix, v); } else { PrenexKeepsFreeVars(r, j, prefix, v); }
    case Or(l, r) =>
      var left := PrenexNormalize(l, index, prefix);
      var j := index + |left.quantifiers|;
      assert PrenexNormalize(f, index, prefix).body == Or(left.body, PrenexNormalize(r, j, prefix).body);
      if v in FreeVars(l) { PrenexKeepsFreeVars(l, index, prefix, v); } else { PrenexKeepsFreeVars(r, j, prefix, v); }
    case Implies(l, r) =>
      var left := PrenexNormalize(l, index, prefix);
      var j := index + |left.quantifiers|;
      assert PrenexNormalize(f, index, prefix).body == Implies(left.body, PrenexNormalize(r, j, prefix).body);
      if v in FreeVars(l) { PrenexKeepsFreeVars(l, index, prefix, v); } else { PrenexKeepsFreeVars(r, j, prefix, v); }
    case Not(g) =>
      PrenexKeepsFreeVars(g, index, prefix, v);
    case Iff(l, r) =>
      var g := And(Implies(l, r), Implies(r, l));
      assert Weight(g) < Weight(f);
      assert PrenexNormalize(f, index, prefix) == PrenexNormalize(g, index, prefix);
      PrenexKeepsFreeVars(g, index, prefix, v);
    case Forall(x, b) =>
      var inner := PrenexNormalize(b, index + 1, prefix);
      var m := map[x := Var(RenamedVariable(prefix, index, x.sort))];
      assert PrenexNormalize(f, index, prefix).body == Subst(inner.body, m);
      PrenexKeepsFreeVars(b, index + 1, prefix, v);
      SubstKeeps(inner.body, m, v);
    case Exists(x, b) =>
      var inner := PrenexNormalize(b, index + 1, prefix);
      var m := map[x := Var(RenamedVariable(prefix, index, x.sort))];
      assert PrenexNormalize(f, index, prefix).body == Subst(inner.body, m);
      PrenexKeepsFreeVars(b, index + 1, prefix, v);
      SubstKeeps(inner.body, m, v);
  }

  lemma {:induction false} BodyVarsAnd(l: Formula, r: Formula, index: nat, prefix: string)
    ensures BodyVarsBound(And(l, r), PrenexNormalize(And(l, r), index, prefix))
    decreases Weight(And(l, r)), 0
  {
    var left := PrenexNormalize(l, index, prefix);
    var right := PrenexNormalize(r, index + |left.quantifiers|, prefix);
    var p := PrenexNormalize(And(l, r), index, prefix);
    assert p == PrenexForm(left.quantifiers + right.quantifiers, And(left.body, right.body));
    PrenexBodyFreeVars(l, index, prefix);
    PrenexBodyFreeVars(r, index + |left.quantifiers|, prefix);
    BinaryBodyFreeVars(And(l, r), l, r, left, right, p, left.quantifiers);
  }

  lemma {:induction false} BodyVarsOr(l: Formula, r: Formula, index: nat, prefix: string)
    ensures BodyVarsBound(Or(l, r), PrenexNormalize(Or(l, r), index, prefix))
    decreases Weight(Or(l, r)), 0
  {
    var left := PrenexNormalize(l, index, prefix);
    var right := PrenexNormalize(r, index + |left.quantifiers|, prefix);
    var p := PrenexNormalize(Or(l, r), index, prefix);
    assert p == PrenexForm(left.quantifiers + right.quantifiers, Or(left.body, right.body));
    PrenexBodyFreeVars(l, index, prefix);
    PrenexBodyFreeVars(r, index + |left.quantifiers|, prefix);
    BinaryBodyFreeVars(Or(l, r), l, r, left, right, p, left.quantifiers);
  }

  lemma {:induction false} BodyVarsImplies(l: Formula, r: Formula, index: nat, prefix: string)
    ensures BodyVarsBound(Implies(l, r), PrenexNormalize(Implies(l, r), index, prefix))
    decreases Weight(Implies(l, r)), 0
  {
    var left := PrenexNormalize(l, index, prefix);
    var right := PrenexNormalize(r, index + |left.quantifiers|, prefix);
    var flipped := FlipQuantifierList(left.quantifiers);
    var p := PrenexNormalize(Implies(l, r), index, prefix);
    assert p == PrenexForm(flipped + right.quantifiers, Implies(left.body, right.body));
    PrenexBodyFreeVars(l, index, prefix);
    PrenexBodyFreeVars(r, index + |left.quantifiers|, prefix);
    BinaryBodyFreeVars(Implies(l, r), l, r, left, right, p, flipped);
  }

  lemma {:induction false} BodyVarsNot(g: Formula, index: nat, prefix: string)
    ensures BodyVarsBound(Not(g), PrenexNormalize(Not(g), index, prefix))
    decreases Weight(Not(g)), 0
  {
    var inner := PrenexNormalize(g, index, prefix);
    var p := PrenexNormalize(Not(g), index, prefix);
    PrenexBodyFreeVars(g, index, prefix);
    assert p.body == Not(inner.body) && p.quantifiers == FlipQuantifierList(inner.quantifiers);
    forall v | v in FreeVars(p.body) && v !in FreeVars(Not(g))
      ensures exists k :: 0 <= k < |p.quantifiers| && p.quantifiers[k].variable == v
    {
      assert v in FreeVars(inner.body) && v !in FreeVars(g);
      var k :| 0 <= k < |inner.quantifiers| && inner.quantifiers[k].variable == v;
      assert p.quantifiers[k].variable == v;
    }
  }

  lemma {:induction false} BodyVarsIff(l: Formula, r: Formula, index: nat, prefix: string)
    ensures BodyVarsBound(Iff(l, r), PrenexNormalize(Iff(l, r), index, prefix))
    decreases Weight(Iff(l, r)), 0
  {
    var g := And(Implies(l, r), Implies(r, l));
    assert Weight(g) == 3 + 2 * Weight(l) + 2 * Weight(r);
    PrenexBodyFreeVars(g, index, prefix);
    assert FreeVars(g) == FreeVars(Iff(l, r));
  }

  lemma {:induction false} BodyVarsForall(x: Variable, b: Formula, index: nat, prefix: string)
    ensures BodyVarsBound(Forall(x, b), PrenexNormalize(Forall(x, b), index, prefix))
    decreases Weight(Forall(x, b)), 0
  {
    var inner := PrenexNormalize(b, index + 1, prefix);
    var renamed := RenamedVariable(prefix, index, x.sort);
    var p := PrenexNormalize(Forall(x, b), index, prefix);
    assert p == PrenexForm([Quantifier(renamed, Universal)] + inner.quantifiers, Subst(inner.body, map[x := Var(renamed)]));
    PrenexBodyFreeVars(b, index + 1, prefix);
    QuantifierBodyFreeVars(Forall(x, b), x, b, inner, p, renamed);
  }

  lemma {:induction false} BodyVarsExists(x: Variable, b: Formula, index: nat, prefix: string)
    ensures BodyVarsBound(Exists(x, b), PrenexNormalize(Exists(x, b), index, prefix))
    decreases Weight(Exists(x, b)), 0
  {
    var inner := PrenexNormalize(b, index + 1, prefix);
    var renamed := RenamedVariable(prefix, index, x.sort);
    var p := PrenexNormalize(Exists(x, b), index, prefix);
    assert p == PrenexForm([Quantifier(renamed, Existential)] + inner.quantifiers, Subst(inner.body, map[x := Var(renamed)]));
    PrenexBodyFreeVars(b, index + 1, prefix);
    QuantifierBodyFreeVars(Exists(x, b), x, b, inner, p, renamed);
  }

  /** Position by position, the two lists quantify the same variables. */
  predicate SameVariables(a: QuantifierList, b: QuantifierList) {
    |a| == |b| && forall k :: 0 <= k < |a| ==> a[k].variable == b[k].variable
  }

  lemma BinaryBodyFreeVars(f: Formula, l: Formula, r: Formula, left: PrenexForm, right: PrenexForm,
                           p: PrenexForm, leftList: QuantifierList)
    requires FreeVars(f) == FreeVars(l) + FreeVars(r)
    requires FreeVars(p.body) == FreeVars(left.body) + FreeVars(right.body)
    requires p.quantifiers == leftList + right.quantifiers
    requires SameVariables(leftList, left.quantifiers)
    requires BodyVarsBound(l, left) && BodyVarsBound(r, right)
    ensures BodyVarsBound(f, p)
  {
    forall v | v in FreeVars(p.body) && v !in FreeVars(f)
      ensures exists k :: 0 <= k < |p.quantifiers| && p.quantifiers[k].variable == v
    {
      if v in FreeVars(left.body) {
        assert v !in FreeVars(l);
        var k :| 0 <= k < |left.quantifiers| && left.quantifiers[k].variable == v;
        assert p.quantifiers[k] == leftList[k];
        assert p.quantifiers[k].variable == v;
      } else {
        assert v in FreeVars(right.body) && v !in FreeVars(r);
        var k :| 0 <= k < |right.quantifiers| && right.quantifiers[k].variable == v;
        assert p.quantifiers[|leftList| + k] == right.quantifiers[k];
        assert p.quantifiers[|leftList| + k].variable == v;
      }
    }
  }

  lemma QuantifierBodyFreeVars(f: Formula, x: Variable, b: Formula, inner: PrenexForm, p: PrenexForm, renamed: Variable)
    requires FreeVars(f) == FreeVars(b) - {x}
    requires p.body == Subst(inner.body, map[x := Var(renamed)])
    requires |p.quantifiers| == 1 + |inner.quantifiers| && p.quantifiers[0].variable == renamed
    requires forall k :: 0 <= k < |inner.quantifiers| ==> p.quantifiers[k + 1] == inner.quantifiers[k]
    requires forall v :: v in FreeVars(inner.body) ==>
      v in FreeVars(b) || exists k :: 0 <= k < |inner.quantifiers| && inner.quantifiers[k].variable == v
    ensures forall v :: v in FreeVars(p.body) ==>
      v in FreeVars(f) || exists k :: 0 <= k < |p.quantifiers| && p.quantifiers[k].variable == v
  {
    var m := map[x := Var(renamed)];
    forall v | v in FreeVars(p.body) && v !in FreeVars(f)
      ensures exists k :: 0 <= k < |p.quantifiers| && p.quantifiers[k].variable == v
    {
      SubstFreeVars(inner.body, m, v);
      if v in FreeVars(inner.body) && v !in m {
        var k :| 0 <= k < |inner.quantifiers| && inner.quantifiers[k].variable == v;
        assert p.quantifiers[k + 1].variable == v;
      } else {
        var k :| k in m && k in FreeVars(inner.body) && v in TermVars(m[k]);
        assert v == renamed;
      }
    }
  }

  // ---------------------------------------------------------------------------
  // Freshness and formulas without quantifiers

  /**
   * With the default prefix, every bound name of the result is strictly longer
   * than every variable name of the input, so none of them clashes with a
   * free variable or with another bound variable of the input.
   */
  lemma PrenexFresh(f: Formula)
    ensures var q := PrenexNormalizeDefault(f).quantifiers;
      forall k, v :: 0 <= k < |q| && v in VariablesIn(f) ==> |v.name| < |q[k].variable.name|
  {
    var prefix := LongestVariableName(f, "x");
    PrenexQuantifiers(f, 0, prefix);
    var q := Named(Shape(f), prefix, 0);
    forall k, v | 0 <= k < |q| && v in VariablesIn(f) ensures |v.name| < |q[k].variable.name| {
      assert q[k].variable.name == IndexedName(prefix, k);
    }
  }

  /** No equivalence anywhere in the formula. */
  predicate IffFree(f: Formula) {
    match f
    case Falsum => true
    case Verum => true
    case RelApp(_, _) => true
    case Eq(_, _) => true
    case And(l, r) => IffFree(l) && IffFree(r)
    case Or(l, r) => IffFree(l) && IffFree(r)
    case Implies(l, r) => IffFree(l) && IffFree(r)
    case Iff(_, _) => false
    case Not(g) => IffFree(g)
    case Forall(_, b) => IffFree(b)
    case Exists(_, b) => IffFree(b)
  }

  /**
   * The list is never shorter than the number of quantifier nodes; it is
   * empty exactly when there are none, and of exactly that length when no
   * equivalence has been doubled.
   */
  lemma {:induction false} ShapeCount(f: Formula)
    ensures CountQuantifiers(f) <= |Shape(f)|
    ensures |Shape(f)| == 0 <==> CountQuantifiers(f) == 0
    ensures IffFree(f) ==> |Shape(f)| == CountQuantifiers(f)
  {
    match f
    case Falsum =>
    case Verum =>
    case RelApp(_, _) =>
    case Eq(_, _) =>
    case And(l, r) => ShapeCount(l); ShapeCount(r);
    case Or(l, r) => ShapeCount(l); ShapeCount(r);
    case Implies(l, r) => ShapeCount(l); ShapeCount(r);
    case Iff(l, r) => ShapeCount(l); ShapeCount(r);
    case Not(g) => ShapeCount(g);
    case Forall(_, b) => ShapeCount(b);
    case Exists(_, b) => ShapeCount(b);
  }

  lemma PrenexLength(f: Formula, index: nat, prefix: string)
    ensures var q := PrenexNormalize(f, index, prefix).quantifiers;
      CountQuantifiers(f) <= |q| &&
      (q == [] <==> CountQuantifiers(f) == 0) &&
      (IffFree(f) ==> |q| == CountQuantifiers(f))
  {
    PrenexQuantifiers(f, index, prefix);
    ShapeCount(f);
  }

  /**
   * A formula without quantifiers and without equivalences comes back
   * unchanged with the empty list (an equivalence would be rewritten into two
   * implications even here).
   */
  lemma {:induction false} PrenexQuantifierFreeUnchanged(f: Formula, index: nat, prefix: string)
    requires CountQuantifiers(f) == 0 && IffFree(f)
    ensures PrenexNormalize(f, index, prefix) == PrenexForm([], f)
    decreases Weight(f)
  {
    match f
    case Falsum =>
    case Verum =>
    case RelApp(_, _) =>
    case Eq(_, _) =>
    case And(l, r) =>
      PrenexQuantifierFreeUnchanged(l, index, prefix);
      PrenexQuantifierFreeUnchanged(r, index, prefix);
    case Or(l, r) =>
      PrenexQuantifierFreeUnchanged(l, index, prefix);
      PrenexQuantifierFreeUnchanged(r, index, prefix);
    case Implies(l, r) =>
      PrenexQuantifierFreeUnchanged(l, index, prefix);
      PrenexQuantifierFreeUnchanged(r, index, prefix);
    case Not(g) =>
      PrenexQuantifierFreeUnchanged(g, index, prefix);
  }

  /**
   * An equivalence is rewritten even without quantifiers: between two
   * quantifier-free, equivalence-free sides it becomes the conjunction of the
   * two implications, with the empty list.
   */
  lemma {:induction false} PrenexIffQuantifierFree(l: Formula, r: Formula, index: nat, prefix: string)
    requires CountQuantifiers(l) == 0 && CountQuantifiers(r) == 0 && IffFree(l) && IffFree(r)
    ensures PrenexNormalize(Iff(l, r), index, prefix) == PrenexForm([], And(Implies(l, r), Implies(r, l)))
  {
    var a, b := Implies(l, r), Implies(r, l);
    assert CountQuantifiers(a) == 0 && CountQuantifiers(b) == 0 && IffFree(a) && IffFree(b);
    var g := And(a, b);
    assert CountQuantifiers(g) == 0 && IffFree(g);
    PrenexQuantifierFreeUnchanged(g, index, prefix);
    PrenexIffUnfold(l, r, index, prefix);
  }

  /** One step of `prenex_normalize` on an equivalence: the rewrite into two implications. */
  lemma {:induction false} PrenexIffUnfold(l: Formula, r: Formula, index: nat, prefix: string)
    ensures PrenexNormalize(Iff(l, r), index, prefix) == PrenexNormalize(And(Implies(l, r), Implies(r, l)), index, prefix)
  {
    assert Weight(And(Implies(l, r), Implies(r, l))) < Weight(Iff(l, r));
  }
}
