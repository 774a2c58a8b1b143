/**
 * Skolemisation (`NaturalProof.skolemize`): the formula is put in prenex
 * form and its quantifier list is walked outermost first. A universal
 * variable joins the list of universals seen so far; an existential variable
 * gets a fresh function symbol whose arguments are the universals seen so far,
 * the language is extended with it, and the variable is replaced in the body
 * by the symbol applied to those universals. The result is the extended
 * language and the quantifier-free body, read as universally closed.
 */
module Skolem {
  import opened Syntax
  import opened Sequences
  import opened Names
  import opened Prenex

  /** The sorts of a list of variables, in order. */
  function Sorts(vs: seq<Variable>): (r: seq<Sort>)
    ensures |r| == |vs|
    ensures forall i :: 0 <= i < |vs| ==> r[i] == vs[i].sort
  {
    seq(|vs|, i requires 0 <= i < |vs| => vs[i].sort)
  }

  /** The Skolem function for an existential `x` under the universals `us`, named fresh for `lang`. */
  function SkolemSymbol(lang: Language, us: seq<Variable>, x: Variable): (r: FunctionSymbol)
    ensures r.name !in FunctionNames(lang)
    ensures r.inputSorts == Sorts(us) && r.outputSort == x.sort
  {
    FunctionSymbol(Sorts(us), x.sort, GetFreshFunctionName(lang, "sk"))
  }

  /** The term that replaces the existential: the Skolem function applied to the universals. */
  function SkolemTerm(symbol: FunctionSymbol, us: seq<Variable>): (t: Term)
    ensures TermVars(t) == set v | v in us
    ensures TermSort(t) == symbol.outputSort
  {
    var t := App(symbol, VarTerms(us));
    assert forall v :: v in TermVars(t) <==> exists i :: 0 <= i < |us| && v == us[i] by {
      forall v ensures v in TermVars(t) <==> exists i :: 0 <= i < |us| && v == us[i] {
        if exists i :: 0 <= i < |us| && v == us[i] {
          var i :| 0 <= i < |us| && v == us[i];
          assert v in TermVars(VarTerms(us)[i]);
        }
      }
    }
    t
  }

  /** A language together with a formula over it. */
  datatype Skolemized = Skolemized(language: Language, body: Formula)

  /** The walk over the quantifier list, from `qs[0]` outward in; `us` are the universals already seen. */
  function SkolemizeList(lang: Language, qs: QuantifierList, body: Formula, us: seq<Variable>): Skolemized
    decreases |qs|
  {
    if qs == [] then Skolemized(lang, body)
    else
      var x := qs[0].variable;
      if qs[0].kind == Universal then SkolemizeList(lang, qs[1..], body, us + [x])
      else
        var symbol := SkolemSymbol(lang, us, x);
        SkolemizeList(ExpandWithFunction(lang, symbol), qs[1..], Subst(body, map[x := SkolemTerm(symbol, us)]), us)
  }

  /** What `skolemize(language, formula)` returns. */
  function Skolemization(lang: Language, f: Formula): Skolemized {
    var p := PrenexNormalizeDefault(f);
    SkolemizeList(lang, p.quantifiers, p.body, [])
  }

  /** `skolemize`: the loop over the quantifier list. */
  method Skolemize(lang: Language, f: Formula) returns (lang': Language, body: Formula)
    ensures Skolemized(lang', body) == Skolemization(lang, f)
    ensures QuantifierFree(body)
  {
    var p := PrenexNormalizeDefault(f);
    PrenexBodyQuantifierFree(f, 0, LongestVariableName(f, "x"));
    var qs := p.quantifiers;
    var universals: seq<Variable> := [];
    lang' := lang;
    body := p.body;
    var k := 0;
    while k < |qs|
      invariant 0 <= k <= |qs|
      invariant SkolemizeList(lang', qs[k..], body, universals) == Skolemization(lang, f)
      invariant QuantifierFree(body)
    {
      var x := qs[k].variable;
      assert qs[k..][1..] == qs[k + 1..];
      if qs[k].kind == Universal {
        universals := universals + [x];
      } else {
        var symbol := SkolemSymbol(lang', universals, x);
        lang' := ExpandWithFunction(lang', symbol);
        SubstQuantifierFree(body, map[x := SkolemTerm(symbol, universals)]);
        body := Subst(body, map[x := SkolemTerm(symbol, universals)]);
      }
      k := k + 1;
    }
  }

  // ---------------------------------------------------------------------------
  // Reference counts over a quantifier list

  /** The universal variables of the list, in order. */
  function UniversalVariables(qs: QuantifierList): (r: seq<Variable>)
    ensures forall v :: v in r <==> exists k :: 0 <= k < |qs| && qs[k] == Quantifier(v, Universal)
  {
    if qs == [] then []
    else
      var rest := UniversalVariables(qs[1..]);
      var r := (if qs[0].kind == Universal then [qs[0].variable] else []) + rest;
      assert forall k :: 1 <= k < |qs| ==> qs[k] == qs[1..][k - 1];
      assert forall v :: v in rest ==> v in r;
      r
  }

  /** The number of existential entries of the list. */
  function ExistentialCount(qs: QuantifierList): (n: nat)
    ensures n <= |qs|
    ensures n == 0 <==> forall k :: 0 <= k < |qs| ==> qs[k].kind == Universal
  {
    if qs == [] then 0
    else
      var rest := ExistentialCount(qs[1..]);
      assert forall k :: 1 <= k < |qs| ==> qs[k] == qs[1..][k - 1];
      (if qs[0].kind == Existential then 1 else 0) + rest
  }

  /** All variables of the list differ from each other and from the universals `us`. */
  predicate FreshVariables(qs: QuantifierList, us: seq<Variable>) {
    (forall j, k :: 0 <= j < k < |qs| ==> qs[j].variable != qs[k].variable) &&
    (forall k :: 0 <= k < |qs| ==> qs[k].variable !in us)
  }

  lemma ExpandFreshDistinct(lang: Language, symbol: FunctionSymbol)
    requires FunctionNamesDistinct(lang) && symbol.name !in FunctionNames(lang)
    ensures FunctionNamesDistinct(ExpandWithFunction(lang, symbol))
  {
    var fs := ExpandWithFunction(lang, symbol).functionSymbols;
    forall i, j | 0 <= i < j < |fs| ensures fs[i].name != fs[j].name {
      if j == |lang.functionSymbols| {
        assert fs[i].name in FunctionNames(lang) by {
          assert fs[i] == lang.functionSymbols[i];
        }
      }
    }
  }

  // ---------------------------------------------------------------------------
  // The language after Skolemisation

  /**
   * Sorts and relations are untouched; the function symbols are the old ones
   * followed by one new symbol per existential entry; names stay distinct.
   */
  lemma {:induction false} SkolemizeListLanguage(lang: Language, qs: QuantifierList, body: Formula, us: seq<Variable>)
    ensures var r := SkolemizeList(lang, qs, body, us).language;
      r.sorts == lang.sorts && r.relationSymbols == lang.relationSymbols &&
      |r.functionSymbols| == |lang.functionSymbols| + ExistentialCount(qs) &&
      r.functionSymbols[..|lang.functionSymbols|] == lang.functionSymbols &&
      (FunctionNamesDistinct(lang) ==> FunctionNamesDistinct(r))
    decreases |qs|
  {
    if qs != [] {
      var x := qs[0].variable;
      if qs[0].kind == Universal {
        SkolemizeListLanguage(lang, qs[1..], body, us + [x]);
      } else {
        var symbol := SkolemSymbol(lang, us, x);
        var lang1 := ExpandWithFunction(lang, symbol);
        SkolemizeListLanguage(lang1, qs[1..], Subst(body, map[x := SkolemTerm(symbol, us)]), us);
        var r := SkolemizeList(lang, qs, body, us).language;
        assert r.functionSymbols[..|lang1.functionSymbols|] == lang1.functionSymbols;
        assert r.functionSymbols[..|lang.functionSymbols|] == lang1.functionSymbols[..|lang.functionSymbols|];
        if FunctionNamesDistinct(lang) {
          ExpandFreshDistinct(lang, symbol);
        }
      }
    }
  }

  /**
   * The `k`-th entry, when existential, owns the symbol at position
   * `|lang.functionSymbols| + ExistentialCount(qs[..k])`: its arguments are
   * the sorts of the universals before it, its result the sort of the
   * variable, and its name differs from every symbol before it.
   */
  lemma {:induction false} SkolemizeListSymbol(lang: Language, qs: QuantifierList, body: Formula, us: seq<Variable>, k: nat)
    requires k < |qs| && qs[k].kind == Existential
    ensures SymbolAt(lang, qs, body, us, k)
    decreases |qs|, 1
  {
    if k == 0 {
      SymbolHead(lang, qs, body, us);
    } else if qs[0].kind == Universal {
      SymbolAfterUniversal(lang, qs, body, us, k);
    } else {
      SymbolAfterExistential(lang, qs, body, us, k);
    }
  }

  /** The property `SkolemizeListSymbol` states for entry `k`. */
  predicate SymbolAt(lang: Language, qs: QuantifierList, body: Formula, us: seq<Variable>, k: nat)
    requires k < |qs|
  {
    var fs := SkolemizeList(lang, qs, body, us).language.functionSymbols;
    var i := |lang.functionSymbols| + ExistentialCount(qs[..k]);
    i < |fs| &&
    fs[i].inputSorts == Sorts(us + UniversalVariables(qs[..k])) &&
    fs[i].outputSort == qs[k].variable.sort &&
    forall j :: 0 <= j < i ==> fs[j].name != fs[i].name
  }

  lemma SymbolHead(lang: Language, qs: QuantifierList, body: Formula, us: seq<Variable>)
    requires qs != [] && qs[0].kind == Existential
    ensures SymbolAt(lang, qs, body, us, 0)
  {
    var x := qs[0].variable;
    var fs := SkolemizeList(lang, qs, body, us).language.functionSymbols;
    var symbol := SkolemSymbol(lang, us, x);
    var lang1 := ExpandWithFunction(lang, symbol);
    SkolemizeListLanguage(lang1, qs[1..], Subst(body, map[x := SkolemTerm(symbol, us)]), us);
    assert fs[..|lang1.functionSymbols|] == lang1.functionSymbols;
    var i := |lang.functionSymbols|;
    assert fs[i] == symbol;
    forall j | 0 <= j < i ensures fs[j].name != fs[i].name {
      assert fs[j] == lang.functionSymbols[j];
    }
    assert qs[..0] == [];
  }

  lemma {:induction false} SymbolAfterUniversal(lang: Language, qs: QuantifierList, body: Formula, us: seq<Variable>, k: nat)
    requires 0 < k < |qs| && qs[k].kind == Existential && qs[0].kind == Universal
    ensures SymbolAt(lang, qs, body, us, k)
    decreases |qs|, 0
  {
    var x := qs[0].variable;
    assert qs[1..][..k - 1] == qs[..k][1..];
    SkolemizeListSymbol(lang, qs[1..], body, us + [x], k - 1);
    assert us + UniversalVariables(qs[..k]) == us + [x] + UniversalVariables(qs[1..][..k - 1]);
  }

  lemma {:induction false} SymbolAfterExistential(lang: Language, qs: QuantifierList, body: Formula, us: seq<Variable>, k: nat)
    requires 0 < k < |qs| && qs[k].kind == Existential && qs[0].kind == Existential
    ensures SymbolAt(lang, qs, body, us, k)
    decreases |qs|, 0
  {
    var x := qs[0].variable;
    assert qs[1..][..k - 1] == qs[..k][1..];
    var symbol := SkolemSymbol(lang, us, x);
    SkolemizeListSymbol(ExpandWithFunction(lang, symbol), qs[1..], Subst(body, map[x := SkolemTerm(symbol, us)]), us, k - 1);
  }

  // ---------------------------------------------------------------------------
  // The body after Skolemisation

  /**
   * Every existential variable of the list is gone from the body, and nothing
   * but the body's own free variables and universals takes its place.
   */
  lemma {:induction false} SkolemizeListFreeVars(lang: Language, qs: QuantifierList, body: Formula, us: seq<Variable>)
    requires FreshVariables(qs, us)
    ensures forall v :: v in FreeVars(SkolemizeList(lang, qs, body, us).body) ==>
      (v in FreeVars(body) || v in us || v in UniversalVariables(qs)) &&
      forall k :: 0 <= k < |qs| && qs[k].kind == Existential ==> qs[k].variable != v
    decreases |qs|
  {
    if qs != [] {
      var x := qs[0].variable;
      assert forall k :: 1 <= k < |qs| ==> qs[k] == qs[1..][k - 1];
      var result := SkolemizeList(lang, qs, body, us).body;
      if qs[0].kind == Universal {
        SkolemizeListFreeVars(lang, qs[1..], body, us + [x]);
      } else {
        var symbol := SkolemSymbol(lang, us, x);
        var m := map[x := SkolemTerm(symbol, us)];
        var body1 := Subst(body, m);
        SkolemizeListFreeVars(ExpandWithFunction(lang, symbol), qs[1..], body1, us);
        forall v | v in FreeVars(body1) ensures (v in FreeVars(body) || v in us) && v != x {
          SubstFreeVars(body, m, v);
        }
      }
    }
  }

  /** The variables of the normalised quantifier list are pairwise distinct. */
  lemma PrenexFreshVariables(f: Formula)
    ensures FreshVariables(PrenexNormalizeDefault(f).quantifiers, [])
  {
    var prefix := LongestVariableName(f, "x");
    PrenexQuantifiers(f, 0, prefix);
    var q := Named(Shape(f), prefix, 0);
    forall j, k | 0 <= j < k < |q| ensures q[j].variable != q[k].variable {
      if q[j].variable == q[k].variable {
        IndexedNameInjective(prefix, j, k);
      }
    }
  }

  /**
   * The Skolemised body is quantifier-free; its free variables are free in
   * the input or universal entries of the prenex list, and no existential
   * entry stays free. For a sentence, the body speaks of universals only.
   */
  lemma SkolemizationBody(lang: Language, f: Formula)
    ensures var q := PrenexNormalizeDefault(f).quantifiers;
      var body := Skolemization(lang, f).body;
      QuantifierFree(body) &&
      forall v :: v in FreeVars(body) ==>
        (v in FreeVars(f) || v in UniversalVariables(q)) &&
        forall k :: 0 <= k < |q| && q[k].kind == Existential ==> q[k].variable != v
  {
    var p := PrenexNormalizeDefault(f);
    var prefix := LongestVariableName(f, "x");
    PrenexFreshVariables(f);
    PrenexBodyFreeVars(f, 0, prefix);
    SkolemizeListFreeVars(lang, p.quantifiers, p.body, []);
    var body := Skolemization(lang, f).body;
    forall v | v in FreeVars(body) ensures v in FreeVars(f) || v in UniversalVariables(p.quantifiers) {
      if v in FreeVars(p.body) && v !in FreeVars(f) {
        var k :| 0 <= k < |p.quantifiers| && p.quantifiers[k].variable == v;
      }
    }
    PrenexBodyQuantifierFree(f, 0, prefix);
    SkolemizeListQuantifierFree(lang, p.quantifiers, p.body, []);
  }

  lemma {:induction false} SkolemizeListQuantifierFree(lang: Language, qs: QuantifierList, body: Formula, us: seq<Variable>)
    requires QuantifierFree(body)
    ensures QuantifierFree(SkolemizeList(lang, qs, body, us).body)
    decreases |qs|
  {
    if qs != [] {
      var x := qs[0].variable;
      if qs[0].kind == Universal {
        SkolemizeListQuantifierFree(lang, qs[1..], body, us + [x]);
      } else {
        var symbol := SkolemSymbol(lang, us, x);
        var m := map[x := SkolemTerm(symbol, us)];
        SubstQuantifierFree(body, m);
        SkolemizeListQuantifierFree(ExpandWithFunction(lang, symbol), qs[1..], Subst(body, m), us);
      }
    }
  }

  /**
   * The language after Skolemising `f`: the old symbols followed by one per
   * existential entry of its prenex list, each with the signature its
   * position dictates; with no existential entry the language is unchanged.
   */
  lemma SkolemizationLanguage(lang: Language, f: Formula)
    ensures var q := PrenexNormalizeDefault(f).quantifiers;
      var r := Skolemization(lang, f).language;
      r.sorts == lang.sorts && r.relationSymbols == lang.relationSymbols &&
      |r.functionSymbols| == |lang.functionSymbols| + ExistentialCount(q) &&
      r.functionSymbols[..|lang.functionSymbols|] == lang.functionSymbols &&
      (FunctionNamesDistinct(lang) ==> FunctionNamesDistinct(r)) &&
      (ExistentialCount(q) == 0 ==> r == lang)
  {
    var p := PrenexNormalizeDefault(f);
    SkolemizeListLanguage(lang, p.quantifiers, p.body, []);
    var r := Skolemization(lang, f).language;
    if ExistentialCount(p.quantifiers) == 0 {
      assert r.functionSymbols == r.functionSymbols[..|lang.functionSymbols|];
    }
  }
}
