/**
 * `NaturalProof.encode_validity`: the reduction of "the theory entails the
 * goal" to the unsatisfiability of a stream of quantifier-free formulas.
 * Every sentence of the theory is Skolemized in turn, each in the language
 * the previous ones left; then the universal closure of the negated goal is
 * Skolemized; the Skolemized negated goal goes first, the sentences follow,
 * and the list is handed to term instantiation together with the final
 * language.
 */
module Validity {
  import opened Wrappers
  import opened Syntax
  import opened Prenex
  import opened Skolem
  import opened Instantiation

  /**
   * A theory, seen through `convert_to_fo_theory`: its language and its
   * first-order sentences, fixpoint definitions already turned into
   * equivalences.
   */
  datatype Theory = Theory(language: Language, sentences: seq<Formula>)

  /** Several Skolemized formulas and the language they leave behind. */
  datatype SkolemizedList = SkolemizedList(language: Language, formulas: seq<Formula>)

  /** The sentences Skolemized left to right, the language threaded through. */
  function SkolemizeAll(lang: Language, fs: seq<Formula>): SkolemizedList {
    if fs == [] then SkolemizedList(lang, [])
    else
      var prev := SkolemizeAll(lang, fs[..|fs| - 1]);
      var s := Skolemization(prev.language, fs[|fs| - 1]);
      SkolemizedList(s.language, prev.formulas + [s.body])
  }

  /** The language and the formulas `encode_validity` hands to term instantiation. */
  function Encoding(theory: Theory, goal: Formula): SkolemizedList {
    var sentences := SkolemizeAll(theory.language, theory.sentences);
    var negated := Skolemization(sentences.language, QuantifyAllFreeVariables(Not(goal)));
    SkolemizedList(negated.language, [negated.body] + sentences.formulas)
  }

  /** What `encode_validity` returns: the expanded language and the instantiation stream. */
  function ValidityStream(theory: Theory, fg: Sort, goal: Formula, depth: int)
    : (Language, Result<seq<Formula>, InstantiationError>)
  {
    var e := Encoding(theory, goal);
    (e.language, TermInstantiation(e.language, fg, e.formulas, depth))
  }

  /** One more sentence: Skolemized in the language the earlier ones left. */
  lemma SkolemizeAllSnoc(lang: Language, fs: seq<Formula>, i: nat)
    requires i < |fs|
    ensures var prev := SkolemizeAll(lang, fs[..i]);
      var s := Skolemization(prev.language, fs[i]);
      SkolemizeAll(lang, fs[..i + 1]) == SkolemizedList(s.language, prev.formulas + [s.body])
  {
    assert fs[..i + 1][..i] == fs[..i];
  }

  /** The loop over the sentences: each is replaced in place by its Skolemization. */
  method SkolemizeSentences(lang: Language, sentences: seq<Formula>)
    returns (lang': Language, normalized: seq<Formula>)
    ensures SkolemizedList(lang', normalized) == SkolemizeAll(lang, sentences)
  {
    lang' := lang;
    normalized := sentences;
    var i := 0;
    while i < |normalized|
      invariant |normalized| == |sentences| && 0 <= i <= |normalized|
      invariant SkolemizedList(lang', normalized[..i]) == SkolemizeAll(lang, sentences[..i])
      invariant normalized[i..] == sentences[i..]
    {
      assert normalized[i] == sentences[i] by {
        assert normalized[i..][0] == sentences[i..][0];
      }
      SkolemizeAllSnoc(lang, sentences, i);
      var skolemized;
      lang', skolemized := Skolemize(lang', normalized[i]);
      normalized := normalized[i := skolemized];
      assert normalized[..i + 1] == normalized[..i] + [skolemized];
      assert normalized[i + 1..] == normalized[i..][1..];
      i := i + 1;
    }
    assert sentences[..|sentences|] == sentences;
    assert normalized[..|normalized|] == normalized;
  }

  /** `encode_validity`: Skolemizes the sentences, then the negated goal, then instantiates. */
  method EncodeValidity(theory: Theory, fg: Sort, goal: Formula, depth: int)
    returns (lang: Language, r: Result<seq<Formula>, InstantiationError>)
    ensures (lang, r) == ValidityStream(theory, fg, goal, depth)
  {
    var normalized;
    lang, normalized := SkolemizeSentences(theory.language, theory.sentences);
    var skolemizedGoal;
    lang, skolemizedGoal := Skolemize(lang, QuantifyAllFreeVariables(Not(goal)));
    normalized := [skolemizedGoal] + normalized;
    r := TermInstantiate(lang, fg, normalized, depth);
  }

  /**
   * Skolemizing a list: one quantifier-free body per sentence, whose free
   * variables are the sentence's own or universals of its prenex form; the
   * sorts and relations stay, the old function symbols stay in front and
   * names stay distinct.
   */
  lemma {:induction false} SkolemizeAllProperties(lang: Language, fs: seq<Formula>)
    ensures var r := SkolemizeAll(lang, fs);
      |r.formulas| == |fs| &&
      r.language.sorts == lang.sorts && r.language.relationSymbols == lang.relationSymbols &&
      |lang.functionSymbols| <= |r.language.functionSymbols| &&
      r.language.functionSymbols[..|lang.functionSymbols|] == lang.functionSymbols &&
      (FunctionNamesDistinct(lang) ==> FunctionNamesDistinct(r.language)) &&
      forall i :: 0 <= i < |fs| ==> BodyOf(r.formulas[i], fs[i])
  {
    if fs != [] {
      var init := fs[..|fs| - 1];
      var prev := SkolemizeAll(lang, init);
      var last := fs[|fs| - 1];
      var s := Skolemization(prev.language, last);
      SkolemizeAllProperties(lang, init);
      SkolemizationLanguage(prev.language, last);
      SkolemizationBody(prev.language, last);
      var r := SkolemizeAll(lang, fs);
      assert r.language.functionSymbols[..|prev.language.functionSymbols|] == prev.language.functionSymbols;
      assert r.language.functionSymbols[..|lang.functionSymbols|]
          == prev.language.functionSymbols[..|lang.functionSymbols|];
      forall i | 0 <= i < |fs| ensures BodyOf(r.formulas[i], fs[i]) {
        if i < |init| {
          assert r.formulas[i] == prev.formulas[i] && fs[i] == init[i];
        }
      }
    }
  }

  /**
   * `body` is a quantifier-free Skolemization of `f`: each free variable is
   * free in `f` or universally quantified in the prenex form of `f`.
   */
  ghost predicate BodyOf(body: Formula, f: Formula) {
    QuantifierFree(body) &&
    forall v :: v in FreeVars(body) ==> v in FreeVars(f) || v in UniversalVariables(PrenexNormalizeDefault(f).quantifiers)
  }

  /**
   * The encoding has one formula per sentence plus the negated goal, first;
   * every formula is quantifier-free, and the negated goal's free variables
   * are all universals of its prenex form; the language only gains function
   * symbols, after the old ones.
   */
  lemma EncodingProperties(theory: Theory, goal: Formula)
    ensures var e := Encoding(theory, goal);
      var lang := theory.language;
      |e.formulas| == |theory.sentences| + 1 &&
      e.language.sorts == lang.sorts && e.language.relationSymbols == lang.relationSymbols &&
      |lang.functionSymbols| <= |e.language.functionSymbols| &&
      e.language.functionSymbols[..|lang.functionSymbols|] == lang.functionSymbols &&
      (FunctionNamesDistinct(lang) ==> FunctionNamesDistinct(e.language)) &&
      (forall i :: 0 <= i < |theory.sentences| ==> BodyOf(e.formulas[i + 1], theory.sentences[i])) &&
      QuantifierFree(e.formulas[0]) &&
      forall v :: v in FreeVars(e.formulas[0]) ==>
        v in UniversalVariables(PrenexNormalizeDefault(QuantifyAllFreeVariables(Not(goal))).quantifiers)
  {
    var sentences := SkolemizeAll(theory.language, theory.sentences);
    var closed := QuantifyAllFreeVariables(Not(goal));
    SkolemizeAllProperties(theory.language, theory.sentences);
    SkolemizationLanguage(sentences.language, closed);
    SkolemizationBody(sentences.language, closed);
    var e := Encoding(theory, goal);
    assert e.language.functionSymbols[..|sentences.language.functionSymbols|] == sentences.language.functionSymbols;
    assert e.language.functionSymbols[..|theory.language.functionSymbols|]
        == sentences.language.functionSymbols[..|theory.language.functionSymbols|];
    forall i | 0 <= i < |theory.sentences| ensures BodyOf(e.formulas[i + 1], theory.sentences[i]) {
      assert e.formulas[i + 1] == sentences.formulas[i];
    }
  }

  /** With a positive depth, the stream holds every encoded formula that has no free variable of the foreground sort. */
  lemma EncodeValidityYieldsGround(theory: Theory, fg: Sort, goal: Formula, depth: int, k: nat)
    requires ValidityStream(theory, fg, goal, depth).1.Success? && depth > 0
    requires k < |Encoding(theory, goal).formulas|
    requires ForegroundVariables(Encoding(theory, goal).formulas[k], fg) == []
    ensures Encoding(theory, goal).formulas[k] in ValidityStream(theory, fg, goal, depth).1.value
  {
    var e := Encoding(theory, goal);
    TermInstantiationComplete(e.language, fg, e.formulas, depth, e.formulas[k], []);
  }
}
