/**
 * Collecting the terms of a formula and its ground terms of a given sort
 * (`NaturalProof.get_all_terms`, `get_all_ground_terms_in_term`,
 * `get_all_ground_terms`). The ground terms harvested here are what term
 * instantiation feeds back into its ground-term set.
 */
module TermCollection {
  import opened Syntax

  /** The argument terms of every atom of the formula, left to right; quantifiers are looked through. */
  function AllTerms(f: Formula): seq<Term> {
    match f
    case Falsum => []
    case Verum => []
    case RelApp(_, args) => args
    case Eq(l, r) => [l, r]
    case And(l, r) => AllTerms(l) + AllTerms(r)
    case Or(l, r) => AllTerms(l) + AllTerms(r)
    case Implies(l, r) => AllTerms(l) + AllTerms(r)
    case Iff(l, r) => AllTerms(l) + AllTerms(r)
    case Not(g) => AllTerms(g)
    case Forall(_, b) => AllTerms(b)
    case Exists(_, b) => AllTerms(b)
  }

  /** The ground subterms of `t` of sort `s`, in pre-order, with repetitions. */
  function GroundTermsInTerm(s: Sort, t: Term): seq<Term> {
    match t
    case Var(_) => []
    case App(_, args) =>
      var subterms := GroundTermsInList(s, args);
      if TermSort(t) == s && IsGround(t) then [t] + subterms else subterms
  }

  /** The concatenation of `GroundTermsInTerm(s, t)` over the list. */
  function GroundTermsInList(s: Sort, ts: seq<Term>): seq<Term> {
    if ts == [] then [] else GroundTermsInTerm(s, ts[0]) + GroundTermsInList(s, ts[1..])
  }

  function GroundTerms(s: Sort, f: Formula): seq<Term> {
    GroundTermsInList(s, AllTerms(f))
  }

  /** Reference definition: the subterms of a term, itself included. */
  function Subterms(t: Term): set<Term> {
    match t
    case Var(_) => {t}
    case App(_, args) => {t} + set i, u | 0 <= i < |args| && u in Subterms(args[i]) :: u
  }

  /** `g` is a ground subterm of `t` of sort `s`. */
  predicate GroundSubtermOf(s: Sort, g: Term, t: Term) {
    g in Subterms(t) && TermSort(g) == s && IsGround(g)
  }

  /** `get_all_ground_terms_in_term` returns exactly the ground subterms of the sort. */
  lemma {:induction false} GroundTermsInTermSpec(s: Sort, t: Term)
    ensures forall g :: g in GroundTermsInTerm(s, t) <==> GroundSubtermOf(s, g, t)
  {
    match t
    case Var(_) =>
    case App(_, args) =>
      GroundTermsInListSpec(s, args);
      forall g ensures g in GroundTermsInTerm(s, t) <==> GroundSubtermOf(s, g, t) {
        if g != t {
          assert g in Subterms(t) <==> exists i :: 0 <= i < |args| && g in Subterms(args[i]);
        }
      }
  }

  lemma {:induction false} GroundTermsInListSpec(s: Sort, ts: seq<Term>)
    ensures forall g :: g in GroundTermsInList(s, ts) <==> exists i :: 0 <= i < |ts| && GroundSubtermOf(s, g, ts[i])
  {
    if ts != [] {
      GroundTermsInTermSpec(s, ts[0]);
      GroundTermsInListSpec(s, ts[1..]);
      forall g | exists i :: 0 <= i < |ts| && GroundSubtermOf(s, g, ts[i])
        ensures g in GroundTermsInList(s, ts)
      {
        var i :| 0 <= i < |ts| && GroundSubtermOf(s, g, ts[i]);
        if i > 0 {
          assert GroundSubtermOf(s, g, ts[1..][i - 1]);
        }
      }
      forall g | g in GroundTermsInList(s, ts)
        ensures exists i :: 0 <= i < |ts| && GroundSubtermOf(s, g, ts[i])
      {
        if g !in GroundTermsInTerm(s, ts[0]) {
          assert g in GroundTermsInList(s, ts[1..]);
          var i :| 0 <= i < |ts[1..]| && GroundSubtermOf(s, g, ts[1..][i]);
          assert GroundSubtermOf(s, g, ts[i + 1]);
        }
      }
    }
  }

  /** `get_all_ground_terms` returns exactly the ground subterms of the sort of the formula's terms. */
  lemma GroundTermsSpec(s: Sort, f: Formula)
    ensures forall g :: g in GroundTerms(s, f) <==> exists t :: t in AllTerms(f) && GroundSubtermOf(s, g, t)
    ensures forall g :: g in GroundTerms(s, f) ==> TermSort(g) == s && IsGround(g)
  {
    GroundTermsInListSpec(s, AllTerms(f));
    var ts := AllTerms(f);
    forall g ensures g in GroundTerms(s, f) <==> exists t :: t in ts && GroundSubtermOf(s, g, t) {
      if g in GroundTerms(s, f) {
        var i :| 0 <= i < |ts| && GroundSubtermOf(s, g, ts[i]);
        assert ts[i] in ts;
      }
      if exists t :: t in ts && GroundSubtermOf(s, g, t) {
        var t :| t in ts && GroundSubtermOf(s, g, t);
        var i :| 0 <= i < |ts| && ts[i] == t;
      }
    }
  }

  /**
   * The free variables of a formula occur in the terms `AllTerms` returns; for
   * a quantifier-free formula these terms hold nothing else.
   */
  lemma {:induction false} AllTermsFreeVars(f: Formula)
    ensures forall v :: v in FreeVars(f) ==> exists t :: t in AllTerms(f) && v in TermVars(t)
    ensures QuantifierFree(f) ==> forall t, v :: t in AllTerms(f) && v in TermVars(t) ==> v in FreeVars(f)
  {
    match f
    case Falsum =>
    case Verum =>
    case RelApp(_, args) =>
      assert AllTerms(f) == args;
      forall v | v in FreeVars(f) ensures exists t :: t in AllTerms(f) && v in TermVars(t) {
        var i :| 0 <= i < |args| && v in TermVars(args[i]);
        assert args[i] in AllTerms(f) && v in TermVars(args[i]);
      }
      forall t, v | t in AllTerms(f) && v in TermVars(t) ensures v in FreeVars(f) {
        var i :| 0 <= i < |args| && args[i] == t;
      }
    case Eq(l, r) =>
      assert l in AllTerms(f) && r in AllTerms(f);
    case And(l, r) => AllTermsFreeVars(l); AllTermsFreeVars(r); AllTermsFreeVarsBinary(f, l, r);
    case Or(l, r) => AllTermsFreeVars(l); AllTermsFreeVars(r); AllTermsFreeVarsBinary(f, l, r);
    case Implies(l, r) => AllTermsFreeVars(l); AllTermsFreeVars(r); AllTermsFreeVarsBinary(f, l, r);
    case Iff(l, r) => AllTermsFreeVars(l); AllTermsFreeVars(r); AllTermsFreeVarsBinary(f, l, r);
    case Not(g) =>
      AllTermsFreeVars(g);
      assert AllTerms(f) == AllTerms(g) && FreeVars(f) == FreeVars(g) && QuantifierFree(f) == QuantifierFree(g);
      AllTermsFreeVarsUnary(f, g);
    case Forall(_, b) =>
      AllTermsFreeVars(b);
      assert !QuantifierFree(f);
      AllTermsFreeVarsUnary(f, b);
    case Exists(_, b) =>
      AllTermsFreeVars(b);
      assert !QuantifierFree(f);
      AllTermsFreeVarsUnary(f, b);
  }

  lemma AllTermsFreeVarsUnary(f: Formula, b: Formula)
    requires AllTerms(f) == AllTerms(b) && FreeVars(f) <= FreeVars(b)
    requires forall v :: v in FreeVars(b) ==> exists t :: t in AllTerms(b) && v in TermVars(t)
    ensures forall v :: v in FreeVars(f) ==> exists t :: t in AllTerms(f) && v in TermVars(t)
  {
    forall v | v in FreeVars(f) ensures exists t :: t in AllTerms(f) && v in TermVars(t) {
      var t :| t in AllTerms(b) && v in TermVars(t);
      assert t in AllTerms(f);
    }
  }

  lemma AllTermsFreeVarsBinary(f: Formula, l: Formula, r: Formula)
    requires AllTerms(f) == AllTerms(l) + AllTerms(r)
    requires FreeVars(f) == FreeVars(l) + FreeVars(r)
    requires forall v :: v in FreeVars(l) ==> exists t :: t in AllTerms(l) && v in TermVars(t)
    requires forall v :: v in FreeVars(r) ==> exists t :: t in AllTerms(r) && v in TermVars(t)
    ensures forall v :: v in FreeVars(f) ==> exists t :: t in AllTerms(f) && v in TermVars(t)
  {
    forall v | v in FreeVars(f) ensures exists t :: t in AllTerms(f) && v in TermVars(t) {
      if v in FreeVars(l) {
        var t :| t in AllTerms(l) && v in TermVars(t);
        assert t in AllTerms(f);
      } else {
        var t :| t in AllTerms(r) && v in TermVars(t);
        assert t in AllTerms(f);
      }
    }
  }
}
