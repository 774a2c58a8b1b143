/**
 * Term instantiation (`NaturalProof.term_instantiate`). Two insertion-ordered
 * sets are kept: the ground terms of the foreground sort, and the formulas
 * emitted so far. Each round, every input formula in turn has its
 * foreground-sort free variables replaced by every tuple of the ground terms
 * known when that formula's turn starts; a new instance is emitted, and every
 * instance, new or not, adds its ground terms to the ground set. At most
 * `depth` rounds are run, and a round that emits nothing ends the loop.
 *
 * The generator is modelled by the whole sequence it yields, in yield order;
 * it is the emitted set itself, which only ever grows by appending.
 */
module Instantiation {
  import opened Wrappers
  import opened Sequences
  import opened Syntax
  import opened TermCollection

  /** The three assertions of `term_instantiate`, in the order they are checked. */
  datatype InstantiationError =
    | InterpretedForegroundSort
    | NoGroundTerm
    | InvalidDepth(depth: int)

  /** The ground-term set and the emitted-formula set, each in insertion order. */
  datatype InstState = InstState(ground: seq<Term>, emitted: seq<Formula>)

  // ---------------------------------------------------------------------------
  // Seeding the ground-term set

  /** The constants of sort `fg`: each nullary symbol of that sort applied to no argument. */
  function NullaryTerms(fs: seq<FunctionSymbol>, fg: Sort): (r: seq<Term>)
    ensures forall t :: t in r ==> TermSort(t) == fg && IsGround(t)
  {
    if fs == [] then []
    else
      var f := fs[|fs| - 1];
      NullaryTerms(fs[..|fs| - 1], fg) + (if IsConstantOf(f, fg) then [App(f, [])] else [])
  }

  /** The ground terms of sort `fg` of each formula in turn, with repetitions. */
  function HarvestAll(formulas: seq<Formula>, fg: Sort): (r: seq<Term>)
    ensures forall t :: t in r ==> TermSort(t) == fg && IsGround(t)
  {
    if formulas == [] then []
    else
      GroundTermsSpec(fg, formulas[|formulas| - 1]);
      HarvestAll(formulas[..|formulas| - 1], fg) + GroundTerms(fg, formulas[|formulas| - 1])
  }

  /** The seed: the constants of the sort, or failing those, the ground terms already in the inputs. */
  function Seed(lang: Language, fg: Sort, formulas: seq<Formula>): (r: seq<Term>)
    ensures Distinct(r)
    ensures forall t :: t in r ==> TermSort(t) == fg && IsGround(t)
  {
    var nullary := NullaryTerms(lang.functionSymbols, fg);
    var harvested := HarvestAll(formulas, fg);
    InsertAllProperties([], nullary);
    InsertAllProperties([], harvested);
    var constants := InsertAll([], nullary);
    if constants != [] then constants else InsertAll([], harvested)
  }

  /** `f` is a constant of sort `fg`. */
  predicate IsConstantOf(f: FunctionSymbol, fg: Sort) {
    f.outputSort == fg && |f.inputSorts| == 0
  }

  lemma {:induction false} NullaryTermsSpec(fs: seq<FunctionSymbol>, fg: Sort)
    ensures forall t :: t in NullaryTerms(fs, fg) <==>
      exists i :: 0 <= i < |fs| && IsConstantOf(fs[i], fg) && t == App(fs[i], [])
    ensures (forall i :: 0 <= i < |fs| ==> !IsConstantOf(fs[i], fg)) ==> NullaryTerms(fs, fg) == []
  {
    if fs != [] {
      var init := fs[..|fs| - 1];
      NullaryTermsSpec(init, fg);
      forall t ensures t in NullaryTerms(fs, fg) <==> exists i :: 0 <= i < |fs| && IsConstantOf(fs[i], fg) && t == App(fs[i], []) {
        if exists i :: 0 <= i < |fs| && IsConstantOf(fs[i], fg) && t == App(fs[i], []) {
          var i :| 0 <= i < |fs| && IsConstantOf(fs[i], fg) && t == App(fs[i], []);
          if i < |init| {
            assert init[i] == fs[i];
          }
        }
        if t in NullaryTerms(init, fg) {
          var i :| 0 <= i < |init| && IsConstantOf(init[i], fg) && t == App(init[i], []);
          assert fs[i] == init[i];
        }
      }
    }
  }

  lemma {:induction false} HarvestAllSpec(formulas: seq<Formula>, fg: Sort)
    ensures forall t :: t in HarvestAll(formulas, fg) <==>
      exists i :: 0 <= i < |formulas| && t in GroundTerms(fg, formulas[i])
  {
    if formulas != [] {
      var init := formulas[..|formulas| - 1];
      HarvestAllSpec(init, fg);
      forall t ensures t in HarvestAll(formulas, fg) <==> exists i :: 0 <= i < |formulas| && t in GroundTerms(fg, formulas[i]) {
        if exists i :: 0 <= i < |formulas| && t in GroundTerms(fg, formulas[i]) {
          var i :| 0 <= i < |formulas| && t in GroundTerms(fg, formulas[i]);
          if i < |init| {
            assert init[i] == formulas[i];
          }
        }
        if t in HarvestAll(init, fg) {
          var i :| 0 <= i < |init| && t in GroundTerms(fg, init[i]);
          assert formulas[i] == init[i];
        }
      }
    }
  }

  /**
   * The seed is the constants of the foreground sort when the language has
   * one, and otherwise the ground terms of that sort in the input formulas.
   */
  lemma SeedSpec(lang: Language, fg: Sort, formulas: seq<Formula>)
    ensures var fs := lang.functionSymbols;
      forall t :: t in Seed(lang, fg, formulas) <==>
        if exists i :: 0 <= i < |fs| && IsConstantOf(fs[i], fg)
        then exists i :: 0 <= i < |fs| && IsConstantOf(fs[i], fg) && t == App(fs[i], [])
        else exists i :: 0 <= i < |formulas| && t in GroundTerms(fg, formulas[i])
  {
    var fs := lang.functionSymbols;
    NullaryTermsSpec(fs, fg);
    HarvestAllSpec(formulas, fg);
    InsertAllProperties([], NullaryTerms(fs, fg));
    InsertAllProperties([], HarvestAll(formulas, fg));
    if exists i :: 0 <= i < |fs| && IsConstantOf(fs[i], fg) {
      var i :| 0 <= i < |fs| && IsConstantOf(fs[i], fg);
      assert App(fs[i], []) in InsertAll([], NullaryTerms(fs, fg));
    } else {
    }
  }

  // ---------------------------------------------------------------------------
  // Assignments

  /** The variables of `vs` of sort `fg`, in order. */
  function FilterSort(vs: seq<Variable>, fg: Sort): (r: seq<Variable>)
    ensures forall v :: v in r <==> v in vs && v.sort == fg
    ensures Distinct(vs) ==> Distinct(r)
  {
    if vs == [] then []
    else
      var rest := FilterSort(vs[1..], fg);
      assert Distinct(vs) ==> Distinct(vs[1..]);
      assert vs[0].sort == fg && Distinct(vs) ==> Distinct([vs[0]] + rest) by {
        if vs[0].sort == fg && Distinct(vs) {
          DistinctCons(vs[0], rest);
        }
      }
      (if vs[0].sort == fg then [vs[0]] else []) + rest
  }

  /** The formula's free variables of the foreground sort, in sorted order, each once. */
  function ForegroundVariables(f: Formula, fg: Sort): (r: seq<Variable>)
    ensures forall v :: v in r <==> v in FreeVars(f) && v.sort == fg
    ensures Distinct(r)
  {
    FilterSort(FreeVariableList(f), fg)
  }

  /** `[a] + t` for each `a` of `g` (outer) and each `t` of `ts` (inner). */
  function PrependEach(g: seq<Term>, ts: seq<seq<Term>>): seq<seq<Term>> {
    if g == [] then []
    else seq(|ts|, i requires 0 <= i < |ts| => [g[0]] + ts[i]) + PrependEach(g[1..], ts)
  }

  /**
   * `itertools.product(g, repeat=n)`: every length-`n` tuple over `g`, the
   * first position varying slowest.
   */
  function Tuples(g: seq<Term>, n: nat): seq<seq<Term>> {
    if n == 0 then [[]] else PrependEach(g, Tuples(g, n - 1))
  }

  lemma {:induction false} PrependEachLength(g: seq<Term>, ts: seq<seq<Term>>)
    ensures |PrependEach(g, ts)| == |g| * |ts|
  {
    if g != [] {
      PrependEachLength(g[1..], ts);
    }
  }

  lemma {:induction false} PrependEachMembers(g: seq<Term>, ts: seq<seq<Term>>)
    ensures forall u :: u in PrependEach(g, ts) ==> |u| >= 1 && u[0] in g && u[1..] in ts
  {
    if g != [] {
      PrependEachMembers(g[1..], ts);
      var first := seq(|ts|, i requires 0 <= i < |ts| => [g[0]] + ts[i]);
      assert PrependEach(g, ts) == first + PrependEach(g[1..], ts);
      forall u | u in first ensures |u| >= 1 && u[0] in g && u[1..] in ts {
        var i :| 0 <= i < |first| && first[i] == u;
        assert u[1..] == ts[i];
      }
    }
  }

  lemma {:induction false} PrependEachComplete(g: seq<Term>, ts: seq<seq<Term>>)
    ensures forall a, t :: a in g && t in ts ==> [a] + t in PrependEach(g, ts)
  {
    if g != [] {
      PrependEachComplete(g[1..], ts);
      var first := seq(|ts|, i requires 0 <= i < |ts| => [g[0]] + ts[i]);
      assert PrependEach(g, ts) == first + PrependEach(g[1..], ts);
      forall t | t in ts ensures [g[0]] + t in first {
        var i :| 0 <= i < |ts| && ts[i] == t;
        assert first[i] == [g[0]] + t;
      }
    }
  }

  /** Every tuple has length `n` and draws its entries from `g`. */
  lemma {:induction false} TuplesMembers(g: seq<Term>, n: nat)
    ensures forall t :: t in Tuples(g, n) ==> |t| == n && forall i :: 0 <= i < n ==> t[i] in g
  {
    if n > 0 {
      TuplesMembers(g, n - 1);
      PrependEachMembers(g, Tuples(g, n - 1));
      forall t | t in Tuples(g, n) ensures |t| == n && forall i :: 0 <= i < n ==> t[i] in g {
        assert forall i :: 1 <= i < n ==> t[i] == t[1..][i - 1];
      }
    }
  }

  /** Every tuple over `g` is enumerated: the cross product is complete. */
  lemma {:induction false} TuplesComplete(g: seq<Term>, t: seq<Term>)
    requires forall i :: 0 <= i < |t| ==> t[i] in g
    ensures t in Tuples(g, |t|)
    decreases |t|
  {
    if t != [] {
      TuplesComplete(g, t[1..]);
      PrependEachComplete(g, Tuples(g, |t| - 1));
      assert [t[0]] + t[1..] == t;
    }
  }

  function Power(b: nat, n: nat): nat {
    if n == 0 then 1 else b * Power(b, n - 1)
  }

  /** There are `|g|` to the `n` tuples. */
  lemma {:induction false} TuplesCount(g: seq<Term>, n: nat)
    ensures |Tuples(g, n)| == Power(|g|, n)
  {
    if n > 0 {
      TuplesCount(g, n - 1);
      PrependEachLength(g, Tuples(g, n - 1));
    }
  }

  /** `dict(zip(vs, ts))`: pairs up to the shorter length, a later key overriding an earlier one. */
  function ZipMap(vs: seq<Variable>, ts: seq<Term>): (r: map<Variable, Term>)
    ensures forall v :: v in r ==> v in vs && r[v] in ts
    ensures |vs| <= |ts| ==> forall v :: v in vs ==> v in r
  {
    if vs == [] || ts == [] then map[]
    else map[vs[0] := ts[0]] + ZipMap(vs[1..], ts[1..])
  }

  /** With distinct keys and enough values, the `i`-th key maps to the `i`-th value. */
  lemma {:induction false} ZipMapLookup(vs: seq<Variable>, ts: seq<Term>, i: nat)
    requires Distinct(vs) && i < |vs| <= |ts|
    ensures ZipMap(vs, ts)[vs[i]] == ts[i]
  {
    if i > 0 {
      assert Distinct(vs[1..]);
      ZipMapLookup(vs[1..], ts[1..], i - 1);
    } else {
      assert vs[0] !in vs[1..];
    }
  }

  /** The instance of `f` under the assignment `a` of its foreground variables. */
  function Instance(f: Formula, fg: Sort, a: seq<Term>): Formula {
    Subst(f, ZipMap(ForegroundVariables(f, fg), a))
  }

  // ---------------------------------------------------------------------------
  // Rounds

  /** One instance: emitted if new, its ground terms harvested in every case. */
  function Step(st: InstState, inst: Formula, fg: Sort): InstState {
    InstState(InsertAll(st.ground, GroundTerms(fg, inst)), Insert(st.emitted, inst))
  }

  /** The instances of `f` under the `assignments`, in order. */
  function ProcessAssignments(st: InstState, f: Formula, fg: Sort, assignments: seq<seq<Term>>): InstState {
    if assignments == [] then st
    else Step(ProcessAssignments(st, f, fg, assignments[..|assignments| - 1]), Instance(f, fg, assignments[|assignments| - 1]), fg)
  }

  /** The turn of one formula, over a snapshot of the ground terms taken when it starts. */
  function ProcessFormula(st: InstState, f: Formula, fg: Sort): InstState {
    ProcessAssignments(st, f, fg, Tuples(st.ground, |ForegroundVariables(f, fg)|))
  }

  /** One round: the turns of the formulas, in order. */
  function Round(st: InstState, formulas: seq<Formula>, fg: Sort): InstState {
    if formulas == [] then st
    else ProcessFormula(Round(st, formulas[..|formulas| - 1], fg), formulas[|formulas| - 1], fg)
  }

  /** At most `n` rounds, stopping after a round that emits nothing. */
  function Rounds(st: InstState, formulas: seq<Formula>, fg: Sort, n: nat): InstState
    decreases n
  {
    if n == 0 then st
    else
      var next := Round(st, formulas, fg);
      if |next.emitted| == |st.emitted| then next else Rounds(next, formulas, fg, n - 1)
  }

  /** What `term_instantiate` yields, or the assertion it fails. */
  function TermInstantiation(lang: Language, fg: Sort, formulas: seq<Formula>, depth: int)
    : Result<seq<Formula>, InstantiationError>
  {
    if fg.smtHook.Some? then Failure(InterpretedForegroundSort)
    else
      var seed := Seed(lang, fg, formulas);
      if seed == [] then Failure(NoGroundTerm)
      else if depth < 0 then Failure(InvalidDepth(depth))
      else Success(Rounds(InstState(seed, []), formulas, fg, depth).emitted)
  }

  // ---------------------------------------------------------------------------
  // The generator, as loops over the two ordered sets

  /** `for t in ts: ground_terms[t] = None`. */
  method InsertEach(s: seq<Term>, ts: seq<Term>) returns (r: seq<Term>)
    ensures r == InsertAll(s, ts)
  {
    r := s;
    var i := 0;
    while i < |ts|
      invariant 0 <= i <= |ts|
      invariant r == InsertAll(s, ts[..i])
    {
      assert ts[..i + 1][..i] == ts[..i];
      r := Insert(r, ts[i]);
      i := i + 1;
    }
    assert ts[..|ts|] == ts;
  }

  /** The first seeding loop: the nullary symbols of the foreground sort. */
  method NullarySeed(fs: seq<FunctionSymbol>, fg: Sort) returns (ground: seq<Term>)
    ensures ground == InsertAll([], NullaryTerms(fs, fg))
  {
    ground := [];
    var i := 0;
    while i < |fs|
      invariant 0 <= i <= |fs|
      invariant ground == InsertAll([], NullaryTerms(fs[..i], fg))
    {
      ghost var before := NullaryTerms(fs[..i], fg);
      assert fs[..i + 1][..i] == fs[..i];
      if fs[i].outputSort == fg && |fs[i].inputSorts| == 0 {
        assert NullaryTerms(fs[..i + 1], fg) == before + [App(fs[i], [])];
        InsertAllSnoc([], before, App(fs[i], []));
        ground := Insert(ground, App(fs[i], []));
      } else {
        assert NullaryTerms(fs[..i + 1], fg) == before + [];
        assert before + [] == before;
      }
      i := i + 1;
    }
    assert fs[..|fs|] == fs;
  }

  /** The second seeding loop: the ground terms of the input formulas. */
  method HarvestSeed(formulas: seq<Formula>, fg: Sort) returns (ground: seq<Term>)
    ensures ground == InsertAll([], HarvestAll(formulas, fg))
  {
    ground := [];
    var i := 0;
    while i < |formulas|
      invariant 0 <= i <= |formulas|
      invariant ground == InsertAll([], HarvestAll(formulas[..i], fg))
    {
      assert formulas[..i + 1][..i] == formulas[..i];
      InsertAllAppend([], HarvestAll(formulas[..i], fg), GroundTerms(fg, formulas[i]));
      ground := InsertEach(ground, GroundTerms(fg, formulas[i]));
      i := i + 1;
    }
    assert formulas[..|formulas|] == formulas;
  }

  /** One instance: appended to the output when new, its ground terms harvested in any case. */
  method EmitAndHarvest(ground: seq<Term>, emitted: seq<Formula>, inst: Formula, fg: Sort, hasNew: bool)
    returns (ground': seq<Term>, emitted': seq<Formula>, hasNew': bool)
    ensures InstState(ground', emitted') == Step(InstState(ground, emitted), inst, fg)
    ensures emitted <= emitted'
    ensures hasNew' <==> hasNew || |emitted'| != |emitted|
  {
    emitted', hasNew' := emitted, hasNew;
    if inst !in emitted {
      emitted' := emitted + [inst];
      hasNew' := true;
    }
    ground' := InsertEach(ground, GroundTerms(fg, inst));
  }

  /** The ground-term set before the first round. */
  method SeedGround(lang: Language, fg: Sort, formulas: seq<Formula>) returns (ground: seq<Term>)
    ensures ground == Seed(lang, fg, formulas)
  {
    ground := NullarySeed(lang.functionSymbols, fg);
    if ground == [] {
      ground := HarvestSeed(formulas, fg);
    }
  }

  /**
   * The turn of one formula: every assignment over the ground terms known at
   * its start; `hasNew` is raised when a formula is emitted.
   */
  method InstantiateFormula(ground: seq<Term>, emitted: seq<Formula>, f: Formula, fg: Sort, hasNew: bool)
    returns (ground': seq<Term>, emitted': seq<Formula>, hasNew': bool)
    ensures InstState(ground', emitted') == ProcessFormula(InstState(ground, emitted), f, fg)
    ensures emitted <= emitted'
    ensures hasNew' <==> hasNew || |emitted'| != |emitted|
  {
    ground', emitted', hasNew' := ground, emitted, hasNew;
    var vars := ForegroundVariables(f, fg);
    var assignments := Tuples(ground, |vars|);
    var j := 0;
    while j < |assignments|
      invariant 0 <= j <= |assignments|
      invariant InstState(ground', emitted') == ProcessAssignments(InstState(ground, emitted), f, fg, assignments[..j])
      invariant emitted <= emitted'
      invariant hasNew' <==> hasNew || |emitted'| != |emitted|
    {
      ProcessAssignmentsSnoc(InstState(ground, emitted), f, fg, assignments, j);
      var inst := Subst(f, ZipMap(vars, assignments[j]));
      ground', emitted', hasNew' := EmitAndHarvest(ground', emitted', inst, fg, hasNew');
      j := j + 1;
    }
    assert assignments[..|assignments|] == assignments;
  }

  lemma ProcessAssignmentsSnoc(st: InstState, f: Formula, fg: Sort, assignments: seq<seq<Term>>, j: nat)
    requires j < |assignments|
    ensures ProcessAssignments(st, f, fg, assignments[..j + 1])
      == Step(ProcessAssignments(st, f, fg, assignments[..j]), Instance(f, fg, assignments[j]), fg)
  {
    assert assignments[..j + 1][..j] == assignments[..j];
  }

  /** One round over all formulas; `hasNew` tells whether anything was emitted. */
  method InstantiateRound(ground: seq<Term>, emitted: seq<Formula>, formulas: seq<Formula>, fg: Sort)
    returns (ground': seq<Term>, emitted': seq<Formula>, hasNew: bool)
    ensures InstState(ground', emitted') == Round(InstState(ground, emitted), formulas, fg)
    ensures hasNew <==> |emitted'| != |emitted|
  {
    ground', emitted', hasNew := ground, emitted, false;
    var k := 0;
    while k < |formulas|
      invariant 0 <= k <= |formulas|
      invariant InstState(ground', emitted') == Round(InstState(ground, emitted), formulas[..k], fg)
      invariant emitted <= emitted'
      invariant hasNew <==> |emitted'| != |emitted|
    {
      assert formulas[..k + 1][..k] == formulas[..k];
      ground', emitted', hasNew := InstantiateFormula(ground', emitted', formulas[k], fg, hasNew);
      k := k + 1;
    }
    assert formulas[..|formulas|] == formulas;
  }

  /** The round loop: at most `depth` rounds, leaving it after a round that emits nothing. */
  method InstantiateRounds(ground: seq<Term>, emitted: seq<Formula>, formulas: seq<Formula>, fg: Sort, depth: nat)
    returns (ground': seq<Term>, emitted': seq<Formula>)
    ensures InstState(ground', emitted') == Rounds(InstState(ground, emitted), formulas, fg, depth)
  {
    ground', emitted' := ground, emitted;
    ghost var target := Rounds(InstState(ground, emitted), formulas, fg, depth);
    var left := depth;
    while left > 0
      invariant Rounds(InstState(ground', emitted'), formulas, fg, left) == target
    {
      ghost var start, before := InstState(ground', emitted'), left;
      var hasNew;
      ground', emitted', hasNew := InstantiateRound(ground', emitted', formulas, fg);
      if !hasNew {
        // a round without a new formula: the fixpoint is reached
        RoundsStop(start, InstState(ground', emitted'), formulas, fg, before);
        return;
      }
      left := left - 1;
      RoundsContinue(start, InstState(ground', emitted'), formulas, fg, before, left);
    }
  }

  lemma RoundsStop(st: InstState, next: InstState, formulas: seq<Formula>, fg: Sort, n: nat)
    requires n > 0 && next == Round(st, formulas, fg) && |next.emitted| == |st.emitted|
    ensures Rounds(st, formulas, fg, n) == next
  {
  }

  lemma RoundsContinue(st: InstState, next: InstState, formulas: seq<Formula>, fg: Sort, n: nat, m: nat)
    requires n == m + 1 && next == Round(st, formulas, fg) && |next.emitted| != |st.emitted|
    ensures Rounds(st, formulas, fg, n) == Rounds(next, formulas, fg, m)
  {
    assert Rounds(st, formulas, fg, n) == Rounds(next, formulas, fg, n - 1);
    assert n - 1 == m;
  }

  /** `term_instantiate`: the assertions, the seed, then at most `depth` rounds. */
  method TermInstantiate(lang: Language, fg: Sort, formulas: seq<Formula>, depth: int)
    returns (r: Result<seq<Formula>, InstantiationError>)
    ensures r == TermInstantiation(lang, fg, formulas, depth)
  {
    if fg.smtHook.Some? {
      return Failure(InterpretedForegroundSort);
    }
    var ground := SeedGround(lang, fg, formulas);
    if ground == [] {
      return Failure(NoGroundTerm);
    }
    if depth < 0 {
      return Failure(InvalidDepth(depth));
    }
    var emitted;
    ground, emitted := InstantiateRounds(ground, [], formulas, fg, depth);
    return Success(emitted);
  }

  // ---------------------------------------------------------------------------
  // Growth: both sets only ever grow, by appending

  /** `b` extends both sets of `a`. */
  predicate Extends(a: InstState, b: InstState) {
    a.ground <= b.ground && a.emitted <= b.emitted
  }

  lemma ExtendsTransitive(a: InstState, b: InstState, c: InstState)
    requires Extends(a, b) && Extends(b, c)
    ensures Extends(a, c)
  {
    assert c.ground[..|a.ground|] == c.ground[..|b.ground|][..|a.ground|];
    assert c.emitted[..|a.emitted|] == c.emitted[..|b.emitted|][..|a.emitted|];
  }

  lemma StepExtends(st: InstState, inst: Formula, fg: Sort)
    ensures Extends(st, Step(st, inst, fg))
  {
    InsertAllProperties(st.ground, GroundTerms(fg, inst));
  }

  lemma {:induction false} ProcessAssignmentsExtends(st: InstState, f: Formula, fg: Sort, assignments: seq<seq<Term>>)
    ensures Extends(st, ProcessAssignments(st, f, fg, assignments))
  {
    if assignments != [] {
      var mid := ProcessAssignments(st, f, fg, assignments[..|assignments| - 1]);
      ProcessAssignmentsExtends(st, f, fg, assignments[..|assignments| - 1]);
      StepExtends(mid, Instance(f, fg, assignments[|assignments| - 1]), fg);
      ExtendsTransitive(st, mid, ProcessAssignments(st, f, fg, assignments));
    }
  }

  lemma {:induction false} RoundExtends(st: InstState, formulas: seq<Formula>, fg: Sort)
    ensures Extends(st, Round(st, formulas, fg))
  {
    if formulas != [] {
      var mid := Round(st, formulas[..|formulas| - 1], fg);
      var f := formulas[|formulas| - 1];
      RoundExtends(st, formulas[..|formulas| - 1], fg);
      ProcessAssignmentsExtends(mid, f, fg, Tuples(mid.ground, |ForegroundVariables(f, fg)|));
      ExtendsTransitive(st, mid, Round(st, formulas, fg));
    }
  }

  /** The ground-term set and the output after any number of rounds extend those before. */
  lemma {:induction false} RoundsExtends(st: InstState, formulas: seq<Formula>, fg: Sort, n: nat)
    ensures Extends(st, Rounds(st, formulas, fg, n))
    decreases n
  {
    if n > 0 {
      var next := Round(st, formulas, fg);
      RoundExtends(st, formulas, fg);
      if |next.emitted| == |st.emitted| {
        RoundsStop(st, next, formulas, fg, n);
      } else {
        var m: nat := n - 1;
        RoundsContinue(st, next, formulas, fg, n, m);
        RoundsExtends(next, formulas, fg, m);
        ExtendsTransitive(st, next, Rounds(st, formulas, fg, n));
      }
    }
  }

  /** A deeper run extends a shallower one: the first rounds are the same rounds. */
  lemma {:induction false} RoundsMonotone(st: InstState, formulas: seq<Formula>, fg: Sort, d1: nat, d2: nat)
    requires d1 <= d2
    ensures Extends(Rounds(st, formulas, fg, d1), Rounds(st, formulas, fg, d2))
    decreases d1
  {
    if d1 == 0 {
      RoundsExtends(st, formulas, fg, d2);
    } else {
      var next := Round(st, formulas, fg);
      if |next.emitted| == |st.emitted| {
        RoundsStop(st, next, formulas, fg, d1);
        RoundsStop(st, next, formulas, fg, d2);
      } else {
        var m1: nat, m2: nat := d1 - 1, d2 - 1;
        RoundsContinue(st, next, formulas, fg, d1, m1);
        RoundsContinue(st, next, formulas, fg, d2, m2);
        RoundsMonotone(next, formulas, fg, m1, m2);
      }
    }
  }

  /** Any positive number of rounds includes the first round. */
  lemma RoundsIncludeFirst(st: InstState, formulas: seq<Formula>, fg: Sort, n: nat)
    requires n > 0
    ensures Extends(Round(st, formulas, fg), Rounds(st, formulas, fg, n))
  {
    var next := Round(st, formulas, fg);
    if |next.emitted| == |st.emitted| {
      RoundsStop(st, next, formulas, fg, n);
    } else {
      var m: nat := n - 1;
      RoundsContinue(st, next, formulas, fg, n, m);
      RoundsExtends(next, formulas, fg, m);
    }
  }

  /**
   * What a run with a greater depth yields continues what a run with a
   * smaller depth yields, and both fail alike: the generator is lazy, and
   * consuming fewer of its items is running fewer rounds.
   */
  lemma TermInstantiationMonotone(lang: Language, fg: Sort, formulas: seq<Formula>, d1: int, d2: int)
    requires 0 <= d1 <= d2
    ensures var r1, r2 := TermInstantiation(lang, fg, formulas, d1), TermInstantiation(lang, fg, formulas, d2);
      (r1.Success? <==> r2.Success?) && (r1.Success? ==> r1.value <= r2.value)
  {
    if TermInstantiation(lang, fg, formulas, d1).Success? {
      RoundsMonotone(InstState(Seed(lang, fg, formulas), []), formulas, fg, d1, d2);
    }
  }

  /** With depth 0 nothing is yielded, once the assertions pass. */
  lemma TermInstantiationDepthZero(lang: Language, fg: Sort, formulas: seq<Formula>)
    requires fg.smtHook.None? && Seed(lang, fg, formulas) != []
    ensures TermInstantiation(lang, fg, formulas, 0) == Success([])
  {
  }

  // ---------------------------------------------------------------------------
  // Completeness of a round, and the meaning of the early exit

  /** Every assignment of the run has its instance emitted, new or already there. */
  lemma {:induction false} ProcessAssignmentsEmits(st: InstState, f: Formula, fg: Sort, assignments: seq<seq<Term>>,
                                                   a: seq<Term>)
    requires a in assignments
    ensures Instance(f, fg, a) in ProcessAssignments(st, f, fg, assignments).emitted
  {
    var init := assignments[..|assignments| - 1];
    var mid := ProcessAssignments(st, f, fg, init);
    if a != assignments[|assignments| - 1] {
      assert a in init;
      ProcessAssignmentsEmits(st, f, fg, init, a);
      StepExtends(mid, Instance(f, fg, assignments[|assignments| - 1]), fg);
    }
  }

  /**
   * After a round, every input formula has been instantiated under every
   * assignment drawn from the ground terms known when the round started.
   */
  lemma {:induction false} RoundEmits(st: InstState, formulas: seq<Formula>, fg: Sort, f: Formula, a: seq<Term>)
    requires f in formulas && |a| == |ForegroundVariables(f, fg)|
    requires forall i :: 0 <= i < |a| ==> a[i] in st.ground
    ensures Instance(f, fg, a) in Round(st, formulas, fg).emitted
  {
    var init := formulas[..|formulas| - 1];
    var last := formulas[|formulas| - 1];
    var mid := Round(st, init, fg);
    var tuples := Tuples(mid.ground, |ForegroundVariables(last, fg)|);
    if f == last {
      RoundExtends(st, init, fg);
      assert forall t :: t in st.ground ==> t in mid.ground;
      TuplesComplete(mid.ground, a);
      ProcessAssignmentsEmits(mid, f, fg, tuples, a);
    } else {
      assert f in init;
      RoundEmits(st, init, fg, f, a);
      ProcessAssignmentsExtends(mid, last, fg, tuples);
    }
  }

  /**
   * With a positive depth, the output holds every instance of every input
   * formula over the seed; a formula without a free variable of the
   * foreground sort is yielded itself.
   */
  lemma TermInstantiationComplete(lang: Language, fg: Sort, formulas: seq<Formula>, depth: int, f: Formula, a: seq<Term>)
    requires TermInstantiation(lang, fg, formulas, depth).Success? && depth > 0
    requires f in formulas && |a| == |ForegroundVariables(f, fg)|
    requires forall i :: 0 <= i < |a| ==> a[i] in Seed(lang, fg, formulas)
    ensures Instance(f, fg, a) in TermInstantiation(lang, fg, formulas, depth).value
    ensures ForegroundVariables(f, fg) == [] ==> f in TermInstantiation(lang, fg, formulas, depth).value
  {
    var st0 := InstState(Seed(lang, fg, formulas), []);
    var d: nat := depth;
    assert TermInstantiation(lang, fg, formulas, depth).value == Rounds(st0, formulas, fg, d).emitted;
    RoundEmits(st0, formulas, fg, f, a);
    RoundsIncludeFirst(st0, formulas, fg, d);
    if ForegroundVariables(f, fg) == [] {
      InstanceWithoutForeground(f, fg, a);
    }
  }

  /** A formula without a free variable of the foreground sort is its own only instance. */
  lemma InstanceWithoutForeground(f: Formula, fg: Sort, a: seq<Term>)
    requires ForegroundVariables(f, fg) == []
    ensures Instance(f, fg, a) == f
  {
    assert ZipMap([], a) == map[];
    SubstEmpty(f);
  }

  /** An instance that is already emitted adds no ground term to a closed state. */
  lemma StepFixed(st: InstState, inst: Formula, fg: Sort)
    requires Closed(st, fg) && inst in st.emitted
    ensures Step(st, inst, fg) == st
  {
    InsertAllPresent(st.ground, GroundTerms(fg, inst));
  }

  lemma {:induction false} ProcessAssignmentsFixed(st: InstState, f: Formula, fg: Sort, assignments: seq<seq<Term>>)
    requires Closed(st, fg)
    requires |ProcessAssignments(st, f, fg, assignments).emitted| == |st.emitted|
    ensures ProcessAssignments(st, f, fg, assignments) == st
  {
    if assignments != [] {
      var init := assignments[..|assignments| - 1];
      var inst := Instance(f, fg, assignments[|assignments| - 1]);
      var mid := ProcessAssignments(st, f, fg, init);
      ProcessAssignmentsExtends(st, f, fg, init);
      assert |mid.emitted| == |st.emitted|;
      ProcessAssignmentsFixed(st, f, fg, init);
      assert Insert(st.emitted, inst) == st.emitted;
      StepFixed(st, inst, fg);
    }
  }

  /**
   * A round that emits nothing new from a closed state changes nothing:
   * the ground-term set is unchanged too.
   */
  lemma {:induction false} RoundFixed(st: InstState, formulas: seq<Formula>, fg: Sort)
    requires Closed(st, fg)
    requires |Round(st, formulas, fg).emitted| == |st.emitted|
    ensures Round(st, formulas, fg) == st
  {
    if formulas != [] {
      var init := formulas[..|formulas| - 1];
      var last := formulas[|formulas| - 1];
      var mid := Round(st, init, fg);
      var tuples := Tuples(mid.ground, |ForegroundVariables(last, fg)|);
      RoundExtends(st, init, fg);
      ProcessAssignmentsExtends(mid, last, fg, tuples);
      RoundFixed(st, init, fg);
      ProcessAssignmentsFixed(st, last, fg, tuples);
    }
  }

  /** Reference definition: exactly `n` rounds, with no early exit. */
  function AllRounds(st: InstState, formulas: seq<Formula>, fg: Sort, n: nat): InstState
    decreases n
  {
    if n == 0 then st else AllRounds(Round(st, formulas, fg), formulas, fg, n - 1)
  }

  lemma {:induction false} AllRoundsFixed(st: InstState, formulas: seq<Formula>, fg: Sort, n: nat)
    requires Round(st, formulas, fg) == st
    ensures AllRounds(st, formulas, fg, n) == st
    decreases n
  {
    if n > 0 {
      var m: nat := n - 1;
      AllRoundsFixed(st, formulas, fg, m);
      assert AllRounds(st, formulas, fg, n) == AllRounds(st, formulas, fg, m);
    }
  }

  lemma AllRoundsUnfold(st: InstState, next: InstState, formulas: seq<Formula>, fg: Sort, n: nat, m: nat)
    requires n == m + 1 && next == Round(st, formulas, fg)
    ensures AllRounds(st, formulas, fg, n) == AllRounds(next, formulas, fg, m)
  {
    assert AllRounds(st, formulas, fg, n) == AllRounds(next, formulas, fg, n - 1);
    assert n - 1 == m;
  }

  /**
   * Leaving the loop after a round that emits nothing is only a shortcut:
   * from a closed state, such as the initial one, the remaining rounds
   * would change nothing.
   */
  lemma {:induction false} RoundsAreAllRounds(st: InstState, formulas: seq<Formula>, fg: Sort, n: nat)
    requires Closed(st, fg)
    ensures Rounds(st, formulas, fg, n) == AllRounds(st, formulas, fg, n)
    decreases n
  {
    if n > 0 {
      var next := Round(st, formulas, fg);
      var m: nat := n - 1;
      AllRoundsUnfold(st, next, formulas, fg, n, m);
      if |next.emitted| == |st.emitted| {
        RoundsStop(st, next, formulas, fg, n);
        RoundFixed(st, formulas, fg);
        AllRoundsFixed(st, formulas, fg, m);
      } else {
        RoundsContinue(st, next, formulas, fg, n, m);
        RoundClosed(st, formulas, fg);
        RoundsAreAllRounds(next, formulas, fg, m);
      }
    }
  }

  lemma StepClosed(st: InstState, inst: Formula, fg: Sort)
    requires Closed(st, fg)
    ensures Closed(Step(st, inst, fg), fg)
  {
    InsertAllProperties(st.ground, GroundTerms(fg, inst));
  }

  lemma {:induction false} ProcessAssignmentsClosed(st: InstState, f: Formula, fg: Sort, assignments: seq<seq<Term>>)
    requires Closed(st, fg)
    ensures Closed(ProcessAssignments(st, f, fg, assignments), fg)
  {
    if assignments != [] {
      var init := assignments[..|assignments| - 1];
      ProcessAssignmentsClosed(st, f, fg, init);
      StepClosed(ProcessAssignments(st, f, fg, init), Instance(f, fg, assignments[|assignments| - 1]), fg);
    }
  }

  /** A round keeps the state closed: every emitted formula's ground terms are known. */
  lemma {:induction false} RoundClosed(st: InstState, formulas: seq<Formula>, fg: Sort)
    requires Closed(st, fg)
    ensures Closed(Round(st, formulas, fg), fg)
  {
    if formulas != [] {
      var init := formulas[..|formulas| - 1];
      var last := formulas[|formulas| - 1];
      RoundClosed(st, init, fg);
      var mid := Round(st, init, fg);
      ProcessAssignmentsClosed(mid, last, fg, Tuples(mid.ground, |ForegroundVariables(last, fg)|));
    }
  }

  // ---------------------------------------------------------------------------
  // The invariant of the two sets

  /** `e` is the instance of an input formula under an assignment drawn from `g`. */
  ghost predicate IsInstanceOver(e: Formula, formulas: seq<Formula>, fg: Sort, g: seq<Term>) {
    exists f, a :: f in formulas && |a| == |ForegroundVariables(f, fg)| &&
      (forall i :: 0 <= i < |a| ==> a[i] in g) && e == Instance(f, fg, a)
  }

  /** `e` is the instance of an input formula under ground terms of the foreground sort. */
  ghost predicate InstanceOfGround(e: Formula, formulas: seq<Formula>, fg: Sort) {
    exists f, a :: f in formulas && |a| == |ForegroundVariables(f, fg)| &&
      (forall i :: 0 <= i < |a| ==> IsGround(a[i]) && TermSort(a[i]) == fg) && e == Instance(f, fg, a)
  }

  /** Every ground term of every emitted formula is in the ground-term set. */
  predicate Closed(st: InstState, fg: Sort) {
    forall e, t :: e in st.emitted && t in GroundTerms(fg, e) ==> t in st.ground
  }

  /**
   * Both sets are duplicate-free, the ground-term set holds ground terms of
   * the foreground sort, it holds the ground terms of every emitted formula,
   * and every emitted formula is an instance over it.
   */
  ghost predicate Good(st: InstState, formulas: seq<Formula>, fg: Sort) {
    Distinct(st.ground) && Distinct(st.emitted) &&
    (forall t :: t in st.ground ==> TermSort(t) == fg && IsGround(t)) &&
    Closed(st, fg) &&
    forall e :: e in st.emitted ==> IsInstanceOver(e, formulas, fg, st.ground)
  }

  lemma InstanceOverGrows(e: Formula, formulas: seq<Formula>, fg: Sort, g: seq<Term>, g': seq<Term>)
    requires IsInstanceOver(e, formulas, fg, g) && g <= g'
    ensures IsInstanceOver(e, formulas, fg, g')
  {
    var f, a :| f in formulas && |a| == |ForegroundVariables(f, fg)| &&
      (forall i :: 0 <= i < |a| ==> a[i] in g) && e == Instance(f, fg, a);
    assert forall t :: t in g ==> t in g';
  }

  lemma StepGood(st: InstState, inst: Formula, formulas: seq<Formula>, fg: Sort)
    requires Good(st, formulas, fg) && IsInstanceOver(inst, formulas, fg, st.ground)
    ensures Good(Step(st, inst, fg), formulas, fg)
  {
    var r := Step(st, inst, fg);
    InsertAllProperties(st.ground, GroundTerms(fg, inst));
    GroundTermsSpec(fg, inst);
    forall e | e in r.emitted ensures IsInstanceOver(e, formulas, fg, r.ground) {
      InstanceOverGrows(e, formulas, fg, st.ground, r.ground);
    }
  }

  lemma {:induction false} ProcessAssignmentsGood(st: InstState, f: Formula, fg: Sort, formulas: seq<Formula>,
                                                  assignments: seq<seq<Term>>)
    requires Good(st, formulas, fg) && f in formulas
    requires forall j :: 0 <= j < |assignments| ==> |assignments[j]| == |ForegroundVariables(f, fg)|
    requires forall j, i :: 0 <= j < |assignments| && 0 <= i < |assignments[j]| ==> assignments[j][i] in st.ground
    ensures Good(ProcessAssignments(st, f, fg, assignments), formulas, fg)
  {
    if assignments != [] {
      var init := assignments[..|assignments| - 1];
      var a := assignments[|assignments| - 1];
      var mid := ProcessAssignments(st, f, fg, init);
      assert forall j, i :: 0 <= j < |init| && 0 <= i < |init[j]| ==> init[j][i] in st.ground by {
        forall j, i | 0 <= j < |init| && 0 <= i < |init[j]| ensures init[j][i] in st.ground {
          assert init[j] == assignments[j];
        }
      }
      ProcessAssignmentsGood(st, f, fg, formulas, init);
      ProcessAssignmentsExtends(st, f, fg, init);
      AssignmentGood(st.ground, mid, f, fg, formulas, a);
    }
  }

  /** One more instance, under an assignment drawn from an earlier snapshot of the ground terms. */
  lemma AssignmentGood(snapshot: seq<Term>, mid: InstState, f: Formula, fg: Sort, formulas: seq<Formula>, a: seq<Term>)
    requires Good(mid, formulas, fg) && f in formulas && snapshot <= mid.ground
    requires |a| == |ForegroundVariables(f, fg)| && forall i :: 0 <= i < |a| ==> a[i] in snapshot
    ensures Good(Step(mid, Instance(f, fg, a), fg), formulas, fg)
  {
    assert forall t :: t in snapshot ==> t in mid.ground;
    assert IsInstanceOver(Instance(f, fg, a), formulas, fg, mid.ground);
    StepGood(mid, Instance(f, fg, a), formulas, fg);
  }

  lemma ProcessFormulaGood(st: InstState, f: Formula, fg: Sort, formulas: seq<Formula>)
    requires Good(st, formulas, fg) && f in formulas
    ensures Good(ProcessFormula(st, f, fg), formulas, fg)
  {
    var n := |ForegroundVariables(f, fg)|;
    TuplesMembers(st.ground, n);
    var ts := Tuples(st.ground, n);
    assert forall j :: 0 <= j < |ts| ==> ts[j] in ts;
    ProcessAssignmentsGood(st, f, fg, formulas, ts);
  }

  lemma {:induction false} RoundGood(st: InstState, fs: seq<Formula>, formulas: seq<Formula>, fg: Sort)
    requires Good(st, formulas, fg) && forall f :: f in fs ==> f in formulas
    ensures Good(Round(st, fs, fg), formulas, fg)
  {
    if fs != [] {
      var init := fs[..|fs| - 1];
      assert forall f :: f in init ==> f in fs;
      RoundGood(st, init, formulas, fg);
      ProcessFormulaGood(Round(st, init, fg), fs[|fs| - 1], fg, formulas);
    }
  }

  lemma {:induction false} RoundsGood(st: InstState, formulas: seq<Formula>, fg: Sort, n: nat)
    requires Good(st, formulas, fg)
    ensures Good(Rounds(st, formulas, fg, n), formulas, fg)
    decreases n
  {
    if n > 0 {
      RoundGood(st, formulas, formulas, fg);
      var next := Round(st, formulas, fg);
      if |next.emitted| != |st.emitted| {
        RoundsGood(next, formulas, fg, n - 1);
      }
    }
  }

  /** An instance under ground terms of the foreground sort has no free variable of that sort left. */
  lemma InstanceFreeVars(f: Formula, fg: Sort, a: seq<Term>)
    requires |a| == |ForegroundVariables(f, fg)|
    requires forall i :: 0 <= i < |a| ==> IsGround(a[i])
    ensures forall v :: v in FreeVars(Instance(f, fg, a)) ==> v in FreeVars(f) && v.sort != fg
  {
    var m := ZipMap(ForegroundVariables(f, fg), a);
    assert forall k :: k in m ==> TermVars(m[k]) == {};
    forall v | v in FreeVars(Instance(f, fg, a)) ensures v in FreeVars(f) && v.sort != fg {
      SubstFreeVars(f, m, v);
    }
  }

  /**
   * `term_instantiate` never yields a formula twice, and everything it yields
   * is an input formula whose foreground-sort free variables are replaced by
   * ground terms of that sort; no free variable of that sort is left.
   */
  lemma TermInstantiationSound(lang: Language, fg: Sort, formulas: seq<Formula>, depth: int)
    ensures var r := TermInstantiation(lang, fg, formulas, depth);
      r.Success? ==>
        Distinct(r.value) &&
        forall e :: e in r.value ==>
          InstanceOfGround(e, formulas, fg) && forall v :: v in FreeVars(e) ==> v.sort != fg
  {
    var r := TermInstantiation(lang, fg, formulas, depth);
    if r.Success? {
      var st0 := InstState(Seed(lang, fg, formulas), []);
      RoundsGood(st0, formulas, fg, depth);
      var st := Rounds(st0, formulas, fg, depth);
      forall e | e in r.value
        ensures InstanceOfGround(e, formulas, fg)
        ensures forall v :: v in FreeVars(e) ==> v.sort != fg
      {
        var f, a :| f in formulas && |a| == |ForegroundVariables(f, fg)| &&
          (forall i :: 0 <= i < |a| ==> a[i] in st.ground) && e == Instance(f, fg, a);
        InstanceFreeVars(f, fg, a);
      }
    }
  }
}
