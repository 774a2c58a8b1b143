/**
 * The bound-escalation loop `prove` of `examples/fossil_variants.py`: look
 * the theory up, read four initial bounds and the initial lemmas from the
 * keyword arguments, remove those five keys, then call the LFP prover again
 * and again with bounds computed from the iteration number, handing each
 * call the lemmas the previous call returned, until a call succeeds.
 *
 * The LFP prover is a parameter; the loop, which has no cap in the source,
 * runs at most `maxIterations` times here, and every call made is returned
 * as a trace.
 */
module Escalation {
  import opened Wrappers
  import opened Syntax

  /** A keyword-argument value, as far as the loop inspects it. */
  datatype ParamValue =
    | IntParam(n: int)
    | LemmasParam(lemmas: seq<Formula>)
    | OtherParam(text: string)

  type Params = map<string, ParamValue>

  /** The four bounds handed to the LFP prover. */
  datatype Bounds = Bounds(
    naturalProofDepth: int,
    lemmaTermDepth: int,
    lemmaFormulaDepth: int,
    trueCounterexampleSizeBound: int)

  const NaturalProofDepthKey := "natural_proof_depth"
  const LemmaTermDepthKey := "lemma_term_depth"
  const LemmaFormulaDepthKey := "lemma_formula_depth"
  const TrueCounterexampleSizeBoundKey := "true_counterexample_size_bound"
  const InitialLemmasKey := "initial_lemmas"

  /** The bounds used when no keyword argument overrides them. */
  const DefaultBounds := Bounds(1, 0, 0, 4)

  const BoundKeys: set<string> :=
    {NaturalProofDepthKey, LemmaTermDepthKey, LemmaFormulaDepthKey, TrueCounterexampleSizeBoundKey}

  /** The keys `prove` consumes itself and does not forward. */
  const ControlKeys: set<string> := BoundKeys + {InitialLemmasKey}

  datatype ProveError =
    | TheoryNotFound(name: string)
    | IllTypedParameter(key: string)

  /** The arguments of `prove` that every call of the LFP prover receives unchanged. */
  datatype Request = Request(
    theoryName: string,
    foregroundSortName: string,
    functionNames: seq<string>,
    relationNames: seq<string>,
    statement: string)

  /** One call of the LFP prover: the fixed arguments, the bounds, the lemmas so far and the forwarded keywords. */
  datatype LfpCall = LfpCall(request: Request, bounds: Bounds, initialLemmas: seq<Formula>, params: Params)

  /** What a call of the LFP prover returns: whether it proved the statement, and its lemmas. */
  datatype LfpResult = LfpResult(proved: bool, lemmas: seq<Formula>)

  datatype Outcome =
    | Proved(lemmas: seq<Formula>)
    | Unfinished

  // ---------------------------------------------------------------------------
  // Reading the keyword arguments

  /** `other_params.get(key, default)` used as an integer: a value of another kind is a type error. */
  function IntOr(params: Params, key: string, default: int): Result<int, ProveError> {
    if key !in params then Success(default)
    else if params[key].IntParam? then Success(params[key].n)
    else Failure(IllTypedParameter(key))
  }

  /** The integer given for `key`, or `default` when no integer is given for it. */
  function GivenInt(params: Params, key: string, default: int): int {
    if key in params && params[key].IntParam? then params[key].n else default
  }

  /** The bounds the caller asks for: each given integer, each missing one at its default (1, 0, 0, 4). */
  function RequestedBounds(params: Params): Bounds {
    Bounds(GivenInt(params, NaturalProofDepthKey, 1), GivenInt(params, LemmaTermDepthKey, 0),
           GivenInt(params, LemmaFormulaDepthKey, 0), GivenInt(params, TrueCounterexampleSizeBoundKey, 4))
  }

  /** The lemmas the caller asks for: the given list, or none. */
  function RequestedLemmas(params: Params): seq<Formula> {
    if InitialLemmasKey in params && params[InitialLemmasKey].LemmasParam? then params[InitialLemmasKey].lemmas else []
  }

  /**
   * The initial bounds, read in the order the loop first uses them: each
   * given value must be an integer, a missing one takes its default.
   */
  function InitialBounds(params: Params): (r: Result<Bounds, ProveError>)
    ensures r.Success? <==> forall k :: k in BoundKeys && k in params ==> params[k].IntParam?
    ensures (forall k :: k in BoundKeys ==> k !in params) ==> r == Success(DefaultBounds)
    ensures r.Failure? ==>
      (r.error.IllTypedParameter? && r.error.key in BoundKeys && r.error.key in params && !params[r.error.key].IntParam?)
  {
    var np := IntOr(params, NaturalProofDepthKey, 1);
    var ltd := IntOr(params, LemmaTermDepthKey, 0);
    var lfd := IntOr(params, LemmaFormulaDepthKey, 0);
    var tcs := IntOr(params, TrueCounterexampleSizeBoundKey, 4);
    if np.Failure? then Failure(np.error)
    else if ltd.Failure? then Failure(ltd.error)
    else if lfd.Failure? then Failure(lfd.error)
    else if tcs.Failure? then Failure(tcs.error)
    else Success(Bounds(np.value, ltd.value, lfd.value, tcs.value))
  }

  /** Each bound read is the integer given for it, or its default (1, 0, 0, 4) when none is given. */
  lemma InitialBoundsAsRequested(params: Params)
    requires InitialBounds(params).Success?
    ensures InitialBounds(params).value == RequestedBounds(params)
  {
    assert forall k :: k in BoundKeys && k in params ==> params[k].IntParam?;
  }

  /** `tuple(other_params.get("initial_lemmas", ()))`: the empty tuple by default. */
  function InitialLemmas(params: Params): (r: Result<seq<Formula>, ProveError>)
    ensures InitialLemmasKey !in params ==> r == Success([])
    ensures r.Success? <==> InitialLemmasKey !in params || params[InitialLemmasKey].LemmasParam?
    ensures r.Success? ==> r.value == RequestedLemmas(params)
  {
    if InitialLemmasKey !in params then Success([])
    else if params[InitialLemmasKey].LemmasParam? then Success(params[InitialLemmasKey].lemmas)
    else Failure(IllTypedParameter(InitialLemmasKey))
  }

  /** `p` holds exactly the keyword arguments of `params` that are not control keys, unchanged. */
  predicate Forwards(p: Params, params: Params) {
    p.Keys == params.Keys - ControlKeys && forall k :: k in p ==> p[k] == params[k]
  }

  /** The keyword arguments forwarded to every call. */
  function Forwarded(params: Params): (p: Params)
    ensures Forwards(p, params)
  {
    map k | k in params && k !in ControlKeys :: params[k]
  }

  // ---------------------------------------------------------------------------
  // The schedule

  /** The bounds of iteration `i`: three bounds rise by `i // 2`, the lemma formula depth by `i`. */
  function BoundsAt(init: Bounds, i: nat): Bounds {
    Bounds(init.naturalProofDepth + i / 2, init.lemmaTermDepth + i / 2,
           init.lemmaFormulaDepth + i, init.trueCounterexampleSizeBound + i / 2)
  }

  /** Reference definition: the formula depth rises every iteration, the other three after every odd one. */
  function Schedule(init: Bounds, i: nat): Bounds {
    if i == 0 then init
    else
      var prev := Schedule(init, i - 1);
      var step := if i % 2 == 0 then 1 else 0;
      Bounds(prev.naturalProofDepth + step, prev.lemmaTermDepth + step,
             prev.lemmaFormulaDepth + 1, prev.trueCounterexampleSizeBound + step)
  }

  lemma {:induction false} BoundsAtSchedule(init: Bounds, i: nat)
    ensures BoundsAt(init, i) == Schedule(init, i)
  {
    if i > 0 {
      BoundsAtSchedule(init, i - 1);
      assert i / 2 == (i - 1) / 2 + (if i % 2 == 0 then 1 else 0);
    }
  }

  /** Iteration 0 uses the initial bounds; no bound ever decreases from one iteration to a later one. */
  lemma BoundsMonotone(init: Bounds, i: nat, j: nat)
    requires i <= j
    ensures BoundsAt(init, 0) == init
    ensures var a, b := BoundsAt(init, i), BoundsAt(init, j);
      a.naturalProofDepth <= b.naturalProofDepth && a.lemmaTermDepth <= b.lemmaTermDepth &&
      a.lemmaFormulaDepth <= b.lemmaFormulaDepth && a.trueCounterexampleSizeBound <= b.trueCounterexampleSizeBound
  {
    assert i / 2 <= j / 2;
  }

  // ---------------------------------------------------------------------------
  // The loop

  /**
   * The calls follow the schedule: call `i` gets the request, the bounds of
   * iteration `i`, the lemmas of call `i - 1` (`lemmas` for the first) and
   * the forwarded keywords, and every call but the last failed.
   */
  predicate FollowsSchedule(calls: seq<LfpCall>, proveLfp: LfpCall -> LfpResult, request: Request, init: Bounds,
                            lemmas: seq<Formula>, params: Params)
  {
    (forall i :: 0 <= i < |calls| ==>
      calls[i].request == request && calls[i].bounds == BoundsAt(init, i) && calls[i].params == params) &&
    (|calls| > 0 ==> calls[0].initialLemmas == lemmas) &&
    (forall i :: 0 < i < |calls| ==> calls[i].initialLemmas == proveLfp(calls[i - 1]).lemmas) &&
    (forall i :: 0 <= i < |calls| - 1 ==> !proveLfp(calls[i]).proved)
  }

  /** One more call, made on schedule after calls that all failed, keeps the trace on schedule. */
  lemma ScheduleExtends(calls: seq<LfpCall>, call: LfpCall, proveLfp: LfpCall -> LfpResult, request: Request,
                        init: Bounds, lemmas: seq<Formula>, params: Params)
    requires FollowsSchedule(calls, proveLfp, request, init, lemmas, params)
    requires forall i :: 0 <= i < |calls| ==> !proveLfp(calls[i]).proved
    requires call.request == request && call.bounds == BoundsAt(init, |calls|) && call.params == params
    requires call.initialLemmas == if |calls| == 0 then lemmas else proveLfp(calls[|calls| - 1]).lemmas
    ensures FollowsSchedule(calls + [call], proveLfp, request, init, lemmas, params)
  {
    var next := calls + [call];
    assert forall i :: 0 <= i < |calls| ==> next[i] == calls[i];
  }

  /**
   * The `while True` loop, with at most `maxIterations` iterations: it
   * returns the lemmas of the first call that succeeds, or `Unfinished`
   * once the iterations are used up.
   */
  method Escalate(proveLfp: LfpCall -> LfpResult, request: Request, init: Bounds, initialLemmas: seq<Formula>,
                  params: Params, maxIterations: nat)
    returns (outcome: Outcome, calls: seq<LfpCall>)
    ensures |calls| <= maxIterations && FollowsSchedule(calls, proveLfp, request, init, initialLemmas, params)
    ensures outcome.Proved? <==> |calls| > 0 && proveLfp(calls[|calls| - 1]).proved
    ensures outcome.Proved? ==> outcome.lemmas == proveLfp(calls[|calls| - 1]).lemmas
    ensures outcome.Unfinished? ==> |calls| == maxIterations
  {
    calls := [];
    var lemmas := initialLemmas;
    var iteration := 0;
    while iteration < maxIterations
      invariant iteration <= maxIterations && |calls| == iteration
      invariant FollowsSchedule(calls, proveLfp, request, init, initialLemmas, params)
      invariant forall i :: 0 <= i < |calls| ==> !proveLfp(calls[i]).proved
      invariant lemmas == if |calls| == 0 then initialLemmas else proveLfp(calls[|calls| - 1]).lemmas
    {
      var bounds := Bounds(init.naturalProofDepth + iteration / 2, init.lemmaTermDepth + iteration / 2,
                           init.lemmaFormulaDepth + iteration, init.trueCounterexampleSizeBound + iteration / 2);
      var call := LfpCall(request, bounds, lemmas, params);
      var result := proveLfp(call);
      ScheduleExtends(calls, call, proveLfp, request, init, initialLemmas, params);
      calls := calls + [call];
      lemmas := result.lemmas;
      if result.proved {
        return Proved(lemmas), calls;
      }
      iteration := iteration + 1;
    }
    return Unfinished, calls;
  }

  /**
   * A trace that `Prove` may return on success starts from the bounds and
   * lemmas the caller asked for: each bound as given or at its default
   * (1, 0, 0, 4), and the given initial lemmas or none.
   */
  lemma ProveStartsAsRequested(calls: seq<LfpCall>, proveLfp: LfpCall -> LfpResult, request: Request,
                               otherParams: Params, forwarded: Params)
    requires InitialBounds(otherParams).Success? && InitialLemmas(otherParams).Success? && |calls| > 0
    requires FollowsSchedule(calls, proveLfp, request, InitialBounds(otherParams).value,
                             InitialLemmas(otherParams).value, forwarded)
    ensures calls[0].bounds == RequestedBounds(otherParams) && calls[0].initialLemmas == RequestedLemmas(otherParams)
  {
    assert calls[0].bounds == BoundsAt(InitialBounds(otherParams).value, 0);
  }

  /** `if key in params: del params[key]`. */
  method DeleteKey(params: Params, key: string) returns (p: Params)
    ensures p == params - {key}
  {
    p := params;
    if key in p {
      p := p - {key};
    }
  }

  /** The four `del` statements for the bound keys. */
  method DeleteBoundKeys(params: Params) returns (p: Params)
    ensures p == params - BoundKeys
  {
    p := DeleteKey(params, NaturalProofDepthKey);
    p := DeleteKey(p, LemmaTermDepthKey);
    p := DeleteKey(p, LemmaFormulaDepthKey);
    p := DeleteKey(p, TrueCounterexampleSizeBoundKey);
  }

  lemma ForwardedIsRemoval(params: Params)
    ensures Forwarded(params) == params - ControlKeys
  {
  }

  /**
   * `prove`: the theory must exist and the keyword arguments read must be
   * well typed; the calls made then follow the schedule from the initial
   * bounds and lemmas, as given or at their defaults, with exactly the
   * non-control keywords forwarded.
   */
  method Prove(theories: set<string>, proveLfp: LfpCall -> LfpResult, request: Request,
               otherParams: Params, maxIterations: nat)
    returns (r: Result<Outcome, ProveError>, calls: seq<LfpCall>)
    ensures request.theoryName !in theories ==> r == Failure(TheoryNotFound(request.theoryName))
    ensures r.Success? <==>
      request.theoryName in theories && InitialLemmas(otherParams).Success? && InitialBounds(otherParams).Success?
    ensures r.Failure? ==> calls == []
    ensures r.Success? ==>
      |calls| <= maxIterations &&
      FollowsSchedule(calls, proveLfp, request, InitialBounds(otherParams).value, InitialLemmas(otherParams).value,
                      Forwarded(otherParams)) &&
      (r.value.Proved? <==> |calls| > 0 && proveLfp(calls[|calls| - 1]).proved) &&
      (r.value.Proved? ==> r.value.lemmas == proveLfp(calls[|calls| - 1]).lemmas) &&
      (r.value.Unfinished? ==> |calls| == maxIterations)
  {
    calls := [];
    if request.theoryName !in theories {
      return Failure(TheoryNotFound(request.theoryName)), calls;
    }
    var initBounds := InitialBounds(otherParams);
    var params := DeleteBoundKeys(otherParams);
    var initLemmas := InitialLemmas(otherParams);
    if initLemmas.Failure? {
      return Failure(initLemmas.error), calls;
    }
    params := DeleteKey(params, InitialLemmasKey);
    assert params == otherParams - ControlKeys;
    ForwardedIsRemoval(otherParams);
    // the first bound computation is where an ill-typed bound fails
    if initBounds.Failure? {
      return Failure(initBounds.error), calls;
    }
    var outcome;
    outcome, calls := Escalate(proveLfp, request, initBounds.value, initLemmas.value, params, maxIterations);
    r := Success(outcome);
  }
}
