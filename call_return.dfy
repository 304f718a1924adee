/**
  The interprocedural call/return transfer function of the dependency (taint) analysis.

  At a call-return node it builds the caller's state after a call from two elements: the
  caller's state at the matching call-preparation node (`origInfo`) and the state flowing
  back from the callee (`calleeIn`, still written in terms of the callee's g-shadows and
  f-shadows). The work is done in fixed steps: copy the global-like places; stop early when
  the caller is the entry function; seed the locals with their call-time values; run four
  alias phases in precedence order (must-with-global, must-with-formal, may-with-global,
  may-with-formal), where the two must phases overwrite exactly and mark what they resolve
  as visited and the two may phases only join into unvisited locals; finally hand the state
  to the return node's return-value handling.
*/
module CallReturn {
  import opened Wrappers
  import opened DependencyLattice

  // ---------------------------------------------------------------------------------------
  // The program model and the oracles the transfer function consults
  // ---------------------------------------------------------------------------------------

  /** One call-by-reference parameter pair of the call-preparation node. */
  datatype ParamPair = ParamPair(actual: Var, formal: Var)

  /** The shadow bindings of a function's symbol table (`getGShadow`, `getFShadow`); a missing
      key is Java's `null`. */
  datatype SymbolTable = SymbolTable(gShadows: map<Var, Var>, fShadows: map<Var, Var>)

  /** The parts of a `TacFunction` the transfer function reads. */
  datatype TacFunction = TacFunction(isMain: bool, locals: seq<Var>, symbolTable: SymbolTable)

  /** The four alias queries, already specialised to the call-preparation node. */
  datatype AliasQueries = AliasQueries(
    globalMustAlias: Var -> Option<Var>,
    localMustAliases: Var -> set<Var>,
    globalMayAliases: Var -> set<Var>,
    localMayAliases: Var -> set<Var>)

  /** Which places count as global-like (globals, superglobals, constants), and which are
      temporaries of the entry function. */
  datatype Places = Places(globalLike: set<Var>, mainTemporaries: set<Var>)

  /** The call-return node; what `handleReturnValue` does to an element there is not part of
      this model, so it is given as a function. */
  datatype CallRet = CallRet(handleReturnValue: Element -> Element)

  /** The fields of a `CallReturn` transfer function as its constructor sets them;
      `localCallerVars` is `caller.locals` and `cbrParams` is the preparation node's pairs. */
  datatype CallReturnTf = CallReturnTf(
    caller: TacFunction,
    callee: TacFunction,
    cbrParams: seq<ParamPair>,
    retNode: CallRet,
    aliasAnalysis: AliasQueries,
    calleeMod: Option<set<Var>>,
    places: Places)
  {
    function LocalCallerVars(): seq<Var> { caller.locals }
    function GShadows(): map<Var, Var> { callee.symbolTable.gShadows }
    function FShadows(): map<Var, Var> { callee.symbolTable.fShadows }
  }

  /** The two `RuntimeException("SNH")` of the source. */
  datatype TransferError =
    | MissingGShadow(global: Var)  // a global must-alias without a g-shadow in the callee
    | NoContext                    // the one-argument transfer, which the analysis never uses

  /** The state the transfer function threads through the must phases. */
  datatype PhaseState = PhaseState(out: Element, visited: set<Var>)

  // ---------------------------------------------------------------------------------------
  // Conditions on the inputs
  // ---------------------------------------------------------------------------------------

  /** Local `l` has a global must-alias that has no g-shadow in the callee. */
  predicate MissingMustShadow(tf: CallReturnTf, l: Var) {
    var g := tf.aliasAnalysis.globalMustAlias(l);
    g.Some? && g.value !in tf.GShadows()
  }

  predicate MustShadowsPresent(tf: CallReturnTf) {
    forall l :: l in tf.LocalCallerVars() ==> !MissingMustShadow(tf, l)
  }

  /** Every global may-alias of a caller local has a g-shadow (the source does not check). */
  predicate MayShadowsPresent(tf: CallReturnTf) {
    forall l :: l in tf.LocalCallerVars() ==> tf.aliasAnalysis.globalMayAliases(l) <= tf.GShadows().Keys
  }

  /** Every formal of a call-by-reference pair has an f-shadow (the source does not check). */
  predicate FormalsHaveShadows(pairs: seq<ParamPair>, fShadows: map<Var, Var>) {
    forall k :: 0 <= k < |pairs| ==> pairs[k].formal in fShadows
  }

  predicate FShadowsPresent(tf: CallReturnTf) {
    FormalsHaveShadows(tf.cbrParams, tf.FShadows())
  }

  predicate Consistent(tf: CallReturnTf) {
    MustShadowsPresent(tf) && MayShadowsPresent(tf) && FShadowsPresent(tf)
  }

  /** The transfer throws: the caller is not main and some local's global must-alias has no g-shadow. */
  predicate Fails(tf: CallReturnTf) {
    !tf.caller.isMain && !MustShadowsPresent(tf)
  }

  /** `e` names the global must-alias of the first local, in iteration order, whose g-shadow is missing. */
  predicate IsFirstMissing(tf: CallReturnTf, e: TransferError) {
    exists i :: 0 <= i < |tf.LocalCallerVars()| && MissingMustShadow(tf, tf.LocalCallerVars()[i])
      && e == MissingGShadow(tf.aliasAnalysis.globalMustAlias(tf.LocalCallerVars()[i]).value)
      && forall j :: 0 <= j < i ==> !MissingMustShadow(tf, tf.LocalCallerVars()[j])
  }

  // ---------------------------------------------------------------------------------------
  // The specification: the value each place has after the call
  // ---------------------------------------------------------------------------------------

  /** What `calleeIn` records for the shadow of `x`. */
  function ShadowValue(calleeIn: Element, shadows: map<Var, Var>, x: Var): Entry
    requires x in shadows
  {
    Get(calleeIn, shadows[x])
  }

  /** Step 1: the value of a global-like place. */
  function GlobalLikeValue(tf: CallReturnTf, calleeIn: Element, origInfo: Element, v: Var): Entry {
    match tf.calleeMod
    case None => Get(calleeIn, v)
    case Some(mod) => if v in mod then Get(calleeIn, v) else Get(origInfo, v)
  }

  /** The result when the caller is the entry function: global-like places as in step 1,
      main's temporaries from `origInfo`, everything else bottom. */
  function MainCallerValue(tf: CallReturnTf, calleeIn: Element, origInfo: Element, v: Var): Entry {
    if v in tf.places.mainTemporaries then Get(origInfo, v)
    else if v in tf.places.globalLike then GlobalLikeValue(tf, calleeIn, origInfo, v)
    else Bottom
  }

  /** Steps 1 and 3: global-like places as in step 1, all other places at their call-time value. */
  function Seeded(tf: CallReturnTf, calleeIn: Element, origInfo: Element, v: Var): Entry {
    if v in tf.places.globalLike then GlobalLikeValue(tf, calleeIn, origInfo, v) else Get(origInfo, v)
  }

  /** The locals the must-with-global phase resolves. */
  function MustGlobalVisited(tf: CallReturnTf): set<Var> {
    set l | l in tf.LocalCallerVars() && tf.aliasAnalysis.globalMustAlias(l).Some?
  }

  /** The local must-aliases of the actuals of `pairs`, in a union. */
  function MustFormalVisited(aliases: AliasQueries, pairs: seq<ParamPair>): set<Var> {
    if |pairs| == 0 then {}
    else MustFormalVisited(aliases, pairs[..|pairs| - 1]) + aliases.localMustAliases(pairs[|pairs| - 1].actual)
  }

  /** The index of the first pair whose actual has `v` as a local must-alias: the pair whose
      f-shadow `v` takes in the must-with-formal phase. */
  function FirstMustPair(aliases: AliasQueries, pairs: seq<ParamPair>, v: Var): (r: Option<nat>)
    ensures r.Some? <==> v in MustFormalVisited(aliases, pairs)
    ensures r.Some? ==> r.value < |pairs| && v in aliases.localMustAliases(pairs[r.value].actual)
    ensures r.Some? ==> forall j :: 0 <= j < r.value ==> v !in aliases.localMustAliases(pairs[j].actual)
    ensures r.None? ==> forall j :: 0 <= j < |pairs| ==> v !in aliases.localMustAliases(pairs[j].actual)
  {
    if |pairs| == 0 then None
    else
      match FirstMustPair(aliases, pairs[..|pairs| - 1], v)
      case Some(k) => Some(k)
      case None => if v in aliases.localMustAliases(pairs[|pairs| - 1].actual) then Some(|pairs| - 1) else None
  }

  /** Every place either must phase marks visited. */
  function MustVisited(tf: CallReturnTf): set<Var> {
    MustGlobalVisited(tf) + MustFormalVisited(tf.aliasAnalysis, tf.cbrParams)
  }

  /** The join of the g-shadow values of a set of globals (the inner loop of may-with-global). */
  function ShadowJoin(calleeIn: Element, gShadows: map<Var, Var>, globals: set<Var>): (r: Entry)
    requires globals <= gShadows.Keys
    ensures forall g :: g in globals ==> Below(ShadowValue(calleeIn, gShadows, g), r)
    ensures forall x :: x in r.dep ==> exists g :: g in globals && x in ShadowValue(calleeIn, gShadows, g).dep
    ensures forall x :: x in r.arrayLabel ==>
              exists g :: g in globals && x in ShadowValue(calleeIn, gShadows, g).arrayLabel
  {
    var dep := set g, x | g in globals && x in ShadowValue(calleeIn, gShadows, g).dep :: x;
    var arrayLabel := set g, x | g in globals && x in ShadowValue(calleeIn, gShadows, g).arrayLabel :: x;
    assert forall g, x :: g in globals && x in ShadowValue(calleeIn, gShadows, g).dep ==> x in dep;
    assert forall g, x :: g in globals && x in ShadowValue(calleeIn, gShadows, g).arrayLabel ==> x in arrayLabel;
    Entry(dep, arrayLabel)
  }

  /** The join of the f-shadow values of every pair of `pairs` whose actual has `v` as a
      local may-alias. */
  function MayFormalJoin(aliases: AliasQueries, fShadows: map<Var, Var>, calleeIn: Element,
                         pairs: seq<ParamPair>, v: Var): (r: Entry)
    requires FormalsHaveShadows(pairs, fShadows)
    ensures forall k :: 0 <= k < |pairs| && v in aliases.localMayAliases(pairs[k].actual) ==>
              Below(ShadowValue(calleeIn, fShadows, pairs[k].formal), r)
    ensures forall x :: x in r.dep ==>
              exists k :: 0 <= k < |pairs| && v in aliases.localMayAliases(pairs[k].actual)
                && x in ShadowValue(calleeIn, fShadows, pairs[k].formal).dep
    ensures forall x :: x in r.arrayLabel ==>
              exists k :: 0 <= k < |pairs| && v in aliases.localMayAliases(pairs[k].actual)
                && x in ShadowValue(calleeIn, fShadows, pairs[k].formal).arrayLabel
  {
    if |pairs| == 0 then Bottom
    else
      var prefix := pairs[..|pairs| - 1];
      var last := pairs[|pairs| - 1];
      var rest := MayFormalJoin(aliases, fShadows, calleeIn, prefix, v);
      assert forall k :: 0 <= k < |prefix| ==> prefix[k] == pairs[k];
      Lub(rest, if v in aliases.localMayAliases(last.actual) then ShadowValue(calleeIn, fShadows, last.formal) else Bottom)
  }

  /** The value of `v` once both must phases have run. */
  function AfterMustPhases(tf: CallReturnTf, calleeIn: Element, origInfo: Element, v: Var): Entry
    requires Consistent(tf)
  {
    if v in MustGlobalVisited(tf) then
      ShadowValue(calleeIn, tf.GShadows(), tf.aliasAnalysis.globalMustAlias(v).value)
    else
      match FirstMustPair(tf.aliasAnalysis, tf.cbrParams, v)
      case Some(k) => ShadowValue(calleeIn, tf.FShadows(), tf.cbrParams[k].formal)
      case None => Seeded(tf, calleeIn, origInfo, v)
  }

  /** The may-with-global phase writes `v`. */
  predicate MayGlobalWrites(tf: CallReturnTf, v: Var) {
    v in tf.LocalCallerVars() && v !in MustVisited(tf) && tf.aliasAnalysis.globalMayAliases(v) != {}
  }

  /** The value of `v` once the may-with-global phase has run. */
  function AfterMayGlobal(tf: CallReturnTf, calleeIn: Element, origInfo: Element, v: Var): Entry
    requires Consistent(tf)
  {
    if MayGlobalWrites(tf, v) then
      Lub(Get(origInfo, v), ShadowJoin(calleeIn, tf.GShadows(), tf.aliasAnalysis.globalMayAliases(v)))
    else AfterMustPhases(tf, calleeIn, origInfo, v)
  }

  /** The value of `v` after the call, before return-value handling, for a caller other than main. */
  function Reconciled(tf: CallReturnTf, calleeIn: Element, origInfo: Element, v: Var): Entry
    requires Consistent(tf)
  {
    if v in MustVisited(tf) then AfterMustPhases(tf, calleeIn, origInfo, v)
    else Lub(AfterMayGlobal(tf, calleeIn, origInfo, v),
             MayFormalJoin(tf.aliasAnalysis, tf.FShadows(), calleeIn, tf.cbrParams, v))
  }

  /** No alias phase writes `v`. */
  predicate UntouchedByAliasPhases(tf: CallReturnTf, v: Var) {
    && v !in MustVisited(tf)
    && !MayGlobalWrites(tf, v)
    && forall k :: 0 <= k < |tf.cbrParams| ==> v !in tf.aliasAnalysis.localMayAliases(tf.cbrParams[k].actual)
  }

  // ---------------------------------------------------------------------------------------
  // The transfer function
  // ---------------------------------------------------------------------------------------

  /** Must-with-global: each local with a global must-alias takes exactly the value of that
      global's g-shadow and is marked visited; a missing g-shadow aborts the transfer. */
  method MustWithGlobals(tf: CallReturnTf, calleeIn: Element, outInfo: Element)
    returns (res: Result<PhaseState, TransferError>)
    ensures res.Err? <==> !MustShadowsPresent(tf)
    ensures res.Err? ==> IsFirstMissing(tf, res.error)
    ensures res.Ok? ==> res.value.visited == MustGlobalVisited(tf)
    ensures res.Ok? ==> forall v :: (Get(res.value.out, v) ==
              if v in MustGlobalVisited(tf)
              then ShadowValue(calleeIn, tf.GShadows(), tf.aliasAnalysis.globalMustAlias(v).value)
              else Get(outInfo, v))
  {
    var locals := tf.LocalCallerVars();
    var out := outInfo;
    var visited: set<Var> := {};
    var i := 0;
    while i < |locals|
      invariant 0 <= i <= |locals|
      invariant forall j :: 0 <= j < i ==> !MissingMustShadow(tf, locals[j])
      invariant forall v :: v in visited <==> v in locals[..i] && tf.aliasAnalysis.globalMustAlias(v).Some?
      invariant forall v :: v in visited ==> tf.aliasAnalysis.globalMustAlias(v).value in tf.GShadows()
      invariant forall v :: Get(out, v) ==
                  (if v in visited
                   then ShadowValue(calleeIn, tf.GShadows(), tf.aliasAnalysis.globalMustAlias(v).value)
                   else Get(outInfo, v))
    {
      var localCallerVar := locals[i];
      assert locals[..i + 1] == locals[..i] + [localCallerVar];
      match tf.aliasAnalysis.globalMustAlias(localCallerVar) {
        case None =>
        case Some(globalMustAlias) =>
          if globalMustAlias !in tf.GShadows() {
            assert !MustShadowsPresent(tf) && IsFirstMissing(tf, MissingGShadow(globalMustAlias)) by {
              assert MissingMustShadow(tf, locals[i]);
            }
            res := Err(MissingGShadow(globalMustAlias));
            return;
          }
          var globalMustAliasShadow := tf.GShadows()[globalMustAlias];
          out := SetLocal(out, localCallerVar, Get(calleeIn, globalMustAliasShadow));
          visited := visited + {localCallerVar};
      }
      i := i + 1;
    }
    assert locals[..i] == locals;
    forall v ensures v in visited <==> v in MustGlobalVisited(tf) {
    }
    assert visited == MustGlobalVisited(tf);
    assert MustShadowsPresent(tf) by {
      forall l | l in locals ensures !MissingMustShadow(tf, l) {
        var j :| 0 <= j < |locals| && locals[j] == l;
      }
    }
    res := Ok(PhaseState(out, visited));
  }

  /** The inner loop of must-with-formal for one pair: every not-yet-visited alias takes
      `value` and is marked visited. */
  method MarkMustAliases(aliases: set<Var>, value: Entry, st: PhaseState) returns (st': PhaseState)
    ensures st'.visited == st.visited + aliases
    ensures forall v :: Get(st'.out, v) == if v in aliases && v !in st.visited then value else Get(st.out, v)
  {
    var out := st.out;
    var visited := st.visited;
    var rest := aliases;
    while rest != {}
      invariant rest <= aliases
      invariant visited == st.visited + (aliases - rest)
      invariant forall v :: Get(out, v) == if v in aliases - rest && v !in st.visited then value else Get(st.out, v)
      decreases rest
    {
      NonEmptyHasMember(rest);
      var localMustAlias :| localMustAlias in rest;
      if localMustAlias !in visited {
        out := SetLocal(out, localMustAlias, value);
        visited := visited + {localMustAlias};
      }
      rest := rest - {localMustAlias};
    }
    st' := PhaseState(out, visited);
  }

  /** Must-with-formal: for the pairs in order, each local must-alias of the actual that is not
      yet visited takes exactly the f-shadow value of the formal and is marked visited, so the
      first pair that reaches a variable decides its value. */
  method MustWithFormals(tf: CallReturnTf, calleeIn: Element, st: PhaseState) returns (st': PhaseState)
    requires FShadowsPresent(tf)
    ensures st'.visited == st.visited + MustFormalVisited(tf.aliasAnalysis, tf.cbrParams)
    ensures forall v :: v in st.visited ==> Get(st'.out, v) == Get(st.out, v)
    ensures forall v :: Get(st'.out, v) ==
              (if v !in st.visited && FirstMustPair(tf.aliasAnalysis, tf.cbrParams, v).Some?
               then ShadowValue(calleeIn, tf.FShadows(),
                                tf.cbrParams[FirstMustPair(tf.aliasAnalysis, tf.cbrParams, v).value].formal)
               else Get(st.out, v))
  {
    var pairs := tf.cbrParams;
    var cur := st;
    var i := 0;
    while i < |pairs|
      invariant 0 <= i <= |pairs|
      invariant cur.visited == st.visited + MustFormalVisited(tf.aliasAnalysis, pairs[..i])
      invariant forall v :: Get(cur.out, v) ==
                  (if v !in st.visited && FirstMustPair(tf.aliasAnalysis, pairs[..i], v).Some?
                   then ShadowValue(calleeIn, tf.FShadows(),
                                    pairs[FirstMustPair(tf.aliasAnalysis, pairs[..i], v).value].formal)
                   else Get(st.out, v))
    {
      var paramPair := pairs[i];
      assert pairs[..i + 1][..i] == pairs[..i];
      var fShadow := tf.FShadows()[paramPair.formal];
      cur := MarkMustAliases(tf.aliasAnalysis.localMustAliases(paramPair.actual), Get(calleeIn, fShadow), cur);
      i := i + 1;
    }
    assert pairs[..i] == pairs;
    st' := cur;
  }

  lemma {:induction false} ShadowJoinInsert(calleeIn: Element, gShadows: map<Var, Var>, done: set<Var>, g: Var)
    requires done <= gShadows.Keys && g in gShadows
    ensures ShadowJoin(calleeIn, gShadows, done + {g})
         == Lub(ShadowJoin(calleeIn, gShadows, done), ShadowValue(calleeIn, gShadows, g))
  {
    var a := ShadowJoin(calleeIn, gShadows, done + {g});
    var b := Lub(ShadowJoin(calleeIn, gShadows, done), ShadowValue(calleeIn, gShadows, g));
    assert a.dep == b.dep;
    assert a.arrayLabel == b.arrayLabel;
  }

  /** The inner loop of may-with-global: the join of a local's call-time value with the
      g-shadow value of each of its global may-aliases. */
  method JoinGlobalShadows(calleeIn: Element, gShadows: map<Var, Var>, globalMayAliases: set<Var>, orig: Entry)
    returns (computed: Entry)
    requires globalMayAliases <= gShadows.Keys
    ensures computed == Lub(orig, ShadowJoin(calleeIn, gShadows, globalMayAliases))
  {
    computed := orig;
    var rest := globalMayAliases;
    assert ShadowJoin(calleeIn, gShadows, {}) == Bottom;
    while rest != {}
      invariant rest <= globalMayAliases
      invariant computed == Lub(orig, ShadowJoin(calleeIn, gShadows, globalMayAliases - rest))
      decreases rest
    {
      NonEmptyHasMember(rest);
      var globalMayAlias :| globalMayAlias in rest;
      var globalMayAliasShadow := gShadows[globalMayAlias];
      ShadowJoinInsert(calleeIn, gShadows, globalMayAliases - rest, globalMayAlias);
      assert (globalMayAliases - rest) + {globalMayAlias} == globalMayAliases - (rest - {globalMayAlias});
      LubAssociative(orig, ShadowJoin(calleeIn, gShadows, globalMayAliases - rest), Get(calleeIn, globalMayAliasShadow));
      computed := Lub(computed, Get(calleeIn, globalMayAliasShadow));
      rest := rest - {globalMayAlias};
    }
  }

  /** May-with-global: each unvisited local with at least one global may-alias is set to the
      join of its call-time value and the g-shadow values of all those aliases; visited
      variables are not touched, and nothing is marked visited. */
  method MayWithGlobals(tf: CallReturnTf, calleeIn: Element, origInfo: Element, st: PhaseState)
    returns (out: Element)
    requires MayShadowsPresent(tf)
    ensures forall v :: v in st.visited ==> Get(out, v) == Get(st.out, v)
    ensures forall v :: Get(out, v) ==
              (if v in tf.LocalCallerVars() && v !in st.visited && tf.aliasAnalysis.globalMayAliases(v) != {}
               then Lub(Get(origInfo, v), ShadowJoin(calleeIn, tf.GShadows(), tf.aliasAnalysis.globalMayAliases(v)))
               else Get(st.out, v))
  {
    var locals := tf.LocalCallerVars();
    out := st.out;
    var i := 0;
    while i < |locals|
      invariant 0 <= i <= |locals|
      invariant forall v :: Get(out, v) ==
                  (if v in locals[..i] && v !in st.visited && tf.aliasAnalysis.globalMayAliases(v) != {}
                   then Lub(Get(origInfo, v), ShadowJoin(calleeIn, tf.GShadows(), tf.aliasAnalysis.globalMayAliases(v)))
                   else Get(st.out, v))
    {
      var localCallerVar := locals[i];
      assert locals[..i + 1] == locals[..i] + [localCallerVar];
      if localCallerVar !in st.visited {
        var globalMayAliases := tf.aliasAnalysis.globalMayAliases(localCallerVar);
        if globalMayAliases != {} {
          var computed := JoinGlobalShadows(calleeIn, tf.GShadows(), globalMayAliases, Get(origInfo, localCallerVar));
          out := SetLocal(out, localCallerVar, computed);
        }
      }
      i := i + 1;
    }
    assert locals[..i] == locals;
  }

  /** The inner loop of may-with-formal for one pair: every unvisited alias is set to the join
      of its current value and `value`. */
  method JoinMayAliases(aliases: set<Var>, value: Entry, visited: set<Var>, outInfo: Element)
    returns (out: Element)
    ensures forall v :: Get(out, v) == if v in aliases && v !in visited then Lub(Get(outInfo, v), value) else Get(outInfo, v)
  {
    out := outInfo;
    var rest := aliases;
    while rest != {}
      invariant rest <= aliases
      invariant forall v :: Get(out, v) ==
                  if v in aliases - rest && v !in visited then Lub(Get(outInfo, v), value) else Get(outInfo, v)
      decreases rest
    {
      NonEmptyHasMember(rest);
      var localMayAlias :| localMayAlias in rest;
      if localMayAlias !in visited {
        out := SetLocal(out, localMayAlias, Lub(Get(out, localMayAlias), value));
      }
      rest := rest - {localMayAlias};
    }
  }

  /** May-with-formal: for each pair, each unvisited local may-alias of the actual is set to
      the join of its current value and the formal's f-shadow value; values only grow, and
      visited variables are not touched. */
  method MayWithFormals(tf: CallReturnTf, calleeIn: Element, st: PhaseState) returns (out: Element)
    requires FShadowsPresent(tf)
    ensures forall v :: v in st.visited ==> Get(out, v) == Get(st.out, v)
    ensures forall v :: Below(Get(st.out, v), Get(out, v))
    ensures forall v :: Get(out, v) ==
              (if v in st.visited then Get(st.out, v)
               else Lub(Get(st.out, v), MayFormalJoin(tf.aliasAnalysis, tf.FShadows(), calleeIn, tf.cbrParams, v)))
  {
    out := JoinFormalShadows(tf, calleeIn, st);
    forall v ensures Below(Get(st.out, v), Get(out, v)) {
      if v !in st.visited {
        assert Get(out, v) == Lub(Get(st.out, v), MayFormalJoin(tf.aliasAnalysis, tf.FShadows(), calleeIn, tf.cbrParams, v));
      }
    }
  }

  /** The pair loop of may-with-formal, proved against its closed form. */
  method JoinFormalShadows(tf: CallReturnTf, calleeIn: Element, st: PhaseState) returns (out: Element)
    requires FShadowsPresent(tf)
    ensures forall v :: Get(out, v) ==
              (if v in st.visited then Get(st.out, v)
               else Lub(Get(st.out, v), MayFormalJoin(tf.aliasAnalysis, tf.FShadows(), calleeIn, tf.cbrParams, v)))
  {
    var pairs := tf.cbrParams;
    out := st.out;
    var i := 0;
    while i < |pairs|
      invariant 0 <= i <= |pairs|
      invariant FormalsHaveShadows(pairs[..i], tf.FShadows())
      invariant forall v :: Get(out, v) ==
                  (if v in st.visited then Get(st.out, v)
                   else Lub(Get(st.out, v), MayFormalJoin(tf.aliasAnalysis, tf.FShadows(), calleeIn, pairs[..i], v)))
    {
      var paramPair := pairs[i];
      var fShadow := tf.FShadows()[paramPair.formal];
      var before := out;
      out := JoinMayAliases(tf.aliasAnalysis.localMayAliases(paramPair.actual), Get(calleeIn, fShadow), st.visited, out);
      JoinFormalShadowsStep(tf, calleeIn, st, i, before, out);
      i := i + 1;
    }
    assert pairs[..i] == pairs;
  }

  /** One turn of the pair loop of may-with-formal: after pair `i` the element holds the closed
      form for the first `i + 1` pairs. */
  lemma JoinFormalShadowsStep(tf: CallReturnTf, calleeIn: Element, st: PhaseState, i: nat, before: Element, after: Element)
    requires FShadowsPresent(tf) && i < |tf.cbrParams|
    requires FormalsHaveShadows(tf.cbrParams[..i], tf.FShadows())
    requires forall v :: Get(before, v) ==
               (if v in st.visited then Get(st.out, v)
                else Lub(Get(st.out, v), MayFormalJoin(tf.aliasAnalysis, tf.FShadows(), calleeIn, tf.cbrParams[..i], v)))
    requires forall v :: Get(after, v) ==
               if v in tf.aliasAnalysis.localMayAliases(tf.cbrParams[i].actual) && v !in st.visited
               then Lub(Get(before, v), ShadowValue(calleeIn, tf.FShadows(), tf.cbrParams[i].formal))
               else Get(before, v)
    ensures FormalsHaveShadows(tf.cbrParams[..i + 1], tf.FShadows())
    ensures forall v :: Get(after, v) ==
              (if v in st.visited then Get(st.out, v)
               else Lub(Get(st.out, v), MayFormalJoin(tf.aliasAnalysis, tf.FShadows(), calleeIn, tf.cbrParams[..i + 1], v)))
  {
    assert forall k :: 0 <= k < i + 1 ==> tf.cbrParams[..i + 1][k] == tf.cbrParams[k];
    forall v
      ensures Get(after, v) ==
                (if v in st.visited then Get(st.out, v)
                 else Lub(Get(st.out, v), MayFormalJoin(tf.aliasAnalysis, tf.FShadows(), calleeIn, tf.cbrParams[..i + 1], v)))
    {
      if v !in st.visited {
        MayFormalStep(tf.aliasAnalysis, tf.FShadows(), calleeIn, tf.cbrParams, i, v, Get(st.out, v), Get(before, v), Get(after, v));
      }
    }
  }

  /** One pair of may-with-formal, at one unvisited place: joining the pair's contribution into
      the value so far gives the value for one more pair. */
  lemma MayFormalStep(aliases: AliasQueries, fShadows: map<Var, Var>, calleeIn: Element,
                      pairs: seq<ParamPair>, i: nat, v: Var, base: Entry, cur: Entry, next: Entry)
    requires FormalsHaveShadows(pairs, fShadows) && i < |pairs|
    requires FormalsHaveShadows(pairs[..i], fShadows)
    requires cur == Lub(base, MayFormalJoin(aliases, fShadows, calleeIn, pairs[..i], v))
    requires next == if v in aliases.localMayAliases(pairs[i].actual)
                     then Lub(cur, ShadowValue(calleeIn, fShadows, pairs[i].formal)) else cur
    ensures FormalsHaveShadows(pairs[..i + 1], fShadows)
    ensures next == Lub(base, MayFormalJoin(aliases, fShadows, calleeIn, pairs[..i + 1], v))
  {
    MayFormalJoinSnoc(aliases, fShadows, calleeIn, pairs, i, v);
    var j := MayFormalJoin(aliases, fShadows, calleeIn, pairs[..i], v);
    var c := if v in aliases.localMayAliases(pairs[i].actual) then ShadowValue(calleeIn, fShadows, pairs[i].formal) else Bottom;
    LubAssociative(base, j, c);
    LubBottom(Lub(base, j));
  }

  lemma MayFormalJoinSnoc(aliases: AliasQueries, fShadows: map<Var, Var>, calleeIn: Element,
                          pairs: seq<ParamPair>, i: nat, v: Var)
    requires FormalsHaveShadows(pairs, fShadows) && i < |pairs|
    ensures FormalsHaveShadows(pairs[..i], fShadows) && FormalsHaveShadows(pairs[..i + 1], fShadows)
    ensures MayFormalJoin(aliases, fShadows, calleeIn, pairs[..i + 1], v)
         == Lub(MayFormalJoin(aliases, fShadows, calleeIn, pairs[..i], v),
                if v in aliases.localMayAliases(pairs[i].actual) then ShadowValue(calleeIn, fShadows, pairs[i].formal) else Bottom)
  {
    assert pairs[..i + 1][..i] == pairs[..i];
  }

  /** Steps 3 and 4 for a caller other than main: seed the locals with their call-time values,
      then run the four alias phases in precedence order. */
  method ReconcileLocals(tf: CallReturnTf, calleeIn: Element, origInfo: Element, globalLikeCopied: Element)
    returns (res: Result<Element, TransferError>)
    requires MayShadowsPresent(tf) && FShadowsPresent(tf)
    requires forall v :: v in tf.places.globalLike ==> Get(globalLikeCopied, v) == GlobalLikeValue(tf, calleeIn, origInfo, v)
    ensures res.Err? <==> !MustShadowsPresent(tf)
    ensures res.Err? ==> IsFirstMissing(tf, res.error)
    ensures res.Ok? ==> forall v :: Get(res.value, v) == Reconciled(tf, calleeIn, origInfo, v)
    ensures res.Ok? ==> forall v :: v in MustVisited(tf) ==> Get(res.value, v) == AfterMustPhases(tf, calleeIn, origInfo, v)
  {
    var outInfo := CopyLocals(globalLikeCopied, origInfo, tf.places.globalLike);
    assert forall v :: Get(outInfo, v) == Seeded(tf, calleeIn, origInfo, v);

    var mustGlobal := MustWithGlobals(tf, calleeIn, outInfo);
    if mustGlobal.Err? {
      res := Err(mustGlobal.error);
      return;
    }
    var afterMustFormal := MustWithFormals(tf, calleeIn, mustGlobal.value);
    forall v ensures Get(afterMustFormal.out, v) == AfterMustPhases(tf, calleeIn, origInfo, v) {
    }

    var afterMayGlobal := MayWithGlobals(tf, calleeIn, origInfo, afterMustFormal);
    forall v ensures Get(afterMayGlobal, v) == AfterMayGlobal(tf, calleeIn, origInfo, v) {
    }

    var out := MayWithFormals(tf, calleeIn, PhaseState(afterMayGlobal, afterMustFormal.visited));
    forall v ensures Get(out, v) == Reconciled(tf, calleeIn, origInfo, v) {
    }
    // The may phases leave every must-visited place as the must phases set it.
    forall v | v in afterMustFormal.visited ensures Get(out, v) == Get(afterMustFormal.out, v) {
    }
    res := Ok(out);
  }

  /** `transfer(inX, context)`, with `origInfo` the element at the call-preparation node under
      the current context. `pre` is the state before return-value handling. */
  method Transfer(tf: CallReturnTf, calleeIn: Element, origInfo: Element)
    returns (r: Result<Element, TransferError>, ghost pre: Element)
    requires !tf.caller.isMain ==> MayShadowsPresent(tf) && FShadowsPresent(tf)
    ensures r.Err? <==> Fails(tf)
    ensures r.Err? ==> IsFirstMissing(tf, r.error)
    ensures r.Ok? ==> r.value == tf.retNode.handleReturnValue(pre)
    ensures tf.caller.isMain ==> forall v :: Get(pre, v) == MainCallerValue(tf, calleeIn, origInfo, v)
    ensures r.Ok? && !tf.caller.isMain ==> forall v :: Get(pre, v) == Reconciled(tf, calleeIn, origInfo, v)
  {
    var globalLike := tf.places.globalLike;
    var outInfo := Empty;

    match tf.calleeMod {
      case None =>
        outInfo := CopyPlaces(outInfo, calleeIn, globalLike);
      case Some(calleeMod) =>
        outInfo := CopyGlobalLikeRestricted(outInfo, calleeIn, origInfo, calleeMod, globalLike);
    }

    if tf.caller.isMain {
      outInfo := CopyPlaces(outInfo, origInfo, tf.places.mainTemporaries);
      pre := outInfo;
      r := Ok(tf.retNode.handleReturnValue(outInfo));
      return;
    }

    var reconciled := ReconcileLocals(tf, calleeIn, origInfo, outInfo);
    if reconciled.Err? {
      pre := outInfo;
      r := Err(reconciled.error);
      return;
    }
    pre := reconciled.value;
    r := Ok(tf.retNode.handleReturnValue(reconciled.value));
  }

  /** The one-argument `transfer(inX)`: the analysis never calls it, and it always throws. */
  function TransferWithoutContext(inX: Element): (r: Result<Element, TransferError>)
    ensures r.Err? && r.error == NoContext
  {
    Err(NoContext)
  }

  // ---------------------------------------------------------------------------------------
  // What the transfer function promises
  // ---------------------------------------------------------------------------------------

  lemma {:induction false} MayFormalJoinEmpty(aliases: AliasQueries, fShadows: map<Var, Var>, calleeIn: Element,
                                              pairs: seq<ParamPair>, v: Var)
    requires FormalsHaveShadows(pairs, fShadows)
    requires forall k :: 0 <= k < |pairs| ==> v !in aliases.localMayAliases(pairs[k].actual)
    ensures MayFormalJoin(aliases, fShadows, calleeIn, pairs, v) == Bottom
  {
    if |pairs| > 0 {
      var prefix := pairs[..|pairs| - 1];
      assert forall k :: 0 <= k < |prefix| ==> prefix[k] == pairs[k];
      MayFormalJoinEmpty(aliases, fShadows, calleeIn, prefix, v);
    }
  }

  /** Global-like places that no alias phase writes: without MOD information they take the
      callee's value; with it, the places the callee may modify take the callee's value and all
      others keep the caller's call-time value. */
  lemma GlobalLikeEntries(tf: CallReturnTf, calleeIn: Element, origInfo: Element, v: Var)
    requires Consistent(tf)
    requires v in tf.places.globalLike && UntouchedByAliasPhases(tf, v)
    ensures tf.calleeMod.None? ==> Reconciled(tf, calleeIn, origInfo, v) == Get(calleeIn, v)
    ensures tf.calleeMod.Some? && v in tf.calleeMod.value ==> Reconciled(tf, calleeIn, origInfo, v) == Get(calleeIn, v)
    ensures tf.calleeMod.Some? && v !in tf.calleeMod.value ==> Reconciled(tf, calleeIn, origInfo, v) == Get(origInfo, v)
  {
    MayFormalJoinEmpty(tf.aliasAnalysis, tf.FShadows(), calleeIn, tf.cbrParams, v);
    LubBottom(Seeded(tf, calleeIn, origInfo, v));
  }

  /** A local that no alias phase touches keeps exactly its call-time value. */
  lemma UntouchedLocalKeepsCallTimeValue(tf: CallReturnTf, calleeIn: Element, origInfo: Element, v: Var)
    requires Consistent(tf)
    requires v !in tf.places.globalLike && UntouchedByAliasPhases(tf, v)
    ensures Reconciled(tf, calleeIn, origInfo, v) == Get(origInfo, v)
  {
    MayFormalJoinEmpty(tf.aliasAnalysis, tf.FShadows(), calleeIn, tf.cbrParams, v);
    LubBottom(Get(origInfo, v));
  }

  /** A local with a global must-alias `g` ends with exactly the value of `g`'s g-shadow in the
      callee, and the must phases mark it visited. */
  lemma MustGlobalExact(tf: CallReturnTf, calleeIn: Element, origInfo: Element, v: Var, g: Var)
    requires Consistent(tf)
    requires v in tf.LocalCallerVars() && tf.aliasAnalysis.globalMustAlias(v) == Some(g)
    ensures g in tf.GShadows() && v in MustVisited(tf)
    ensures Reconciled(tf, calleeIn, origInfo, v) == ShadowValue(calleeIn, tf.GShadows(), g)
  {
  }

  /** A caller local whose global must-alias has no g-shadow makes the transfer fail, and then
      there is no resulting state. */
  lemma MissingMustShadowFails(tf: CallReturnTf, v: Var)
    requires !tf.caller.isMain && v in tf.LocalCallerVars() && MissingMustShadow(tf, v)
    ensures Fails(tf)
  {
  }

  /** A local must-alias of the actual of pair `i`, and of no earlier pair, that has no global
      must-alias ends with exactly the f-shadow value of the formal of pair `i`: later pairs
      cannot overwrite it. */
  lemma MustFormalFirstPairWins(tf: CallReturnTf, calleeIn: Element, origInfo: Element, v: Var, i: nat)
    requires Consistent(tf)
    requires v !in MustGlobalVisited(tf)
    requires i < |tf.cbrParams| && v in tf.aliasAnalysis.localMustAliases(tf.cbrParams[i].actual)
    requires forall j :: 0 <= j < i ==> v !in tf.aliasAnalysis.localMustAliases(tf.cbrParams[j].actual)
    ensures v in MustVisited(tf)
    ensures Reconciled(tf, calleeIn, origInfo, v) == ShadowValue(calleeIn, tf.FShadows(), tf.cbrParams[i].formal)
  {
    var k := FirstMustPair(tf.aliasAnalysis, tf.cbrParams, v);
    assert k.Some?;
    assert k.value == i;
  }

  /** A variable the must phases resolved keeps that value: neither may phase writes it. */
  lemma MustPhasesTakePrecedence(tf: CallReturnTf, calleeIn: Element, origInfo: Element, v: Var)
    requires Consistent(tf)
    requires v in MustVisited(tf)
    ensures !MayGlobalWrites(tf, v)
    ensures Reconciled(tf, calleeIn, origInfo, v) == AfterMustPhases(tf, calleeIn, origInfo, v)
  {
  }

  /** A local written by may-with-global ends above its call-time value and above the g-shadow
      value of each of its global may-aliases; when no by-reference pair has it as a local
      may-alias it is exactly the join of those values. */
  lemma MayGlobalJoinsContributors(tf: CallReturnTf, calleeIn: Element, origInfo: Element, v: Var)
    requires Consistent(tf)
    requires MayGlobalWrites(tf, v)
    ensures Below(Get(origInfo, v), Reconciled(tf, calleeIn, origInfo, v))
    ensures forall g :: g in tf.aliasAnalysis.globalMayAliases(v) ==>
              g in tf.GShadows() && Below(ShadowValue(calleeIn, tf.GShadows(), g), Reconciled(tf, calleeIn, origInfo, v))
    ensures (forall k :: 0 <= k < |tf.cbrParams| ==> v !in tf.aliasAnalysis.localMayAliases(tf.cbrParams[k].actual)) ==>
              Reconciled(tf, calleeIn, origInfo, v)
              == Lub(Get(origInfo, v), ShadowJoin(calleeIn, tf.GShadows(), tf.aliasAnalysis.globalMayAliases(v)))
  {
    var mid := AfterMayGlobal(tf, calleeIn, origInfo, v);
    if forall k :: 0 <= k < |tf.cbrParams| ==> v !in tf.aliasAnalysis.localMayAliases(tf.cbrParams[k].actual) {
      MayFormalJoinEmpty(tf.aliasAnalysis, tf.FShadows(), calleeIn, tf.cbrParams, v);
      LubBottom(mid);
    }
  }

  /** An unvisited local ends above its value after may-with-global and above the f-shadow
      value of every pair that has it as a local may-alias; every label it gains in the
      may-with-formal phase comes from one of those f-shadows. */
  lemma MayFormalOnlyGrows(tf: CallReturnTf, calleeIn: Element, origInfo: Element, v: Var)
    requires Consistent(tf)
    requires v !in MustVisited(tf)
    ensures Below(AfterMayGlobal(tf, calleeIn, origInfo, v), Reconciled(tf, calleeIn, origInfo, v))
    ensures forall k :: 0 <= k < |tf.cbrParams| && v in tf.aliasAnalysis.localMayAliases(tf.cbrParams[k].actual) ==>
              Below(ShadowValue(calleeIn, tf.FShadows(), tf.cbrParams[k].formal), Reconciled(tf, calleeIn, origInfo, v))
    ensures forall x :: x in Reconciled(tf, calleeIn, origInfo, v).dep && x !in AfterMayGlobal(tf, calleeIn, origInfo, v).dep ==>
              exists k :: 0 <= k < |tf.cbrParams| && v in tf.aliasAnalysis.localMayAliases(tf.cbrParams[k].actual)
                && x in ShadowValue(calleeIn, tf.FShadows(), tf.cbrParams[k].formal).dep
    ensures forall x :: x in Reconciled(tf, calleeIn, origInfo, v).arrayLabel
                          && x !in AfterMayGlobal(tf, calleeIn, origInfo, v).arrayLabel ==>
              exists k :: 0 <= k < |tf.cbrParams| && v in tf.aliasAnalysis.localMayAliases(tf.cbrParams[k].actual)
                && x in ShadowValue(calleeIn, tf.FShadows(), tf.cbrParams[k].formal).arrayLabel
  {
  }

  /** Every local must-alias the must-with-formal phase marks is a must-alias of some actual. */
  lemma MustFormalVisitedFromPairs(aliases: AliasQueries, pairs: seq<ParamPair>, v: Var)
    requires v in MustFormalVisited(aliases, pairs)
    ensures exists k :: 0 <= k < |pairs| && v in aliases.localMustAliases(pairs[k].actual)
  {
    var k := FirstMustPair(aliases, pairs, v);
    assert k.value < |pairs| && v in aliases.localMustAliases(pairs[k.value].actual);
  }

  /** The alias phases write the caller's locals and the local aliases of the actuals only,
      and none of those is a global-like place. */
  predicate Scoped(tf: CallReturnTf) {
    && (forall l :: l in tf.LocalCallerVars() ==> l !in tf.places.globalLike)
    && (forall k, v :: 0 <= k < |tf.cbrParams| && v in tf.aliasAnalysis.localMustAliases(tf.cbrParams[k].actual) ==>
          v !in tf.places.globalLike)
    && (forall k, v :: 0 <= k < |tf.cbrParams| && v in tf.aliasAnalysis.localMayAliases(tf.cbrParams[k].actual) ==>
          v !in tf.places.globalLike)
  }

  /** For a well-scoped call every global-like place ends with exactly its step-1 value: the
      callee's value, or with MOD information the caller's call-time value outside the MOD set. */
  lemma GlobalLikeUnchangedByPhases(tf: CallReturnTf, calleeIn: Element, origInfo: Element, v: Var)
    requires Consistent(tf) && Scoped(tf)
    requires v in tf.places.globalLike
    ensures Reconciled(tf, calleeIn, origInfo, v) == GlobalLikeValue(tf, calleeIn, origInfo, v)
  {
    if v in MustFormalVisited(tf.aliasAnalysis, tf.cbrParams) {
      MustFormalVisitedFromPairs(tf.aliasAnalysis, tf.cbrParams, v);
      assert false;
    }
    assert UntouchedByAliasPhases(tf, v);
    GlobalLikeEntries(tf, calleeIn, origInfo, v);
  }
}
