/**
 * The GET handler of the renderer route: parse the `states` query parameter,
 * resolve each state through the memo, and answer one summary per state plus
 * the model and atlas rows every summary refers to.
 */
module Batch {
  import opened Wrappers
  import opened JsStrings
  import opened BlockStates
  import opened ModelSelector
  import opened OrderedSets
  import opened RenderData
  import opened ResponseCache

  /** A 400 from query validation, or the exception a compile throws. */
  datatype Outcome = BadRequest | ServerError(fault: Fault)

  /** One entry of the response's `states` list. */
  datatype Summary = Summary(
    state: BlockState,
    parts: seq<Apply>,
    renderType: string,
    faceSturdy: seq<string>,
    blocksMotion: bool,
    occlusion: bool,
    occlusionShape: map<string, Boxes>,
    specialTextures: seq<int>)

  /**
   * The response body. JSON drops a key whose value is `undefined`, so only
   * referenced ids the tables hold appear in `textures` and `models`.
   */
  datatype Response = Response(states: seq<Summary>, textures: map<int, AtlasEntry>, models: map<int, BlockModel>)

  // Query parameter -----------------------------------------------------------------

  predicate NonEmpty(s: string) { |s| > 0 }

  function TrimAll(pieces: seq<string>): (r: seq<string>)
    ensures |r| == |pieces|
  {
    seq(|pieces|, i requires 0 <= i < |pieces| => Trim(pieces[i]))
  }

  /**
   * The `states` schema: split on `|`, trim each piece, drop empty pieces, and
   * reject a missing parameter or an empty list.
   */
  function StatesParam(param: Option<string>): (r: Result<seq<string>, Outcome>)
    ensures r.Err? ==> r.error == BadRequest
    ensures r.Ok? ==> |r.value| > 0 && forall i :: 0 <= i < |r.value| ==> |r.value[i]| > 0
  {
    match param
    case None => Err(BadRequest)
    case Some(p) =>
      var states := Filter(TrimAll(Split(p, '|')), NonEmpty);
      if |states| == 0 then Err(BadRequest) else Ok(states)
  }

  /** The parameter is rejected exactly when it is missing or every `|`-separated piece is whitespace. */
  lemma StatesParamRejects(param: Option<string>)
    ensures StatesParam(param).Err? <==> param.None? || AllBlank(Split(param.value, '|'))
  {
    if param.Some? {
      var pieces := Split(param.value, '|');
      assert StatesParam(param).Err? <==> Filter(TrimAll(pieces), NonEmpty) == [];
      TrimAllBlankIff(pieces);
    }
  }

  /** Every piece is all whitespace. */
  predicate AllBlank(pieces: seq<string>)
  {
    forall i :: 0 <= i < |pieces| ==> AllWhitespace(pieces[i])
  }

  /** Trimming and dropping empty pieces leaves nothing exactly when every piece is all whitespace. */
  lemma TrimAllBlankIff(pieces: seq<string>)
    ensures Filter(TrimAll(pieces), NonEmpty) == [] <==> AllBlank(pieces)
  {
    var trimmed := TrimAll(pieces);
    FilterEmptyIff(trimmed);
    forall i | 0 <= i < |pieces| ensures |trimmed[i]| == 0 <==> AllWhitespace(pieces[i]) {
      TrimBlankIff(pieces[i]);
    }
  }

  /** A piece trims to nothing exactly when it is all whitespace. */
  lemma TrimBlankIff(s: string)
    ensures |Trim(s)| == 0 <==> AllWhitespace(s)
  {
  }

  /** A trimmed piece of the parameter: no `|`, and no whitespace at either end. */
  predicate TrimmedPiece(s: string)
  {
    && '|' !in s
    && (|s| > 0 ==> !IsJsWhitespace(s[0]) && !IsJsWhitespace(s[|s| - 1]))
  }

  /** Each listed state is a non-empty trimmed piece. */
  lemma StatesParamPieces(param: Option<string>)
    requires StatesParam(param).Ok?
    ensures forall i :: 0 <= i < |StatesParam(param).value| ==> TrimmedPiece(StatesParam(param).value[i])
  {
    var pieces := Split(param.value, '|');
    var trimmed := TrimAll(pieces);
    forall i | 0 <= i < |trimmed| ensures TrimmedPiece(trimmed[i]) {
      assert trimmed[i] == Trim(pieces[i]);
      SplitPieces(param.value, '|', i);
      TrimKeeps(pieces[i], '|');
    }
    FilterPreserves(trimmed, NonEmpty, TrimmedPiece);
  }

  lemma {:induction false} FilterPreserves<T>(s: seq<T>, keep: T -> bool, p: T -> bool)
    requires forall i :: 0 <= i < |s| ==> p(s[i])
    ensures forall i :: 0 <= i < |Filter(s, keep)| ==> p(Filter(s, keep)[i])
  {
    if |s| > 0 {
      FilterPreserves(s[1..], keep, p);
      var head := if keep(s[0]) then [s[0]] else [];
      assert Filter(s, keep) == head + Filter(s[1..], keep);
    }
  }

  predicate AllWhitespace(s: string)
  {
    forall j :: 0 <= j < |s| ==> IsJsWhitespace(s[j])
  }

  lemma {:induction false} FilterEmptyIff(s: seq<string>)
    ensures Filter(s, NonEmpty) == [] <==> forall i :: 0 <= i < |s| ==> |s[i]| == 0
  {
    if |s| > 0 {
      FilterEmptyIff(s[1..]);
      assert forall i :: 1 <= i < |s| ==> s[i] == s[1..][i - 1];
    }
  }

  // The response as a function of the query ------------------------------------------

  function Summarize(s: BlockState, d: StateData): Summary
  {
    Summary(s, d.parts, d.renderType, d.faceSturdy, d.blocksMotion, d.occlusion, d.occlusionShape, d.specialTextures)
  }

  /** The summaries of the records, in query order. */
  function Summaries(states: seq<BlockState>, ds: seq<StateData>): seq<Summary>
    requires |states| == |ds|
  {
    if |ds| == 0 then []
    else Summaries(states[..|ds| - 1], ds[..|ds| - 1]) + [Summarize(states[|ds| - 1], ds[|ds| - 1])]
  }

  /** `collectedTextures`: every texture and special texture of the records, in insertion order. */
  function TexturesOf(ds: seq<StateData>): seq<int>
  {
    if |ds| == 0 then []
    else
      var d := ds[|ds| - 1];
      AddAll(AddAll(TexturesOf(ds[..|ds| - 1]), d.textures), d.specialTextures)
  }

  /** `collectedModels`: every model of the records, in insertion order. */
  function ModelsOf(ds: seq<StateData>): seq<int>
  {
    if |ds| == 0 then []
    else AddAll(ModelsOf(ds[..|ds| - 1]), ds[|ds| - 1].models)
  }

  /** `xs.map(f)` where `f` may throw: the first throw aborts the whole map. */
  function MapOrThrow<S, T, E>(f: S -> Result<T, E>, xs: seq<S>): (r: Result<seq<T>, E>)
    ensures r.Ok? ==> |r.value| == |xs|
  {
    if |xs| == 0 then Ok([])
    else
      match MapOrThrow(f, xs[..|xs| - 1])
      case Err(e) => Err(e)
      case Ok(ys) =>
        match f(xs[|xs| - 1])
        case Err(e) => Err(e)
        case Ok(y) => Ok(ys + [y])
  }

  /** `makeStateData` as a value, so that every use names the same function. */
  function Compiler(t: Tables): BlockState -> Result<StateData, Fault>
  {
    s => Compile(t, s)
  }

  /**
   * Whatever the memo holds, a successful answer has one summary per requested
   * state, in request order, and is `Assemble` over the compiles `ds` of some
   * states `ws` whose canonical keys are those of the requested states, one for
   * one. `AnsweredReferences` draws from this that the answer carries only models
   * the summaries' parts name, and an atlas row for every special texture of
   * every summary.
   */
  ghost predicate Answered(t: Tables, query: seq<string>, resp: Response) {
    exists ws, ds :: AnsweredBy(t, query, resp, ws, ds)
  }

  ghost predicate AnsweredBy(t: Tables, query: seq<string>, resp: Response, ws: seq<BlockState>, ds: seq<StateData>) {
    && |ds| == |query| && |ParseAll(query)| == |ds|
    && SameKeys(ws, ParseAll(query)) && MapOrThrow(Compiler(t), ws) == Ok(ds)
    && resp == Assemble(t, ParseAll(query), ds)
  }

  /** The `j`-th of `ws` has the canonical key of the `j`-th of `states`. */
  predicate SameKeys(ws: seq<BlockState>, states: seq<BlockState>) {
    && |ws| <= |states|
    && forall j :: 0 <= j < |ws| ==> StateToString(ws[j]) == StateToString(states[j])
  }

  function Assemble(t: Tables, states: seq<BlockState>, ds: seq<StateData>): Response
    requires |states| == |ds|
  {
    Response(
      Summaries(states, ds),
      map x | x in TexturesOf(ds) && x in t.atlas :: t.atlas[x],
      map m | m in ModelsOf(ds) && m in t.blockModels :: t.blockModels[m])
  }

  function ParseAll(query: seq<string>): (r: seq<BlockState>)
    ensures |r| == |query|
  {
    seq(|query|, i requires 0 <= i < |query| => StringToState(query[i]))
  }

  /** What the GET handler answers for the `states` parameter, read against fresh compiles. */
  function Respond(t: Tables, param: Option<string>): Result<Response, Outcome>
  {
    match StatesParam(param)
    case Err(e) => Err(e)
    case Ok(query) =>
      var states := ParseAll(query);
      match MapOrThrow(Compiler(t), states)
      case Err(e) => Err(ServerError(e))
      case Ok(ds) => Ok(Assemble(t, states, ds))
  }

  // Properties of the response ----------------------------------------------------------

  /** The map succeeds exactly when every call does, and then holds each call's value in order. */
  lemma {:induction false} MapOrThrowSpec<S, T, E>(f: S -> Result<T, E>, xs: seq<S>)
    ensures MapOrThrow(f, xs).Ok? <==> forall i :: 0 <= i < |xs| ==> f(xs[i]).Ok?
    ensures MapOrThrow(f, xs).Ok? ==> forall i :: 0 <= i < |xs| ==> f(xs[i]) == Ok(MapOrThrow(f, xs).value[i])
  {
    if |xs| > 0 {
      var init := xs[..|xs| - 1];
      MapOrThrowSpec(f, init);
      assert forall i :: 0 <= i < |init| ==> init[i] == xs[i];
    }
  }

  lemma MapOrThrowStep<S, T, E>(f: S -> Result<T, E>, xs: seq<S>, i: nat, ys: seq<T>)
    requires i < |xs| && MapOrThrow(f, xs[..i]) == Ok(ys)
    ensures f(xs[i]).Err? ==> MapOrThrow(f, xs[..i + 1]) == Err(f(xs[i]).error)
    ensures f(xs[i]).Ok? ==> MapOrThrow(f, xs[..i + 1]) == Ok(ys + [f(xs[i]).value])
  {
    assert xs[..i + 1][..i] == xs[..i];
  }

  /** A throw in a prefix is the outcome of the whole map. */
  lemma {:induction false} MapOrThrowErrPrefix<S, T, E>(f: S -> Result<T, E>, xs: seq<S>, n: nat)
    requires n <= |xs| && MapOrThrow(f, xs[..n]).Err?
    ensures MapOrThrow(f, xs) == MapOrThrow(f, xs[..n])
    decreases |xs| - n
  {
    if n < |xs| {
      var init := xs[..|xs| - 1];
      assert init[..n] == xs[..n];
      MapOrThrowErrPrefix(f, init, n);
    } else {
      assert xs[..n] == xs;
    }
  }

  /** One summary per record, the `j`-th for the `j`-th state and record. */
  lemma {:induction false} SummariesIndex(states: seq<BlockState>, ds: seq<StateData>)
    requires |states| == |ds|
    ensures |Summaries(states, ds)| == |ds|
    ensures forall j :: 0 <= j < |ds| ==> Summaries(states, ds)[j] == Summarize(states[j], ds[j])
  {
    if |ds| > 0 {
      var n := |ds| - 1;
      SummariesIndex(states[..n], ds[..n]);
    }
  }

  /** `SummariesIndex` at one position. */
  lemma SummaryAt(states: seq<BlockState>, ds: seq<StateData>, j: nat)
    requires |states| == |ds| && j < |ds|
    ensures |Summaries(states, ds)| == |ds| && Summaries(states, ds)[j] == Summarize(states[j], ds[j])
  {
    SummariesIndex(states, ds);
  }

  lemma {:induction false} TexturesOfMembership(ds: seq<StateData>, x: int)
    ensures x in TexturesOf(ds) <==>
      exists i :: 0 <= i < |ds| && (x in ds[i].textures || x in ds[i].specialTextures)
  {
    if |ds| > 0 {
      var init := ds[..|ds| - 1];
      TexturesOfMembership(init, x);
      TexturesOfLast(ds, x);
      if i :| 0 <= i < |init| && (x in init[i].textures || x in init[i].specialTextures) {
        assert ds[i] == init[i];
      }
      if i :| 0 <= i < |ds| && (x in ds[i].textures || x in ds[i].specialTextures) {
        if i < |init| {
          assert ds[i] == init[i];
        }
      }
    }
  }

  lemma TexturesOfLast(ds: seq<StateData>, x: int)
    requires |ds| > 0
    ensures var last := ds[|ds| - 1];
      x in TexturesOf(ds) <==> x in TexturesOf(ds[..|ds| - 1]) || x in last.textures || x in last.specialTextures
  {
    var last := ds[|ds| - 1];
    var before := TexturesOf(ds[..|ds| - 1]);
    AddAllMembership(before, last.textures, x);
    AddAllMembership(AddAll(before, last.textures), last.specialTextures, x);
  }

  lemma {:induction false} ModelsOfMembership(ds: seq<StateData>, m: int)
    ensures m in ModelsOf(ds) <==> exists i :: 0 <= i < |ds| && m in ds[i].models
  {
    if |ds| > 0 {
      var init := ds[..|ds| - 1];
      ModelsOfMembership(init, m);
      ModelsOfLast(ds, m);
      if i :| 0 <= i < |init| && m in init[i].models {
        assert ds[i] == init[i];
      }
      if i :| 0 <= i < |ds| && m in ds[i].models {
        if i < |init| {
          assert ds[i] == init[i];
        }
      }
    }
  }

  lemma ModelsOfLast(ds: seq<StateData>, m: int)
    requires |ds| > 0
    ensures m in ModelsOf(ds) <==> m in ModelsOf(ds[..|ds| - 1]) || m in ds[|ds| - 1].models
  {
    AddAllMembership(ModelsOf(ds[..|ds| - 1]), ds[|ds| - 1].models, m);
  }

  /**
   * A successful response has one summary per query entry, in order, each for the
   * state the entry parses to and carrying that state's compiled record.
   */
  lemma RespondStates(t: Tables, param: Option<string>)
    requires Respond(t, param).Ok?
    ensures var query := StatesParam(param).value;
      var resp := Respond(t, param).value;
      && |resp.states| == |query|
      && forall i :: 0 <= i < |query| ==>
           && resp.states[i].state == StringToState(query[i])
           && Compile(t, StringToState(query[i])).Ok?
           && resp.states[i] == Summarize(StringToState(query[i]), Compile(t, StringToState(query[i])).value)
  {
    var query := StatesParam(param).value;
    MapOrThrowSpec(Compiler(t), ParseAll(query));
    SummariesIndex(ParseAll(query), MapOrThrow(Compiler(t), ParseAll(query)).value);
  }

  /** The request fails with a server error exactly when some listed state's compile throws. */
  lemma RespondFails(t: Tables, param: Option<string>)
    requires StatesParam(param).Ok?
    ensures Respond(t, param).Err? <==>
      exists i :: 0 <= i < |StatesParam(param).value| && Compile(t, StringToState(StatesParam(param).value[i])).Err?
  {
    var query := StatesParam(param).value;
    var states := ParseAll(query);
    MapOrThrowSpec(Compiler(t), states);
    if i :| 0 <= i < |query| && Compile(t, StringToState(query[i])).Err? {
      assert Compiler(t)(states[i]).Err?;
    }
    if i :| 0 <= i < |states| && !Compiler(t)(states[i]).Ok? {
      assert Compile(t, StringToState(query[i])).Err?;
    }
  }

  /** Every special texture of every summary has its atlas row in the response. */
  lemma RespondCoversSpecials(t: Tables, param: Option<string>)
    requires Respond(t, param).Ok?
    ensures var resp := Respond(t, param).value;
      forall i, x :: 0 <= i < |resp.states| && x in resp.states[i].specialTextures ==> x in resp.textures
  {
    var states := ParseAll(StatesParam(param).value);
    var ds := MapOrThrow(Compiler(t), states).value;
    assert Respond(t, param).value == Assemble(t, states, ds);
    AssembleCoversSpecials(t, states, ds);
  }

  lemma AssembleCoversSpecials(t: Tables, states: seq<BlockState>, ds: seq<StateData>)
    requires MapOrThrow(Compiler(t), states) == Ok(ds)
    ensures var resp := Assemble(t, states, ds);
      forall i, x :: 0 <= i < |resp.states| && x in resp.states[i].specialTextures ==> x in resp.textures
  {
    MapOrThrowSpec(Compiler(t), states);
    var resp := Assemble(t, states, ds);
    SummariesIndex(states, ds);
    forall i, x | 0 <= i < |resp.states| && x in resp.states[i].specialTextures ensures x in resp.textures {
      assert Compiler(t)(states[i]) == Ok(ds[i]);
      assert Compile(t, states[i]) == Ok(ds[i]);
      assert x in ds[i].specialTextures;
      SpecialCollected(t, states[i], ds, i, x);
    }
  }

  /** A special texture of the `i`-th record is collected and has an atlas row. */
  lemma SpecialCollected(t: Tables, s: BlockState, ds: seq<StateData>, i: nat, x: int)
    requires i < |ds| && Compile(t, s) == Ok(ds[i]) && x in ds[i].specialTextures
    ensures x in t.atlas && x in TexturesOf(ds)
  {
    SpecialInAtlas(t, s, x);
    TexturesOfMembership(ds, x);
  }

  /** A special texture of a compiled state has an atlas row. */
  lemma SpecialInAtlas(t: Tables, s: BlockState, x: int)
    requires Compile(t, s).Ok? && x in Compile(t, s).value.specialTextures
    ensures x in t.atlas
  {
    var specials := SpecialsOf(t, s).GetOr([]);
    var models := ModelSet(SelectParts(t.blockStates, s).GetOr([]));
    TextureSetMembership(t.blockModels, specials, models, x);
    CompileFails(t, s);
  }

  /** Every model row of the response belongs to a model some summary's parts refer to. */
  lemma RespondModelsReferenced(t: Tables, param: Option<string>)
    requires Respond(t, param).Ok?
    ensures var resp := Respond(t, param).value;
      forall m :: m in resp.models ==>
        && m in t.blockModels
        && exists i :: 0 <= i < |resp.states| && m in PartModels(resp.states[i].parts)
  {
    var states := ParseAll(StatesParam(param).value);
    var ds := MapOrThrow(Compiler(t), states).value;
    assert Respond(t, param).value == Assemble(t, states, ds);
    AssembleModelsReferenced(t, states, ds);
  }

  lemma AssembleModelsReferenced(t: Tables, states: seq<BlockState>, ds: seq<StateData>)
    requires MapOrThrow(Compiler(t), states) == Ok(ds)
    ensures var resp := Assemble(t, states, ds);
      forall m :: m in resp.models ==>
        && m in t.blockModels
        && exists i :: 0 <= i < |resp.states| && m in PartModels(resp.states[i].parts)
  {
    MapOrThrowSpec(Compiler(t), states);
    var resp := Assemble(t, states, ds);
    SummariesIndex(states, ds);
    forall m | m in resp.models
      ensures exists i :: 0 <= i < |resp.states| && m in PartModels(resp.states[i].parts)
    {
      ModelsOfMembership(ds, m);
      var i :| 0 <= i < |ds| && m in ds[i].models;
      assert Compiler(t)(states[i]) == Ok(ds[i]);
      ModelReferenced(t, states[i], ds[i], m);
      assert resp.states[i].parts == ds[i].parts;
    }
  }

  /**
   * Whatever the memo held, an answer carries only models the tables hold and
   * some summary's parts refer to, and an atlas row for every special texture
   * of every summary.
   */
  lemma AnsweredReferences(t: Tables, query: seq<string>, resp: Response)
    requires Answered(t, query, resp)
    ensures forall m :: m in resp.models ==>
      && m in t.blockModels
      && exists i :: 0 <= i < |resp.states| && m in PartModels(resp.states[i].parts)
    ensures forall i, x :: 0 <= i < |resp.states| && x in resp.states[i].specialTextures ==> x in resp.textures
  {
    var ws: seq<BlockState>, ds: seq<StateData> :| AnsweredBy(t, query, resp, ws, ds);
    var states := ParseAll(query);
    SummariesIndex(states, ds);
    MapOrThrowSpec(Compiler(t), ws);
    forall m | m in resp.models
      ensures exists i :: 0 <= i < |resp.states| && m in PartModels(resp.states[i].parts)
    {
      ModelsOfMembership(ds, m);
      var i :| 0 <= i < |ds| && m in ds[i].models;
      assert Compiler(t)(ws[i]) == Ok(ds[i]);
      ModelReferenced(t, ws[i], ds[i], m);
      assert resp.states[i].parts == ds[i].parts;
    }
    forall i, x | 0 <= i < |resp.states| && x in resp.states[i].specialTextures ensures x in resp.textures {
      assert x in ds[i].specialTextures;
      assert Compiler(t)(ws[i]) == Ok(ds[i]);
      SpecialCollected(t, ws[i], ds, i, x);
    }
  }

  /** A model of a compiled record is one its chosen parts refer to. */
  lemma ModelReferenced(t: Tables, s: BlockState, d: StateData, m: int)
    requires Compile(t, s) == Ok(d) && m in d.models
    ensures m in PartModels(d.parts)
  {
    CompileModels(t, s);
    PartModelsMembership(d.parts, m);
  }

  lemma RespondOk(t: Tables, param: Option<string>, ds: seq<StateData>)
    requires StatesParam(param).Ok?
    requires MapOrThrow(Compiler(t), ParseAll(StatesParam(param).value)) == Ok(ds)
    ensures Respond(t, param) == Ok(Assemble(t, ParseAll(StatesParam(param).value), ds))
  {
  }

  // The handler ------------------------------------------------------------------------

  /** The summaries so far after one more record. */
  lemma SummariesExtend(states: seq<BlockState>, datas: seq<StateData>, d: StateData)
    requires |datas| < |states|
    ensures var n := |datas|;
      Summaries(states[..n + 1], datas + [d]) == Summaries(states[..n], datas) + [Summarize(states[n], d)]
  {
    var n := |datas|;
    var s', d' := states[..n + 1], datas + [d];
    assert s'[..n] == states[..n] && d'[..n] == datas;
    assert s'[n] == states[n] && d'[n] == d;
    assert Summaries(s', d') == Summaries(s'[..n], d'[..n]) + [Summarize(s'[n], d'[n])];
  }

  /** The collected ids after one more record. */
  lemma CollectedExtend(datas: seq<StateData>, d: StateData)
    ensures TexturesOf(datas + [d]) == AddAll(AddAll(TexturesOf(datas), d.textures), d.specialTextures)
    ensures ModelsOf(datas + [d]) == AddAll(ModelsOf(datas), d.models)
  {
    assert (datas + [d])[..|datas|] == datas;
  }

  /** One more call of the map over `xs`: a throw ends it, a value extends it. */
  lemma MapOrThrowNext<S, T, E>(f: S -> Result<T, E>, xs: seq<S>, i: nat, ys: seq<T>, y: Result<T, E>)
    requires i < |xs| && MapOrThrow(f, xs[..i]) == Ok(ys) && y == f(xs[i])
    ensures y.Err? ==> MapOrThrow(f, xs) == Err(y.error)
    ensures y.Ok? ==> MapOrThrow(f, xs[..i + 1]) == Ok(ys + [y.value])
  {
    MapOrThrowStep(f, xs, i, ys);
    if y.Err? {
      MapOrThrowErrPrefix(f, xs, i + 1);
    }
  }

  predicate AllPrintable(query: seq<string>)
  {
    forall i :: 0 <= i < |query| ==> Printable(StringToState(query[i]))
  }

  /**
   * One memo lookup of the GET handler's loop, for the `i`-th state. The record is
   * the compile of some `origin` with the state's canonical key; while the memo is
   * coherent, the origin is the state itself and the lookup extends the map of
   * compiles over the states by one call.
   */
  method ResolveNext(cache: Cache, state: BlockState, ghost states: seq<BlockState>, ghost i: nat,
                     ghost datas: seq<StateData>, ghost faithful: bool)
      returns (data: Result<StateData, Fault>, ghost origin: BlockState)
    requires cache.Valid() && cache.Sound() && i < |states| && state == states[i]
    requires faithful ==>
      cache.Coherent() && Printable(states[i]) && MapOrThrow(Compiler(cache.tables), states[..i]) == Ok(datas)
    modifies cache
    ensures cache.Valid() && cache.Sound()
    ensures data.Ok? ==> StateToString(origin) == StateToString(state) && Compiler(cache.tables)(origin) == data
    ensures faithful ==> cache.Coherent() && origin == state
    ensures faithful && data.Err? ==> MapOrThrow(Compiler(cache.tables), states) == Err(data.error)
  {
    data := cache.FindOrMakeData(state);
    origin := state;
    if faithful {
      assert data == Compiler(cache.tables)(states[i]);
      MapOrThrowNext(Compiler(cache.tables), states, i, datas, data);
    } else if data.Ok? {
      assert CompiledUnder(cache.tables, StateToString(state), data.value);
      origin :| StateToString(origin) == StateToString(state) && Compile(cache.tables, origin) == data;
    }
  }

  /** Pushes the summary of one more record and collects its texture and model ids. */
  method Record(summaries: seq<Summary>, collectedTextures: seq<int>, collectedModels: seq<int>,
                state: BlockState, d: StateData, ghost states: seq<BlockState>, ghost datas: seq<StateData>)
      returns (summaries': seq<Summary>, collectedTextures': seq<int>, collectedModels': seq<int>)
    requires |datas| < |states| && state == states[|datas|]
    requires summaries == Summaries(states[..|datas|], datas)
    requires collectedTextures == TexturesOf(datas) && collectedModels == ModelsOf(datas)
    ensures summaries' == Summaries(states[..|datas| + 1], datas + [d])
    ensures collectedTextures' == TexturesOf(datas + [d]) && collectedModels' == ModelsOf(datas + [d])
  {
    summaries' := summaries + [Summarize(state, d)];
    collectedTextures' := AddEach(collectedTextures, d.textures);
    collectedTextures' := AddEach(collectedTextures', d.specialTextures);
    collectedModels' := AddEach(collectedModels, d.models);
    SummariesExtend(states, datas, d);
    CollectedExtend(datas, d);
  }

  /** What the loop of the GET handler holds after its first `i` states. */
  ghost predicate Progress(query: seq<string>, i: nat, summaries: seq<Summary>, collectedTextures: seq<int>,
                           collectedModels: seq<int>, datas: seq<StateData>)
  {
    && i <= |query| && |datas| == i
    && summaries == Summaries(ParseAll(query)[..i], datas)
    && collectedTextures == TexturesOf(datas) && collectedModels == ModelsOf(datas)
  }

  /** The records are the compiles of `ws`, which have the requested states' canonical keys. */
  ghost predicate Witnessed(t: Tables, query: seq<string>, ws: seq<BlockState>, datas: seq<StateData>)
  {
    SameKeys(ws, ParseAll(query)) && MapOrThrow(Compiler(t), ws) == Ok(datas)
  }

  lemma WitnessedExtend(t: Tables, query: seq<string>, ws: seq<BlockState>, datas: seq<StateData>,
                        origin: BlockState, d: StateData)
    requires Witnessed(t, query, ws, datas) && |ws| < |query|
    requires StateToString(origin) == StateToString(StringToState(query[|ws|])) && Compile(t, origin) == Ok(d)
    ensures Witnessed(t, query, ws + [origin], datas + [d])
  {
    MapOrThrowAppend(Compiler(t), ws, datas, origin, d);
    SameKeysExtend(ws, ParseAll(query), origin);
  }

  lemma SameKeysExtend(ws: seq<BlockState>, states: seq<BlockState>, origin: BlockState)
    requires SameKeys(ws, states) && |ws| < |states| && StateToString(origin) == StateToString(states[|ws|])
    ensures SameKeys(ws + [origin], states)
  {
    var ws' := ws + [origin];
    forall j | 0 <= j < |ws'| ensures StateToString(ws'[j]) == StateToString(states[j]) {
      if j < |ws| {
        assert ws'[j] == ws[j];
      }
    }
  }

  lemma PrefixExtend<T>(xs: seq<T>, i: nat)
    requires i < |xs|
    ensures xs[..i] + [xs[i]] == xs[..i + 1]
  {
  }

  /** One more call of the map over `ws`, which succeeds. */
  lemma MapOrThrowAppend<S, T, E>(f: S -> Result<T, E>, ws: seq<S>, ys: seq<T>, w: S, y: T)
    requires MapOrThrow(f, ws) == Ok(ys) && f(w) == Ok(y)
    ensures MapOrThrow(f, ws + [w]) == Ok(ys + [y])
  {
    assert (ws + [w])[..|ws|] == ws;
  }

  /** One iteration of the GET handler's loop: parse the `i`-th state, look it up, record it. */
  method ResolveOne(cache: Cache, query: seq<string>, i: nat, summaries: seq<Summary>, collectedTextures: seq<int>,
                    collectedModels: seq<int>, ghost ws: seq<BlockState>, ghost datas: seq<StateData>,
                    ghost faithful: bool)
      returns (fault: Option<Fault>, summaries': seq<Summary>, collectedTextures': seq<int>,
               collectedModels': seq<int>, ghost ws': seq<BlockState>, ghost datas': seq<StateData>)
    requires cache.Valid() && cache.Sound() && i < |query|
    requires Progress(query, i, summaries, collectedTextures, collectedModels, datas)
    requires Witnessed(cache.tables, query, ws, datas)
    requires faithful ==> cache.Coherent() && AllPrintable(query) && ws == ParseAll(query)[..i]
    modifies cache
    ensures cache.Valid() && cache.Sound()
    ensures fault.None? ==> Progress(query, i + 1, summaries', collectedTextures', collectedModels', datas')
    ensures fault.None? ==> Witnessed(cache.tables, query, ws', datas')
    ensures faithful ==> cache.Coherent()
    ensures faithful && fault.Some? ==> MapOrThrow(Compiler(cache.tables), ParseAll(query)) == Err(fault.value)
    ensures faithful && fault.None? ==> ws' == ParseAll(query)[..i + 1]
  {
    ghost var states := ParseAll(query);
    var state := StringToState(query[i]);
    assert state == states[i];
    var data;
    ghost var origin;
    data, origin := ResolveNext(cache, state, states, i, datas, faithful && Printable(state));
    if data.Err? {
      return Some(data.error), summaries, collectedTextures, collectedModels, ws, datas;
    }
    summaries', collectedTextures', collectedModels' :=
      Record(summaries, collectedTextures, collectedModels, state, data.value, states, datas);
    fault, ws', datas' := None, ws + [origin], datas + [data.value];
    WitnessedExtend(cache.tables, query, ws, datas, origin, data.value);
    if faithful {
      PrefixExtend(states, i);
    }
  }

  /**
   * The loop of the GET handler: one memo lookup per state, in order, pushing a
   * summary and collecting texture and model ids; a throwing compile aborts it.
   * `datas` are the records the memo returned, the compiles of `ws`.
   */
  method ResolveAll(cache: Cache, query: seq<string>)
      returns (fault: Option<Fault>, summaries: seq<Summary>, collectedTextures: seq<int>, collectedModels: seq<int>,
               ghost ws: seq<BlockState>, ghost datas: seq<StateData>)
    requires cache.Valid() && cache.Sound()
    modifies cache
    ensures cache.Valid() && cache.Sound()
    ensures fault.None? ==>
      && |datas| == |query|
      && SameKeys(ws, ParseAll(query)) && MapOrThrow(Compiler(cache.tables), ws) == Ok(datas)
      && summaries == Summaries(ParseAll(query), datas)
      && collectedTextures == TexturesOf(datas) && collectedModels == ModelsOf(datas)
    ensures old(cache.Coherent()) && AllPrintable(query) ==>
      && cache.Coherent()
      && MapOrThrow(Compiler(cache.tables), ParseAll(query)) == (if fault.None? then Ok(datas) else Err(fault.value))
  {
    var t := cache.tables;
    ghost var states := ParseAll(query);
    ghost var faithful := old(cache.Coherent()) && AllPrintable(query);
    ws, datas := [], [];
    summaries := [];
    collectedTextures := [];
    collectedModels := [];
    for i := 0 to |query|
      invariant cache.Valid() && cache.Sound() && cache.tables == t
      invariant Progress(query, i, summaries, collectedTextures, collectedModels, datas)
      invariant Witnessed(t, query, ws, datas)
      invariant faithful ==> cache.Coherent() && AllPrintable(query) && ws == states[..i]
    {
      fault, summaries, collectedTextures, collectedModels, ws, datas :=
        ResolveOne(cache, query, i, summaries, collectedTextures, collectedModels, ws, datas, faithful);
      if fault.Some? {
        return;
      }
    }
    assert states[..|query|] == states;
    fault := None;
  }

  /**
   * The GET handler: validate the parameter, resolve every state, then one atlas
   * row per collected texture and one model row per collected model. While the
   * memo is coherent and every listed state is printable, the answer is `Respond`;
   * whatever the memo holds, the answer is `Answered`, so by `AnsweredReferences`
   * it names only models some summary's parts refer to, and every special texture
   * of every summary has its atlas row.
   */
  method HandleGet(cache: Cache, param: Option<string>) returns (r: Result<Response, Outcome>)
    requires cache.Valid() && cache.Sound()
    modifies cache
    ensures cache.Valid() && cache.Sound()
    ensures StatesParam(param).Err? ==> r == Err(BadRequest) && unchanged(cache)
    ensures StatesParam(param).Ok? && old(cache.Coherent()) && AllPrintable(StatesParam(param).value) ==>
      r == Respond(cache.tables, param) && cache.Coherent()
    ensures r.Ok? ==> StatesParam(param).Ok? && Answered(cache.tables, StatesParam(param).value, r.value)
  {
    var parsed := StatesParam(param);
    if parsed.Err? {
      return Err(BadRequest);
    }
    var query := parsed.value;
    var t := cache.tables;
    var fault, summaries, collectedTextures, collectedModels, ws, datas := ResolveAll(cache, query);
    if fault.Some? {
      return Err(ServerError(fault.value));
    }
    var resp := Reply(t, query, summaries, collectedTextures, collectedModels, ws, datas);
    r := Ok(resp);
    if old(cache.Coherent()) && AllPrintable(query) {
      RespondOk(t, param, datas);
    }
  }

  /**
   * The response body once every state is resolved: the summaries, then one atlas
   * row per collected texture and one model row per collected model.
   */
  method Reply(t: Tables, query: seq<string>, summaries: seq<Summary>, collectedTextures: seq<int>,
               collectedModels: seq<int>, ghost ws: seq<BlockState>, ghost datas: seq<StateData>)
      returns (resp: Response)
    requires |datas| == |query| && SameKeys(ws, ParseAll(query)) && MapOrThrow(Compiler(t), ws) == Ok(datas)
    requires summaries == Summaries(ParseAll(query), datas)
    requires collectedTextures == TexturesOf(datas) && collectedModels == ModelsOf(datas)
    ensures AnsweredBy(t, query, resp, ws, datas) && Answered(t, query, resp)
    ensures forall m :: m in resp.models ==>
      && m in t.blockModels
      && exists i :: 0 <= i < |resp.states| && m in PartModels(resp.states[i].parts)
    ensures forall i, x :: 0 <= i < |resp.states| && x in resp.states[i].specialTextures ==> x in resp.textures
  {
    var textures := FillTextures(t.atlas, collectedTextures);
    var models := FillModels(t.blockModels, collectedModels);
    resp := Response(summaries, textures, models);
    assert AnsweredBy(t, query, resp, ws, datas);
    AnsweredReferences(t, query, resp);
  }

  /** `collectedTextures.forEach(tex => response.textures[tex] = textureAtlasData[tex])`. */
  method FillTextures(atlas: map<int, AtlasEntry>, collected: seq<int>) returns (rows: map<int, AtlasEntry>)
    ensures rows == map x | x in collected && x in atlas :: atlas[x]
  {
    rows := map[];
    for i := 0 to |collected|
      invariant rows == map x | x in collected[..i] && x in atlas :: atlas[x]
    {
      assert forall x :: x in collected[..i + 1] <==> x in collected[..i] || x == collected[i];
      if collected[i] in atlas {
        rows := rows[collected[i] := atlas[collected[i]]];
      }
    }
    assert collected[..|collected|] == collected;
  }

  /** `collectedModels.forEach(model => response.models[model] = blockModelData[model])`. */
  method FillModels(blockModels: map<int, BlockModel>, collected: seq<int>) returns (rows: map<int, BlockModel>)
    ensures rows == map m | m in collected && m in blockModels :: blockModels[m]
  {
    rows := map[];
    for i := 0 to |collected|
      invariant rows == map m | m in collected[..i] && m in blockModels :: blockModels[m]
    {
      assert forall m :: m in collected[..i + 1] <==> m in collected[..i] || m == collected[i];
      if collected[i] in blockModels {
        rows := rows[collected[i] := blockModels[collected[i]]];
      }
    }
    assert collected[..|collected|] == collected;
  }
}
