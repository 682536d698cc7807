/**
 * The render-data compiler of the renderer route (`makeStateData`): from a
 * block state and the seven static data tables, the per-state record the
 * client needs — selected parts, referenced models, referenced textures
 * (animated ones expanded by one level), render type, occlusion and liquid
 * data.
 *
 * The tables are JSON objects keyed by strings. Model and texture tables are
 * keyed by `String(id)` of an integer id; since `String` is injective on
 * integers, they are maps from `int` here.
 */
module RenderData {
  import opened Wrappers
  import opened BlockStates
  import opened ModelSelector
  import opened OrderedSets

  type Boxes = seq<seq<real>>

  datatype Face = Face(texture: int, uv: Option<seq<real>>, rotation: Option<int>, tintindex: Option<int>, cullface: Option<string>)

  /** An element of a block model; `faces` lists the faces present, in key order. */
  datatype Element = Element(from: seq<real>, to: seq<real>, shade: Option<bool>, faces: seq<Face>)

  datatype BlockModel = BlockModel(elements: Option<seq<Element>>)

  /** An atlas row: plain coordinates (an array), or an animated texture whose frames are texture ids. */
  datatype AtlasEntry =
    | Coords(coords: seq<int>)
    | Animated(frames: seq<int>, time: seq<int>, interpolate: Option<bool>)

  datatype OcclusionFaceData = OcclusionFaceData(
    down: Option<Boxes>, up: Option<Boxes>, north: Option<Boxes>,
    south: Option<Boxes>, west: Option<Boxes>, east: Option<Boxes>,
    canOcclude: bool)

  datatype LiquidData = LiquidData(blocksMotion: bool, faceSturdy: seq<string>)

  /** The seven data tables the route is built over. */
  datatype Tables = Tables(
    blockStates: map<string, ModelCollection>,
    blockModels: map<int, BlockModel>,
    atlas: map<int, AtlasEntry>,
    renderTypes: map<string, string>,
    occlusion: map<string, OcclusionFaceData>,
    specials: map<string, seq<int>>,
    liquid: map<string, LiquidData>)

  datatype StateData = StateData(
    parts: seq<Apply>,
    models: seq<int>,
    textures: seq<int>,
    renderType: string,
    faceSturdy: seq<string>,
    blocksMotion: bool,
    occlusion: bool,
    occlusionShape: map<string, Boxes>,
    specialTextures: seq<int>)

  /** `textureData.frames` on a texture id the atlas lacks throws. */
  datatype Fault = MissingAtlasEntry(texture: int)

  /** `EMPTY_STATE_DATA`: note its occlusion shape has no face keys at all. */
  const EmptyStateData := StateData([], [], [], "solid", [], false, false, map[], [])

  /** The fallback `{ can_occlude: false }`. */
  const NoOcclusion := OcclusionFaceData(None, None, None, None, None, None, false)

  /** The fallback `{ blocks_motion: false, face_sturdy: [] }`. */
  const NoLiquid := LiquidData(false, [])

  const Faces: set<string> := {"down", "up", "north", "south", "west", "east"}

  // Table rows of a state -------------------------------------------------------------

  function SpecialsOf(t: Tables, s: BlockState): Option<seq<int>>
  {
    if s.name in t.specials then Some(t.specials[s.name]) else None
  }

  /** Occlusion and liquid rows are keyed by the canonical key without `waterlogged`. */
  function ShapeOf(t: Tables, s: BlockState): OcclusionFaceData
  {
    var key := StateToStringFilteredWaterLogged(s);
    if key in t.occlusion then t.occlusion[key] else NoOcclusion
  }

  function LiquidOf(t: Tables, s: BlockState): LiquidData
  {
    var key := StateToStringFilteredWaterLogged(s);
    if key in t.liquid then t.liquid[key] else NoLiquid
  }

  /** The guard for `EMPTY_STATE_DATA`: no parts, no specials row, no occlusion, no motion blocking. */
  predicate Plain(t: Tables, s: BlockState)
  {
    && SelectParts(t.blockStates, s).None?
    && SpecialsOf(t, s).None?
    && !ShapeOf(t, s).canOcclude
    && !LiquidOf(t, s).blocksMotion
  }

  // Collected ids ---------------------------------------------------------------------

  /** The model ids a part refers to: one, or one per weighted choice. */
  function ApplyModels(a: Apply): seq<int>
  {
    match a
    case Single(ref) => [ref.model]
    case Weighted(choices) => seq(|choices|, i requires 0 <= i < |choices| => choices[i].model)
  }

  /** Every model reference of the parts, in order, with repeats. */
  function PartModels(parts: seq<Apply>): seq<int>
  {
    if |parts| == 0 then []
    else PartModels(parts[..|parts| - 1]) + ApplyModels(parts[|parts| - 1])
  }

  function FaceTextures(e: Element): seq<int>
  {
    seq(|e.faces|, i requires 0 <= i < |e.faces| => e.faces[i].texture)
  }

  function ElementsTextures(es: seq<Element>): seq<int>
  {
    if |es| == 0 then []
    else ElementsTextures(es[..|es| - 1]) + FaceTextures(es[|es| - 1])
  }

  /** Every face texture of the given models that the model table holds, in order, with repeats. */
  function ModelTextures(blockModels: map<int, BlockModel>, models: seq<int>): seq<int>
  {
    if |models| == 0 then []
    else
      var m := models[|models| - 1];
      ModelTextures(blockModels, models[..|models| - 1])
        + (if m in blockModels then ElementsTextures(blockModels[m].elements.GetOr([])) else [])
  }

  /** The `models` set. */
  function ModelSet(parts: seq<Apply>): seq<int>
  {
    AddAll([], PartModels(parts))
  }

  /** The `textures` set: specials first, then face textures. */
  function TextureSet(blockModels: map<int, BlockModel>, specials: seq<int>, models: seq<int>): seq<int>
  {
    AddAll(AddAll([], specials), ModelTextures(blockModels, models))
  }

  function FramesOf(e: AtlasEntry): seq<int>
  {
    match e
    case Coords(_) => []
    case Animated(frames, _, _) => frames
  }

  /** The `texturesParsed` set: each texture followed by its frames; the first id the atlas lacks throws. */
  function Expand(atlas: map<int, AtlasEntry>, textures: seq<int>): Result<seq<int>, Fault>
  {
    if |textures| == 0 then Ok([])
    else
      match Expand(atlas, textures[..|textures| - 1])
      case Err(e) => Err(e)
      case Ok(acc) =>
        var x := textures[|textures| - 1];
        if x !in atlas then Err(MissingAtlasEntry(x))
        else Ok(AddAll(Add(acc, x), FramesOf(atlas[x])))
  }

  /** `makeStateData` once the state's table rows are read: `name`, its chosen parts, its occlusion and liquid rows. */
  function Build(t: Tables, name: string, chosen: Option<seq<Apply>>, shape: OcclusionFaceData, liquid: LiquidData)
    : Result<StateData, Fault>
  {
    if chosen.None? && name !in t.specials && !shape.canOcclude && !liquid.blocksMotion then Ok(EmptyStateData)
    else
      var parts := chosen.GetOr([]);
      var specials := if name in t.specials then t.specials[name] else [];
      var models := ModelSet(parts);
      match Expand(t.atlas, TextureSet(t.blockModels, specials, models))
      case Err(e) => Err(e)
      case Ok(textures) =>
        Ok(StateData(
          parts, models, textures,
          if name in t.renderTypes then t.renderTypes[name] else "solid",
          liquid.faceSturdy, liquid.blocksMotion, shape.canOcclude,
          map["down" := shape.down.GetOr([]), "up" := shape.up.GetOr([]),
              "north" := shape.north.GetOr([]), "south" := shape.south.GetOr([]),
              "west" := shape.west.GetOr([]), "east" := shape.east.GetOr([])],
          specials))
  }

  /** `makeStateData`, as a function of the tables and the state. */
  function Compile(t: Tables, s: BlockState): Result<StateData, Fault>
  {
    Build(t, s.name, SelectParts(t.blockStates, s), ShapeOf(t, s), LiquidOf(t, s))
  }

  // Properties of the collected ids ----------------------------------------------------

  lemma {:induction false} PartModelsMembership(parts: seq<Apply>, m: int)
    ensures m in PartModels(parts) <==> exists i :: 0 <= i < |parts| && m in ApplyModels(parts[i])
  {
    if |parts| > 0 {
      var init := parts[..|parts| - 1];
      PartModelsMembership(init, m);
      if m in PartModels(init) {
        var i :| 0 <= i < |init| && m in ApplyModels(init[i]);
        assert parts[i] == init[i];
      }
      if i :| 0 <= i < |parts| && m in ApplyModels(parts[i]) {
        if i < |init| {
          assert parts[i] == init[i];
        }
      }
    }
  }

  lemma {:induction false} ModelTexturesMembership(blockModels: map<int, BlockModel>, models: seq<int>, x: int)
    ensures x in ModelTextures(blockModels, models) <==>
      exists i :: 0 <= i < |models| && models[i] in blockModels
                  && x in ElementsTextures(blockModels[models[i]].elements.GetOr([]))
  {
    if |models| > 0 {
      var init := models[..|models| - 1];
      var m := models[|models| - 1];
      var last := if m in blockModels then ElementsTextures(blockModels[m].elements.GetOr([])) else [];
      assert ModelTextures(blockModels, models) == ModelTextures(blockModels, init) + last;
      ModelTexturesMembership(blockModels, init, x);
      if x in ModelTextures(blockModels, init) {
        var i :| 0 <= i < |init| && init[i] in blockModels
                 && x in ElementsTextures(blockModels[init[i]].elements.GetOr([]));
        assert models[i] == init[i];
      }
      if i :| 0 <= i < |models| && models[i] in blockModels
              && x in ElementsTextures(blockModels[models[i]].elements.GetOr([])) {
        if i < |init| {
          assert models[i] == init[i];
        }
      }
    }
  }

  /** An error names the first texture id the atlas lacks; an error in a prefix is the error of the whole. */
  lemma {:induction false} ExpandErrPrefix(atlas: map<int, AtlasEntry>, textures: seq<int>, n: nat)
    requires n <= |textures| && Expand(atlas, textures[..n]).Err?
    ensures Expand(atlas, textures) == Expand(atlas, textures[..n])
    decreases |textures| - n
  {
    if n < |textures| {
      var init := textures[..|textures| - 1];
      assert init[..n] == textures[..n];
      ExpandErrPrefix(atlas, init, n);
    } else {
      assert textures[..n] == textures;
    }
  }

  /**
   * `Expand` throws exactly when some texture id is missing from the atlas;
   * otherwise it lists each texture and each frame of each animated texture,
   * once, and nothing else.
   */
  lemma {:induction false} ExpandSpec(atlas: map<int, AtlasEntry>, textures: seq<int>)
    ensures Expand(atlas, textures).Err? <==> exists x :: x in textures && x !in atlas
    ensures Expand(atlas, textures).Err? ==>
      Expand(atlas, textures).error.texture in textures && Expand(atlas, textures).error.texture !in atlas
    ensures Expand(atlas, textures).Ok? ==> Distinct(Expand(atlas, textures).value)
    ensures Expand(atlas, textures).Ok? ==> forall y :: y in Expand(atlas, textures).value <==>
      y in textures || exists x :: x in textures && x in atlas && y in FramesOf(atlas[x])
  {
    if |textures| > 0 {
      var init := textures[..|textures| - 1];
      var x := textures[|textures| - 1];
      assert textures == init + [x];
      ExpandSpec(atlas, init);
      match Expand(atlas, init)
      case Err(e) =>
      case Ok(acc) =>
        if x in atlas {
          var base := Add(acc, x);
          var r := AddAll(base, FramesOf(atlas[x]));
          assert Expand(atlas, textures) == Ok(r);
          AddDistinct(acc, x);
          AddAllDistinct(base, FramesOf(atlas[x]));
          forall y ensures y in r <==> y in textures || exists z :: z in textures && z in atlas && y in FramesOf(atlas[z]) {
            AddAllMembership(base, FramesOf(atlas[x]), y);
            if z :| z in textures && z in atlas && y in FramesOf(atlas[z]) {
              if z != x {
                assert z in init;
              }
            }
          }
        }
    }
  }

  // Properties of Compile ----------------------------------------------------------

  /** `EMPTY_STATE_DATA` is returned exactly for plain states; any other result has six face keys. */
  lemma CompileEmptyIff(t: Tables, s: BlockState)
    ensures Compile(t, s) == Ok(EmptyStateData) <==> Plain(t, s)
    ensures !Plain(t, s) && Compile(t, s).Ok? ==> Compile(t, s).value.occlusionShape.Keys == Faces
  {
    if !Plain(t, s) && Compile(t, s).Ok? {
      assert "down" in Compile(t, s).value.occlusionShape;
    }
  }

  /**
   * The fields of a record that is not the empty one: the selected parts (or none),
   * the render type (`solid` by default), the liquid row's flags, the occlusion
   * flag, each face's boxes (`[]` by default) and the special textures (or none).
   */
  lemma CompileFields(t: Tables, s: BlockState)
    requires !Plain(t, s) && Compile(t, s).Ok?
    ensures var d := Compile(t, s).value;
      var shape := ShapeOf(t, s);
      && d.parts == SelectParts(t.blockStates, s).GetOr([])
      && d.renderType == (if s.name in t.renderTypes then t.renderTypes[s.name] else "solid")
      && d.faceSturdy == LiquidOf(t, s).faceSturdy && d.blocksMotion == LiquidOf(t, s).blocksMotion
      && d.occlusion == shape.canOcclude
      && d.occlusionShape["down"] == shape.down.GetOr([]) && d.occlusionShape["up"] == shape.up.GetOr([])
      && d.occlusionShape["north"] == shape.north.GetOr([]) && d.occlusionShape["south"] == shape.south.GetOr([])
      && d.occlusionShape["west"] == shape.west.GetOr([]) && d.occlusionShape["east"] == shape.east.GetOr([])
      && d.specialTextures == SpecialsOf(t, s).GetOr([])
  {
  }

  /** The models are exactly those the selected parts refer to, each listed once. */
  lemma CompileModels(t: Tables, s: BlockState)
    requires Compile(t, s).Ok?
    ensures Distinct(Compile(t, s).value.models)
    ensures forall m :: m in Compile(t, s).value.models <==>
      exists i :: 0 <= i < |SelectParts(t.blockStates, s).GetOr([])|
                  && m in ApplyModels(SelectParts(t.blockStates, s).GetOr([])[i])
  {
    var parts := SelectParts(t.blockStates, s).GetOr([]);
    AddAllDistinct([], PartModels(parts));
    forall m ensures m in Compile(t, s).value.models <==> exists i :: 0 <= i < |parts| && m in ApplyModels(parts[i]) {
      AddAllMembership([], PartModels(parts), m);
      PartModelsMembership(parts, m);
    }
  }

  /**
   * For a state that is not plain: the textures are the special textures and the
   * face textures of every listed model the model table holds, plus the frames of
   * each animated one; each listed once. The specials all appear among them.
   */
  lemma CompileTextures(t: Tables, s: BlockState)
    requires !Plain(t, s) && Compile(t, s).Ok?
    ensures Distinct(Compile(t, s).value.textures)
    ensures forall y :: y in Compile(t, s).value.textures <==>
      y in TextureSet(t.blockModels, SpecialsOf(t, s).GetOr([]), Compile(t, s).value.models)
      || exists x :: x in TextureSet(t.blockModels, SpecialsOf(t, s).GetOr([]), Compile(t, s).value.models)
                     && x in t.atlas && y in FramesOf(t.atlas[x])
    ensures forall x :: x in Compile(t, s).value.specialTextures ==> x in Compile(t, s).value.textures
  {
    var specials := SpecialsOf(t, s).GetOr([]);
    var d := Compile(t, s).value;
    var collected := TextureSet(t.blockModels, specials, d.models);
    assert Expand(t.atlas, collected) == Ok(d.textures) && d.specialTextures == specials;
    ExpandSpec(t.atlas, collected);
    forall x | x in specials ensures x in d.textures {
      TextureSetMembership(t.blockModels, specials, d.models, x);
    }
  }

  /** Which texture ids end up collected: specials, then face textures of held models. */
  lemma TextureSetMembership(blockModels: map<int, BlockModel>, specials: seq<int>, models: seq<int>, x: int)
    ensures x in TextureSet(blockModels, specials, models) <==>
      x in specials ||
      exists i :: 0 <= i < |models| && models[i] in blockModels
                  && x in ElementsTextures(blockModels[models[i]].elements.GetOr([]))
  {
    AddAllMembership([], specials, x);
    AddAllMembership(AddAll([], specials), ModelTextures(blockModels, models), x);
    ModelTexturesMembership(blockModels, models, x);
  }

  /** `makeStateData` throws exactly when the state is not plain and a collected texture id has no atlas row. */
  lemma CompileFails(t: Tables, s: BlockState)
    ensures Compile(t, s).Err? <==>
      !Plain(t, s) &&
      exists x :: x in TextureSet(t.blockModels, SpecialsOf(t, s).GetOr([]), ModelSet(SelectParts(t.blockStates, s).GetOr([])))
                  && x !in t.atlas
  {
    ExpandSpec(t.atlas, TextureSet(t.blockModels, SpecialsOf(t, s).GetOr([]), ModelSet(SelectParts(t.blockStates, s).GetOr([]))));
  }

  /** The property insertion order of a state cannot change its render data. */
  lemma CompileOrderIndependent(t: Tables, s: BlockState, u: BlockState)
    requires s.name == u.name
    requires ValidProps(s.properties) && ValidProps(u.properties)
    requires multiset(s.properties) == multiset(u.properties)
    ensures Compile(t, s) == Compile(t, u)
  {
    forall k ensures Lookup(s.properties, k) == Lookup(u.properties, k) {
      LookupPermutation(s.properties, u.properties, k);
    }
    SelectPartsLookupOnly(t.blockStates, s, u);
    FilteredKeyOrderIndependent(s, u);
    assert ShapeOf(t, s) == ShapeOf(t, u) && LiquidOf(t, s) == LiquidOf(t, u);
  }

  /** A printable state compiles like the state its canonical key parses back to. */
  lemma CompileCanonical(t: Tables, s: BlockState)
    requires Printable(s)
    ensures Compile(t, StringToState(StateToString(s))) == Compile(t, s)
  {
    CanonicalKeyRoundTrip(s);
    CompileOrderIndependent(t, s, StringToState(StateToString(s)));
  }

  /** Setting `waterlogged` never changes the occlusion and liquid rows a state reads. */
  lemma WaterloggedKeepsRows(t: Tables, s: BlockState, v: Option<string>)
    ensures var w := BlockState(s.name, Assign(s.properties, "waterlogged", v));
      ShapeOf(t, w) == ShapeOf(t, s) && LiquidOf(t, w) == LiquidOf(t, s)
  {
    WaterloggedIgnored(s, v);
  }

  // makeStateData --------------------------------------------------------------------

  /** `xs.forEach(x => set.add(x))`, as a loop. */
  method AddEach(acc: seq<int>, xs: seq<int>) returns (r: seq<int>)
    ensures r == AddAll(acc, xs)
  {
    r := acc;
    for j := 0 to |xs|
      invariant r == AddAll(acc, xs[..j])
    {
      AddAllStep(acc, xs, j);
      r := Add(r, xs[j]);
    }
    assert xs[..|xs|] == xs;
  }

  /** One part of the `models` loop: the part's model, or each weighted choice's model. */
  method AddApplyModels(models: seq<int>, part: Apply) returns (r: seq<int>)
    ensures r == AddAll(models, ApplyModels(part))
  {
    match part
    case Single(ref) =>
      r := Add(models, ref.model);
      assert AddAll(models, [ref.model]) == Add(AddAll(models, []), ref.model);
    case Weighted(choices) =>
      r := models;
      for j := 0 to |choices|
        invariant r == AddAll(models, ApplyModels(part)[..j])
      {
        AddAllStep(models, ApplyModels(part), j);
        r := Add(r, choices[j].model);
      }
      assert ApplyModels(part)[..|choices|] == ApplyModels(part);
  }

  /** The `models` loop. */
  method CollectModels(parts: seq<Apply>) returns (models: seq<int>)
    ensures models == ModelSet(parts)
  {
    models := [];
    for i := 0 to |parts|
      invariant models == AddAll([], PartModels(parts[..i]))
    {
      models := AddApplyModels(models, parts[i]);
      assert parts[..i + 1][..i] == parts[..i];
      AddAllConcat([], PartModels(parts[..i]), ApplyModels(parts[i]));
    }
    assert parts[..|parts|] == parts;
  }

  /** The face loop of one model: every face texture of every element. */
  method AddElementTextures(textures: seq<int>, elements: seq<Element>) returns (r: seq<int>)
    ensures r == AddAll(textures, ElementsTextures(elements))
  {
    r := textures;
    for i := 0 to |elements|
      invariant r == AddAll(textures, ElementsTextures(elements[..i]))
    {
      ghost var before := r;
      var faces := elements[i].faces;
      for j := 0 to |faces|
        invariant r == AddAll(before, FaceTextures(elements[i])[..j])
      {
        AddAllStep(before, FaceTextures(elements[i]), j);
        r := Add(r, faces[j].texture);
      }
      assert FaceTextures(elements[i])[..|faces|] == FaceTextures(elements[i]);
      assert elements[..i + 1][..i] == elements[..i];
      AddAllConcat(textures, ElementsTextures(elements[..i]), FaceTextures(elements[i]));
    }
    assert elements[..|elements|] == elements;
  }

  /** The `textures` loops: specials, then each held model's face textures. */
  method CollectTextures(blockModels: map<int, BlockModel>, specials: seq<int>, models: seq<int>) returns (textures: seq<int>)
    ensures textures == TextureSet(blockModels, specials, models)
  {
    textures := AddEach([], specials);
    ghost var base := textures;
    for i := 0 to |models|
      invariant textures == AddAll(base, ModelTextures(blockModels, models[..i]))
    {
      assert models[..i + 1][..i] == models[..i];
      assert ModelTextures(blockModels, models[..i + 1]) == ModelTextures(blockModels, models[..i])
        + (if models[i] in blockModels then ElementsTextures(blockModels[models[i]].elements.GetOr([])) else []);
      if models[i] in blockModels {
        textures := AddElementTextures(textures, blockModels[models[i]].elements.GetOr([]));
        AddAllConcat(base, ModelTextures(blockModels, models[..i]),
                     ElementsTextures(blockModels[models[i]].elements.GetOr([])));
      } else {
        assert ModelTextures(blockModels, models[..i]) + [] == ModelTextures(blockModels, models[..i]);
      }
    }
    assert models[..|models|] == models;
  }

  /** The `texturesParsed` loop: each texture, then the frames of an animated one. */
  method ExpandTextures(atlas: map<int, AtlasEntry>, textures: seq<int>) returns (r: Result<seq<int>, Fault>)
    ensures r == Expand(atlas, textures)
  {
    var parsed := [];
    for i := 0 to |textures|
      invariant Expand(atlas, textures[..i]) == Ok(parsed)
    {
      var x := textures[i];
      assert textures[..i + 1][..i] == textures[..i];
      if x !in atlas {
        ExpandErrPrefix(atlas, textures, i + 1);
        return Err(MissingAtlasEntry(x));
      }
      parsed := Add(parsed, x);
      match atlas[x]
      case Coords(_) =>
      case Animated(frames, _, _) =>
        parsed := AddEach(parsed, frames);
    }
    assert textures[..|textures|] == textures;
    return Ok(parsed);
  }

  /** `makeStateData`. */
  method MakeStateData(t: Tables, s: BlockState) returns (r: Result<StateData, Fault>)
    ensures r == Compile(t, s)
  {
    var stateString := StateToStringFilteredWaterLogged(s);
    var parts := ChooseModel(t.blockStates, s);
    var specials := if s.name in t.specials then Some(t.specials[s.name]) else None;
    var shape := if stateString in t.occlusion then t.occlusion[stateString] else NoOcclusion;
    var liquid := if stateString in t.liquid then t.liquid[stateString] else NoLiquid;
    if parts.None? && specials.None? && !shape.canOcclude && !liquid.blocksMotion {
      return Ok(EmptyStateData);
    }
    var models := CollectModels(parts.GetOr([]));
    var textures := CollectTextures(t.blockModels, specials.GetOr([]), models);
    var parsed := ExpandTextures(t.atlas, textures);
    if parsed.Err? {
      return Err(parsed.error);
    }
    r := Ok(StateData(
      parts.GetOr([]), models, parsed.value,
      if s.name in t.renderTypes then t.renderTypes[s.name] else "solid",
      liquid.faceSturdy, liquid.blocksMotion, shape.canOcclude,
      map["down" := shape.down.GetOr([]), "up" := shape.up.GetOr([]),
          "north" := shape.north.GetOr([]), "south" := shape.south.GetOr([]),
          "west" := shape.west.GetOr([]), "east" := shape.east.GetOr([])],
      specials.GetOr([])));
  }
}
