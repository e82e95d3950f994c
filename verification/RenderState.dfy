/** Render state: variables, the GL settings they stand for, and the incremental setter. */
module RenderStates {

  /** The state variables that reach GL, and the others. */
  datatype Name =
    | AlphaBlendEnable | SeparateAlphaBlendEnable
    | SourceBlendFunction | SourceBlendAlphaFunction | DestinationBlendFunction | DestinationBlendAlphaFunction
    | BlendEquation | BlendAlphaEquation
    | CullMode | DitherEnable | ZEnable | ZComparisonFunction | ZWriteEnable
    | StencilEnable | StencilComparisonFunction | PolygonOffset1 | PolygonOffset2 | FillMode
    | Other(variable: OtherVariable)

  datatype OtherVariable =
    | AlphaComparisonFunction | AlphaReference | AlphaTestEnable
    | CCWStencilComparisonFunction | CCWStencilFailOperation | CCWStencilPassOperation | CCWStencilZFailOperation
    | ColorWriteEnable | LineSmoothEnable | PointSize | PointSpriteEnable
    | StencilFailOperation | StencilMask | StencilPassOperation | StencilReference | StencilWriteMask
    | StencilZFailOperation | TwoSidedStencilEnable

  datatype Value = Flag(on: bool) | Code(n: int) | Float(x: real) {
    predicate Truthy() { match this case Flag(b) => b case Code(n) => n != 0 case Float(x) => x != 0.0 }

    /** The number that a `switch` sees; no constant is negative. */
    function AsCode(): int { if Code? then n else -1 }

    function AsFloat(): real { match this case Float(x) => x case Code(n) => n as real case Flag(_) => 0.0 }
  }

  type StateMap = map<Name, Value>

  const BLENDFUNC_ZERO := 0
  const BLENDFUNC_ONE := 1
  const BLEND_ADD := 0
  const CULL_CW := 1
  const CULL_CCW := 2
  const SOLID := 2
  const CMP_LESS := 1
  const CMP_ALWAYS := 7
  const STENCIL_KEEP := 0

  function Default(name: Name): Value {
    match name
    case AlphaBlendEnable => Flag(false)
    case SeparateAlphaBlendEnable => Flag(false)
    case SourceBlendFunction => Code(BLENDFUNC_ONE)
    case SourceBlendAlphaFunction => Code(BLENDFUNC_ONE)
    case DestinationBlendFunction => Code(BLENDFUNC_ZERO)
    case DestinationBlendAlphaFunction => Code(BLENDFUNC_ZERO)
    case BlendEquation => Code(BLEND_ADD)
    case BlendAlphaEquation => Code(BLEND_ADD)
    case CullMode => Code(CULL_CW)
    case DitherEnable => Flag(false)
    case ZEnable => Flag(true)
    case ZComparisonFunction => Code(CMP_LESS)
    case ZWriteEnable => Flag(true)
    case StencilEnable => Flag(false)
    case StencilComparisonFunction => Code(CMP_ALWAYS)
    case PolygonOffset1 => Float(0.0)
    case PolygonOffset2 => Float(0.0)
    case FillMode => Code(SOLID)
    case Other(variable) => OtherDefault(variable)
  }

  function OtherDefault(variable: OtherVariable): Value {
    match variable
    case AlphaComparisonFunction => Code(CMP_ALWAYS)
    case AlphaReference => Float(0.0)
    case AlphaTestEnable => Flag(false)
    case CCWStencilComparisonFunction => Code(CMP_ALWAYS)
    case CCWStencilFailOperation => Code(STENCIL_KEEP)
    case CCWStencilPassOperation => Code(STENCIL_KEEP)
    case CCWStencilZFailOperation => Code(STENCIL_KEEP)
    case ColorWriteEnable => Code(15)
    case LineSmoothEnable => Flag(false)
    case PointSize => Float(0.0)
    case PointSpriteEnable => Flag(false)
    case StencilFailOperation => Code(STENCIL_KEEP)
    case StencilMask => Code(255)
    case StencilPassOperation => Code(STENCIL_KEEP)
    case StencilReference => Code(0)
    case StencilWriteMask => Code(255)
    case StencilZFailOperation => Code(STENCIL_KEEP)
    case TwoSidedStencilEnable => Flag(false)
  }

  /** The value of a variable, given the values that are set. */
  function Lookup(env: StateMap, name: Name): Value { if name in env then env[name] else Default(name) }

  // ------------------------------------------------------------------------------ GL

  datatype BlendFactor =
    | ZERO | ONE | SRC_COLOR | ONE_MINUS_SRC_COLOR | SRC_ALPHA | ONE_MINUS_SRC_ALPHA
    | DST_ALPHA | ONE_MINUS_DST_ALPHA | DST_COLOR | ONE_MINUS_DST_COLOR | SRC_ALPHA_SATURATE

  datatype Equation = FUNC_ADD | FUNC_SUBTRACT | FUNC_REVERSE_SUBTRACT | MIN | MAX

  datatype Comparison = NEVER | LESS | EQUAL | LEQUAL | GREATER | NOTEQUAL | GEQUAL | ALWAYS

  datatype Side = FRONT | BACK

  function ConvertBlendFunc(n: int): BlendFactor {
    match n
    case 0 => ZERO case 1 => ONE case 2 => SRC_COLOR case 3 => ONE_MINUS_SRC_COLOR
    case 4 => SRC_ALPHA case 5 => ONE_MINUS_SRC_ALPHA case 6 => DST_ALPHA case 7 => ONE_MINUS_DST_ALPHA
    case 8 => DST_COLOR case 9 => ONE_MINUS_DST_COLOR case 10 => SRC_ALPHA_SATURATE case _ => ONE
  }

  function ConvertEquation(n: int): Equation {
    match n
    case 0 => FUNC_ADD case 1 => FUNC_SUBTRACT case 2 => FUNC_REVERSE_SUBTRACT case 3 => MIN case 4 => MAX
    case _ => FUNC_ADD
  }

  function ConvertComparison(n: int): Comparison {
    match n
    case 0 => NEVER case 1 => LESS case 2 => EQUAL case 3 => LEQUAL
    case 4 => GREATER case 5 => NOTEQUAL case 6 => GEQUAL case _ => ALWAYS
  }

  datatype Blending = Blending(src: BlendFactor, dst: BlendFactor, srcAlpha: BlendFactor, dstAlpha: BlendFactor,
                               equation: Equation, alphaEquation: Equation)

  datatype Faces = Faces(cullFace: bool, cullSide: Side, dither: bool)

  datatype Depths = Depths(depthTest: bool, depthFunc: Comparison, depthMask: bool, stencilTest: bool,
                           stencilFunc: Comparison)

  datatype Fills = Fills(polygonOffset: bool, factor: real, bias: real, fillMode: Value)

  /** Everything the setter tells GL. */
  datatype Settings = Settings(blend: bool, blending: Blending, faces: Faces, depths: Depths, fills: Fills)

  datatype Feature<T> = Off | On(value: T)

  datatype FacesView = FacesView(cull: Feature<Side>, dither: bool)

  datatype DepthsView = DepthsView(depth: Feature<Comparison>, mask: bool, stencil: Feature<Comparison>)

  datatype FillsView = FillsView(offset: Feature<(real, real)>, fillMode: Value)

  /** What a drawing can notice: the parameters of a disabled feature are ignored. */
  datatype View = View(blend: Feature<Blending>, faces: FacesView, depths: DepthsView, fills: FillsView)

  function ObserveFaces(f: Faces): FacesView { FacesView(if f.cullFace then On(f.cullSide) else Off, f.dither) }

  function ObserveDepths(d: Depths): DepthsView {
    DepthsView(if d.depthTest then On(d.depthFunc) else Off, d.depthMask,
               if d.stencilTest then On(d.stencilFunc) else Off)
  }

  function ObserveFills(f: Fills): FillsView {
    FillsView(if f.polygonOffset then On((f.factor, f.bias)) else Off, f.fillMode)
  }

  function Observe(s: Settings): View {
    View(if s.blend then On(s.blending) else Off, ObserveFaces(s.faces), ObserveDepths(s.depths), ObserveFills(s.fills))
  }

  // ------------------------------------------------------- what the variables stand for

  function CodeOf(env: StateMap, name: Name): int { Lookup(env, name).AsCode() }

  predicate IsOn(env: StateMap, name: Name) { Lookup(env, name).Truthy() }

  /** Plain blending: colour and alpha alike. */
  function PlainBlending(env: StateMap): Blending {
    var src := ConvertBlendFunc(CodeOf(env, SourceBlendFunction));
    var dst := ConvertBlendFunc(CodeOf(env, DestinationBlendFunction));
    var equation := ConvertEquation(CodeOf(env, BlendEquation));
    Blending(src, dst, src, dst, equation, equation)
  }

  function DescribedFaces(env: StateMap): FacesView {
    var cull := CodeOf(env, CullMode);
    FacesView(if cull == CULL_CW then On(BACK) else if cull == CULL_CCW then On(FRONT) else Off,
              IsOn(env, DitherEnable))
  }

  function DescribedDepths(env: StateMap): DepthsView {
    DepthsView(if IsOn(env, ZEnable) then On(ConvertComparison(CodeOf(env, ZComparisonFunction))) else Off,
               IsOn(env, ZWriteEnable),
               if IsOn(env, StencilEnable) then On(ConvertComparison(CodeOf(env, StencilComparisonFunction))) else Off)
  }

  function DescribedFills(env: StateMap): FillsView {
    var factor, bias := Lookup(env, PolygonOffset1).AsFloat(), Lookup(env, PolygonOffset2).AsFloat();
    FillsView(if factor != 0.0 || bias != 0.0 then On((factor, bias)) else Off, Lookup(env, FillMode))
  }

  /** The view that the variables describe when alpha is not blended separately. */
  function Described(env: StateMap): View {
    View(if IsOn(env, AlphaBlendEnable) then On(PlainBlending(env)) else Off,
         DescribedFaces(env), DescribedDepths(env), DescribedFills(env))
  }

  /** GL agrees with the variables, also in the blending it keeps while blending is off. */
  predicate Synced(s: Settings, env: StateMap) { Observe(s) == Described(env) && s.blending == PlainBlending(env) }

  // --------------------------------------------------------------- the incremental setter

  const SEPARATE_NAMES: set<Name> := {SeparateAlphaBlendEnable, SourceBlendFunction, SourceBlendAlphaFunction,
                                      DestinationBlendAlphaFunction, BlendEquation, BlendAlphaEquation}

  /** The destination's function is not among the values looked up, so it always converts to ONE. */
  function SeparateBlending(env: StateMap): Blending {
    Blending(ConvertBlendFunc(CodeOf(env, SourceBlendFunction)), ONE,
             ConvertBlendFunc(CodeOf(env, SourceBlendAlphaFunction)),
             ConvertBlendFunc(CodeOf(env, DestinationBlendAlphaFunction)),
             ConvertEquation(CodeOf(env, BlendEquation)), ConvertEquation(CodeOf(env, BlendAlphaEquation)))
  }

  function SetBlending(b: Blending, keys: set<Name>, env: StateMap): Blending {
    var plain := PlainBlending(env);
    var t := if SEPARATE_NAMES !! keys || !IsOn(env, SeparateAlphaBlendEnable) then b else SeparateBlending(env);
    var u :=
      if SourceBlendFunction in keys || DestinationBlendFunction in keys then
        t.(src := plain.src, dst := plain.dst, srcAlpha := plain.src, dstAlpha := plain.dst)
      else t;
    if BlendEquation in keys then u.(equation := plain.equation, alphaEquation := plain.equation) else u
  }

  function SetFaces(f: Faces, keys: set<Name>, env: StateMap): Faces {
    var cull := CodeOf(env, CullMode);
    var t :=
      if CullMode !in keys then f
      else if cull == CULL_CW then f.(cullFace := true, cullSide := BACK)
      else if cull == CULL_CCW then f.(cullFace := true, cullSide := FRONT)
      else f.(cullFace := false);
    if DitherEnable in keys then t.(dither := IsOn(env, DitherEnable)) else t
  }

  function SetDepthTest(d: Depths, keys: set<Name>, env: StateMap): Depths {
    var t :=
      if ZEnable !in keys && ZComparisonFunction !in keys then d
      else if IsOn(env, ZEnable) then
        d.(depthTest := true, depthFunc := ConvertComparison(CodeOf(env, ZComparisonFunction)))
      else d.(depthTest := false);
    if ZWriteEnable in keys then t.(depthMask := IsOn(env, ZWriteEnable)) else t
  }

  function SetStencil(d: Depths, keys: set<Name>, env: StateMap): Depths {
    if StencilEnable !in keys && StencilComparisonFunction !in keys then d
    else if IsOn(env, StencilEnable) then
      d.(stencilTest := true, stencilFunc := ConvertComparison(CodeOf(env, StencilComparisonFunction)))
    else d.(stencilTest := false)
  }

  function SetDepths(d: Depths, keys: set<Name>, env: StateMap): Depths {
    SetStencil(SetDepthTest(d, keys, env), keys, env)
  }

  function SetFills(f: Fills, keys: set<Name>, env: StateMap): Fills {
    var factor, bias := Lookup(env, PolygonOffset1).AsFloat(), Lookup(env, PolygonOffset2).AsFloat();
    var t :=
      if PolygonOffset1 !in keys && PolygonOffset2 !in keys then f
      else if factor != 0.0 || bias != 0.0 then f.(polygonOffset := true, factor := factor, bias := bias)
      else f.(polygonOffset := false);
    if FillMode in keys then t.(fillMode := Lookup(env, FillMode)) else t
  }

  /** The settings after the variables `keys` were set to what they are in `env`. */
  function Updated(s: Settings, keys: set<Name>, env: StateMap): Settings {
    Settings(if AlphaBlendEnable in keys then IsOn(env, AlphaBlendEnable) else s.blend,
             SetBlending(s.blending, keys, env),
             SetFaces(s.faces, keys, env), SetDepths(s.depths, keys, env), SetFills(s.fills, keys, env))
  }

  const GL_NAMES: set<Name> := {AlphaBlendEnable, SeparateAlphaBlendEnable,
                                SourceBlendFunction, SourceBlendAlphaFunction,
                                DestinationBlendFunction, DestinationBlendAlphaFunction,
                                BlendEquation, BlendAlphaEquation,
                                CullMode, DitherEnable, ZEnable, ZComparisonFunction, ZWriteEnable, StencilEnable,
                                StencilComparisonFunction, PolygonOffset1, PolygonOffset2, FillMode}

  /** Both environments give the variables outside `keys` the same value. */
  ghost predicate Agree(before: StateMap, env: StateMap, keys: set<Name>) {
    forall name :: name !in keys ==> Lookup(before, name) == Lookup(env, name)
  }

  lemma FacesFollow(f: Faces, before: StateMap, keys: set<Name>, env: StateMap)
    requires (ObserveFaces(f) == DescribedFaces(before) && Agree(before, env, keys)) || GL_NAMES <= keys
    ensures ObserveFaces(SetFaces(f, keys, env)) == DescribedFaces(env)
  {
    hide Lookup, Value.Truthy, Value.AsCode;
  }

  lemma DepthsFollow(d: Depths, before: StateMap, keys: set<Name>, env: StateMap)
    requires (ObserveDepths(d) == DescribedDepths(before) && Agree(before, env, keys)) || GL_NAMES <= keys
    ensures ObserveDepths(SetDepths(d, keys, env)) == DescribedDepths(env)
  {
    hide Lookup, ConvertComparison, Value.Truthy, Value.AsCode;
  }

  lemma FillsFollow(f: Fills, before: StateMap, keys: set<Name>, env: StateMap)
    requires (ObserveFills(f) == DescribedFills(before) && Agree(before, env, keys)) || GL_NAMES <= keys
    ensures ObserveFills(SetFills(f, keys, env)) == DescribedFills(env)
  {
    hide Lookup, Value.AsFloat;
  }

  /** Setting every variable from scratch, from any settings, makes GL agree with them;
      even separate alpha blending is then overwritten. */
  lemma FromScratch(s: Settings, keys: set<Name>, env: StateMap)
    requires GL_NAMES <= keys
    ensures Synced(Updated(s, keys, env), env)
  {
    FacesFollow(s.faces, env, keys, env);
    DepthsFollow(s.depths, env, keys, env);
    FillsFollow(s.fills, env, keys, env);
    hide Lookup, ConvertBlendFunc, ConvertEquation, ObserveFaces, ObserveDepths;
    hide ObserveFills, SetFaces, SetDepths, SetFills;
    hide DescribedFaces, DescribedDepths, DescribedFills, Value.Truthy, Value.AsCode;
  }

  /** The part of an update that can go wrong: separate blending was set and not overwritten. */
  predicate SeparateShows(keys: set<Name>, env: StateMap) {
    && IsOn(env, SeparateAlphaBlendEnable) && !(SEPARATE_NAMES !! keys)
    && var separate, plain := SeparateBlending(env), PlainBlending(env);
       || (SourceBlendFunction !in keys && DestinationBlendFunction !in keys
           && (separate.dst != plain.dst || separate.srcAlpha != plain.srcAlpha || separate.dstAlpha != plain.dstAlpha))
       || (BlendEquation !in keys && separate.alphaEquation != plain.alphaEquation)
  }

  lemma BlendingFollows(b: Blending, before: StateMap, keys: set<Name>, env: StateMap)
    requires b == PlainBlending(before) && Agree(before, env, keys)
    ensures SetBlending(b, keys, env) == PlainBlending(env) <==> !SeparateShows(keys, env)
  {
    hide Lookup, ConvertBlendFunc, ConvertEquation, Value.Truthy, Value.AsCode;
  }

  /** The incremental setter agrees with setting everything exactly when separate alpha
      blending does not show. */
  lemma UpdatedSynced(s: Settings, before: StateMap, keys: set<Name>, env: StateMap)
    requires Synced(s, before) && Agree(before, env, keys)
    ensures Synced(Updated(s, keys, env), env) <==> !SeparateShows(keys, env)
    ensures Observe(Updated(s, keys, env)) == Described(env)
         <==> !SeparateShows(keys, env) || !IsOn(env, AlphaBlendEnable)
  {
    FacesFollow(s.faces, before, keys, env);
    DepthsFollow(s.depths, before, keys, env);
    FillsFollow(s.fills, before, keys, env);
    BlendingFollows(s.blending, before, keys, env);
    assert AlphaBlendEnable !in keys ==> Lookup(before, AlphaBlendEnable) == Lookup(env, AlphaBlendEnable);
    hide Lookup, PlainBlending, ObserveFaces, ObserveDepths, ObserveFills, SetFaces, SetDepths, SetFills, SetBlending;
    hide DescribedFaces, DescribedDepths, DescribedFills, SeparateShows, Value.Truthy;
  }
}
