/** What the settings that reach GL do to a drawing, in terms of the library's constants. */
module GlMeanings {
  import opened RenderStates
  import opened Clients

  // ------------------------------------------------------------------------- blending

  /** One channel of a source and a destination colour, with their alphas. */
  datatype Pixel = Pixel(src: real, srcAlpha: real, dst: real, dstAlpha: real)

  function Least(x: real, y: real): real { if x <= y then x else y }
  function Most(x: real, y: real): real { if x <= y then y else x }

  /** The number by which GL multiplies, for a colour channel. */
  function FactorValue(f: BlendFactor, p: Pixel): real {
    match f
    case ZERO => 0.0
    case ONE => 1.0
    case SRC_COLOR => p.src
    case ONE_MINUS_SRC_COLOR => 1.0 - p.src
    case SRC_ALPHA => p.srcAlpha
    case ONE_MINUS_SRC_ALPHA => 1.0 - p.srcAlpha
    case DST_ALPHA => p.dstAlpha
    case ONE_MINUS_DST_ALPHA => 1.0 - p.dstAlpha
    case DST_COLOR => p.dst
    case ONE_MINUS_DST_COLOR => 1.0 - p.dst
    case SRC_ALPHA_SATURATE => Least(p.srcAlpha, 1.0 - p.dstAlpha)
  }

  /** How GL puts the two products together; minimum and maximum are of the bare colours. */
  function Combined(e: Equation, p: Pixel, src: BlendFactor, dst: BlendFactor): real {
    match e
    case FUNC_ADD => p.src * FactorValue(src, p) + p.dst * FactorValue(dst, p)
    case FUNC_SUBTRACT => p.src * FactorValue(src, p) - p.dst * FactorValue(dst, p)
    case FUNC_REVERSE_SUBTRACT => p.dst * FactorValue(dst, p) - p.src * FactorValue(src, p)
    case MIN => Least(p.src, p.dst)
    case MAX => Most(p.src, p.dst)
  }

  const BLENDFUNC_SOURCE_COLOR := 2
  const BLENDFUNC_INVERSE_SOURCE_COLOR := 3
  const BLENDFUNC_SOURCE_ALPHA := 4
  const BLENDFUNC_INVERSE_SOURCE_ALPHA := 5
  const BLENDFUNC_DESTINATION_ALPHA := 6
  const BLENDFUNC_INVERSE_DESTINATION_ALPHA := 7
  const BLENDFUNC_DESTINATION_COLOR := 8
  const BLENDFUNC_INVERSE_DESTINATION_COLOR := 9
  const BLENDFUNC_SOURCE_ALPHA_SATURATE := 10

  /** What the library's blend functions are called after. */
  lemma BlendFuncMeans(p: Pixel)
    ensures FactorValue(ConvertBlendFunc(BLENDFUNC_ZERO), p) == 0.0
    ensures FactorValue(ConvertBlendFunc(BLENDFUNC_ONE), p) == 1.0
    ensures FactorValue(ConvertBlendFunc(BLENDFUNC_SOURCE_COLOR), p) == p.src
    ensures FactorValue(ConvertBlendFunc(BLENDFUNC_INVERSE_SOURCE_COLOR), p) == 1.0 - p.src
    ensures FactorValue(ConvertBlendFunc(BLENDFUNC_SOURCE_ALPHA), p) == p.srcAlpha
    ensures FactorValue(ConvertBlendFunc(BLENDFUNC_INVERSE_SOURCE_ALPHA), p) == 1.0 - p.srcAlpha
    ensures FactorValue(ConvertBlendFunc(BLENDFUNC_DESTINATION_ALPHA), p) == p.dstAlpha
    ensures FactorValue(ConvertBlendFunc(BLENDFUNC_INVERSE_DESTINATION_ALPHA), p) == 1.0 - p.dstAlpha
    ensures FactorValue(ConvertBlendFunc(BLENDFUNC_DESTINATION_COLOR), p) == p.dst
    ensures FactorValue(ConvertBlendFunc(BLENDFUNC_INVERSE_DESTINATION_COLOR), p) == 1.0 - p.dst
    ensures FactorValue(ConvertBlendFunc(BLENDFUNC_SOURCE_ALPHA_SATURATE), p) == Least(p.srcAlpha, 1.0 - p.dstAlpha)
    ensures forall n :: n < 0 || n > 10 ==> FactorValue(ConvertBlendFunc(n), p) == 1.0
  {
  }

  /** And its equations; an unknown one adds. */
  lemma BlendEquationMeans(n: int, p: Pixel, src: BlendFactor, dst: BlendFactor)
    ensures var s, d := p.src * FactorValue(src, p), p.dst * FactorValue(dst, p);
      Combined(ConvertEquation(n), p, src, dst)
      == if n == 1 then s - d
         else if n == 2 then d - s
         else if n == 3 then Least(p.src, p.dst)
         else if n == 4 then Most(p.src, p.dst)
         else s + d
  {
    hide FactorValue;
  }

  // ----------------------------------------------------------------- tests and culling

  /** Whether a fragment with value `x` passes against the stored value `y`. */
  predicate Passes(c: Comparison, x: real, y: real) {
    match c
    case NEVER => false
    case LESS => x < y
    case EQUAL => x == y
    case LEQUAL => x <= y
    case GREATER => x > y
    case NOTEQUAL => x != y
    case GEQUAL => x >= y
    case ALWAYS => true
  }

  const CMP_NEVER := 0
  const CMP_EQUAL := 2
  const CMP_LEQUAL := 3
  const CMP_GREATER := 4
  const CMP_NOTEQUAL := 5
  const CMP_GEQUAL := 6

  /** The relation that each of the library's comparisons tests; an unknown one always passes. */
  lemma ComparisonMeans(x: real, y: real)
    ensures !Passes(ConvertComparison(CMP_NEVER), x, y) && Passes(ConvertComparison(CMP_ALWAYS), x, y)
    ensures Passes(ConvertComparison(CMP_LESS), x, y) <==> x < y
    ensures Passes(ConvertComparison(CMP_EQUAL), x, y) <==> x == y
    ensures Passes(ConvertComparison(CMP_LEQUAL), x, y) <==> x <= y
    ensures Passes(ConvertComparison(CMP_GREATER), x, y) <==> x > y
    ensures Passes(ConvertComparison(CMP_NOTEQUAL), x, y) <==> x != y
    ensures Passes(ConvertComparison(CMP_GEQUAL), x, y) <==> x >= y
    ensures forall n :: n < 0 || n > 7 ==> Passes(ConvertComparison(n), x, y)
  {
  }

  /** GL takes a triangle that runs counter-clockwise in the window for a front. */
  predicate Survives(cull: Feature<Side>, clockwise: bool) {
    match cull
    case Off => true
    case On(BACK) => !clockwise
    case On(FRONT) => clockwise
  }

  predicate TestPasses(test: Feature<Comparison>, x: real, y: real) {
    match test
    case Off => true
    case On(c) => Passes(c, x, y)
  }

  function Blended(blend: Feature<Blending>, p: Pixel): real {
    match blend
    case Off => p.src
    case On(b) => Combined(b.equation, p, b.src, b.dst)
  }

  // ------------------------------------------------------------------ what a drawing gets

  /** The documented factor of a code. */
  function LibraryFactor(n: int, p: Pixel): real {
    if n == BLENDFUNC_ZERO then 0.0
    else if n == BLENDFUNC_SOURCE_COLOR then p.src
    else if n == BLENDFUNC_INVERSE_SOURCE_COLOR then 1.0 - p.src
    else if n == BLENDFUNC_SOURCE_ALPHA then p.srcAlpha
    else if n == BLENDFUNC_INVERSE_SOURCE_ALPHA then 1.0 - p.srcAlpha
    else if n == BLENDFUNC_DESTINATION_ALPHA then p.dstAlpha
    else if n == BLENDFUNC_INVERSE_DESTINATION_ALPHA then 1.0 - p.dstAlpha
    else if n == BLENDFUNC_DESTINATION_COLOR then p.dst
    else if n == BLENDFUNC_INVERSE_DESTINATION_COLOR then 1.0 - p.dst
    else if n == BLENDFUNC_SOURCE_ALPHA_SATURATE then Least(p.srcAlpha, 1.0 - p.dstAlpha)
    else 1.0
  }

  lemma ConvertedFactor(n: int, p: Pixel)
    ensures FactorValue(ConvertBlendFunc(n), p) == LibraryFactor(n, p)
  {
    BlendFuncMeans(p);
  }

  /** The documented relation of a code. */
  predicate LibraryRelation(n: int, x: real, y: real) {
    if n == CMP_NEVER then false
    else if n == CMP_LESS then x < y
    else if n == CMP_EQUAL then x == y
    else if n == CMP_LEQUAL then x <= y
    else if n == CMP_GREATER then x > y
    else if n == CMP_NOTEQUAL then x != y
    else if n == CMP_GEQUAL then x >= y
    else true
  }

  lemma ConvertedRelation(n: int, x: real, y: real)
    ensures Passes(ConvertComparison(n), x, y) <==> LibraryRelation(n, x, y)
  {
    ComparisonMeans(x, y);
  }

  /** Wherever GL shows what the variables describe, pixels blend, fragments are tested and faces
      are culled as the values of the variables say. */
  lemma ShownMeans(settings: Settings, env: StateMap, p: Pixel, x: real, y: real, clockwise: bool)
    requires Observe(settings) == Described(env)
    ensures var source, destination, equation :=
        Lookup(env, SourceBlendFunction).AsCode(), Lookup(env, DestinationBlendFunction).AsCode(),
        Lookup(env, BlendEquation).AsCode();
      var s, d := p.src * LibraryFactor(source, p), p.dst * LibraryFactor(destination, p);
      Blended(Observe(settings).blend, p)
      == if !Lookup(env, AlphaBlendEnable).Truthy() then p.src
         else if equation == 1 then s - d
         else if equation == 2 then d - s
         else if equation == 3 then Least(p.src, p.dst)
         else if equation == 4 then Most(p.src, p.dst)
         else s + d
    ensures TestPasses(Observe(settings).depths.depth, x, y)
       <==> (Lookup(env, ZEnable).Truthy() ==> LibraryRelation(Lookup(env, ZComparisonFunction).AsCode(), x, y))
    ensures TestPasses(Observe(settings).depths.stencil, x, y)
       <==> (Lookup(env, StencilEnable).Truthy() ==>
               LibraryRelation(Lookup(env, StencilComparisonFunction).AsCode(), x, y))
    ensures Observe(settings).depths.mask == Lookup(env, ZWriteEnable).Truthy()
    ensures Survives(Observe(settings).faces.cull, clockwise)
       <==> (Lookup(env, CullMode).AsCode() == 1 ==> !clockwise) && (Lookup(env, CullMode).AsCode() == 2 ==> clockwise)
    ensures Observe(settings).faces.dither == Lookup(env, DitherEnable).Truthy()
    ensures var factor, bias := Lookup(env, PolygonOffset1).AsFloat(), Lookup(env, PolygonOffset2).AsFloat();
      Observe(settings).fills.offset == if factor == 0.0 && bias == 0.0 then Off else On((factor, bias))
    ensures Observe(settings).fills.fillMode == Lookup(env, FillMode)
  {
    hide Observe, Lookup, ConvertBlendFunc, ConvertEquation, ConvertComparison, FactorValue, LibraryFactor;
    hide LibraryRelation, Passes, Combined, Value.Truthy, Value.AsCode, Value.AsFloat;
    BlendedAsDocumented(env, p);
    ConvertedRelation(CodeOf(env, ZComparisonFunction), x, y);
    ConvertedRelation(CodeOf(env, StencilComparisonFunction), x, y);
  }

  lemma BlendedAsDocumented(env: StateMap, p: Pixel)
    ensures var source, destination, equation :=
        Lookup(env, SourceBlendFunction).AsCode(), Lookup(env, DestinationBlendFunction).AsCode(),
        Lookup(env, BlendEquation).AsCode();
      var s, d := p.src * LibraryFactor(source, p), p.dst * LibraryFactor(destination, p);
      var b := PlainBlending(env);
      && b.src == b.srcAlpha && b.dst == b.dstAlpha && b.equation == b.alphaEquation
      && Combined(b.equation, p, b.src, b.dst)
         == if equation == 1 then s - d
            else if equation == 2 then d - s
            else if equation == 3 then Least(p.src, p.dst)
            else if equation == 4 then Most(p.src, p.dst)
            else s + d
  {
    hide Lookup, ConvertBlendFunc, ConvertEquation, FactorValue, LibraryFactor, Combined, Value.AsCode;
    var b := PlainBlending(env);
    ConvertedFactor(CodeOf(env, SourceBlendFunction), p);
    ConvertedFactor(CodeOf(env, DestinationBlendFunction), p);
    BlendEquationMeans(CodeOf(env, BlendEquation), p, b.src, b.dst);
  }

  /** So after any run of pushes and matched pops without separate alpha blending, drawings get
      what the innermost maps say. */
  lemma RunMeans(s: Machine, base: Stacks, ops: seq<Op>, p: Pixel)
    requires Runs(ops, |s.mapStack|) && Layered(s, base) && NeverSeparate(s) && Synced(s.settings, s.Env())
    requires forall i :: 0 <= i < |ops| && ops[i].DoPush? ==> MapSeparateOff(ops[i].m)
    ensures var t := Run(s, ops);
      var value := (name: Name) => Innermost(Tops(base), t.mapStack, name);
      var source, destination := value(SourceBlendFunction).AsCode(), value(DestinationBlendFunction).AsCode();
      value(AlphaBlendEnable).Truthy() && value(BlendEquation).AsCode() == BLEND_ADD ==>
        Blended(Observe(t.settings).blend, p)
        == p.src * LibraryFactor(source, p) + p.dst * LibraryFactor(destination, p)
  {
    hide Observe, Lookup, LibraryFactor, Layered, NeverSeparate, MapSeparateOff, Innermost, Tops, Updated, Blended;
    hide Value.Truthy, Value.AsCode, Run, Runs;
    var t := Run(s, ops);
    RunAgrees(s, base, ops, s.settings);
    ShownMeans(t.settings, t.Env(), p, 0.0, 0.0, false);
    EnvIsInnermost(t, base, SourceBlendFunction);
    EnvIsInnermost(t, base, DestinationBlendFunction);
    EnvIsInnermost(t, base, AlphaBlendEnable);
    EnvIsInnermost(t, base, BlendEquation);
  }

  /** The numbers and truth values of the variables. */
  lemma ValuesMean(on: bool, n: int, x: real)
    ensures Flag(on).Truthy() == on && (Code(n).Truthy() <==> n != 0) && (Float(x).Truthy() <==> x != 0.0)
    ensures Code(n).AsCode() == n && (n >= 0 ==> Flag(on).AsCode() != n && Float(x).AsCode() != n)
    ensures Float(x).AsFloat() == x && Code(n).AsFloat() == n as real
  {
  }

  /** By default nothing is blended, nearer fragments win and are recorded, clockwise faces are culled,
      and there is no stencil test, no dithering and no polygon offset. */
  lemma DefaultsMean(settings: Settings, p: Pixel, x: real, y: real, clockwise: bool)
    requires Observe(settings) == Described(map[])
    ensures var view := Observe(settings);
      && Blended(view.blend, p) == p.src
      && (TestPasses(view.depths.depth, x, y) <==> x < y) && view.depths.mask
      && TestPasses(view.depths.stencil, x, y)
      && (Survives(view.faces.cull, clockwise) <==> !clockwise) && !view.faces.dither
      && view.fills.offset == Off && view.fills.fillMode == Code(2)
  {
    ShownMeans(settings, map[], p, x, y, clockwise);
    hide Observe, FactorValue, LibraryFactor, Combined, Blended, TestPasses, Survives, Passes;
  }
}
