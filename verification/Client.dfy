/** The client's stacks of state maps and state variables. */
module Clients {
  import opened RenderStates

  type Stacks = map<Name, seq<Value>>

  function StackOf(stacks: Stacks, name: Name): seq<Value> { if name in stacks then stacks[name] else [] }

  /** The current values: the tops of the stacks. */
  function Tops(stacks: Stacks): StateMap {
    map name | name in stacks && |stacks[name]| > 0 :: stacks[name][|stacks[name]| - 1]
  }

  function Pushed(stacks: Stacks, m: StateMap): Stacks {
    map name | name in stacks.Keys + m.Keys :: if name in m then StackOf(stacks, name) + [m[name]] else stacks[name]
  }

  function Popped(stacks: Stacks, keys: set<Name>): Stacks {
    map name | name in stacks ::
      if name in keys && |stacks[name]| > 0 then stacks[name][..|stacks[name]| - 1] else stacks[name]
  }

  /** GL together with the client's two kinds of stacks. */
  datatype Machine = Machine(settings: Settings, mapStack: seq<StateMap>, stacks: Stacks) {
    function Env(): StateMap { Tops(stacks) }

    function Push(m: StateMap): Machine {
      var pushed := Pushed(stacks, m);
      Machine(Updated(settings, m.Keys, Tops(pushed)), mapStack + [m], pushed)
    }

    function Pop(): Machine
      requires |mapStack| > 0
    {
      var keys := mapStack[|mapStack| - 1].Keys;
      var popped := Popped(stacks, keys);
      Machine(Updated(settings, keys, Tops(popped)), mapStack[..|mapStack| - 1], popped)
    }

    function Clear(): Machine {
      Machine(settings, [], map name | name in stacks :: if |stacks[name]| > 1 then stacks[name][..1] else stacks[name])
    }
  }

  // ------------------------------------------------------------- the stacks over a run

  /** The values that the maps give to `name`, outermost first. */
  function Project(mapStack: seq<StateMap>, name: Name): seq<Value> {
    if |mapStack| == 0 then []
    else
      var last := mapStack[|mapStack| - 1];
      Project(mapStack[..|mapStack| - 1], name) + if name in last then [last[name]] else []
  }

  /** Every variable's stack is its base and, above it, the projection of the map stack. */
  ghost predicate Layered(s: Machine, base: Stacks) {
    forall name :: StackOf(s.stacks, name) == StackOf(base, name) + Project(s.mapStack, name)
  }

  lemma ProjectNext(mapStack: seq<StateMap>, m: StateMap, name: Name)
    ensures Project(mapStack + [m], name) == Project(mapStack, name) + if name in m then [m[name]] else []
  {
    var maps := mapStack + [m];
    assert maps[..|maps| - 1] == mapStack;
  }

  lemma PushedStack(stacks: Stacks, m: StateMap, name: Name)
    ensures StackOf(Pushed(stacks, m), name) == StackOf(stacks, name) + if name in m then [m[name]] else []
  {
  }

  lemma PushKeepsLayers(s: Machine, base: Stacks, m: StateMap)
    requires Layered(s, base)
    ensures Layered(s.Push(m), base)
  {
    hide Updated, StackOf, Pushed, Tops, Project;
    var t := s.Push(m);
    forall name
      ensures StackOf(t.stacks, name) == StackOf(base, name) + Project(t.mapStack, name)
    {
      PushedStack(s.stacks, m, name);
      ProjectNext(s.mapStack, m, name);
      assert StackOf(s.stacks, name) == StackOf(base, name) + Project(s.mapStack, name);
    }
  }

  lemma PopKeepsLayers(s: Machine, base: Stacks)
    requires Layered(s, base) && |s.mapStack| > 0
    ensures Layered(s.Pop(), base)
  {
    hide Updated;
    var t, last := s.Pop(), s.mapStack[|s.mapStack| - 1];
    forall name
      ensures StackOf(t.stacks, name) == StackOf(base, name) + Project(t.mapStack, name)
    {
      assert StackOf(s.stacks, name) == StackOf(base, name) + Project(s.mapStack, name);
      if name in last {
        assert StackOf(s.stacks, name) == StackOf(base, name) + Project(t.mapStack, name) + [last[name]];
      }
    }
  }

  lemma PushEnv(s: Machine, m: StateMap)
    ensures s.Push(m).Env() == s.Env() + m
  {
    hide Updated;
  }

  /** What a variable is, is decided by the innermost map that defines it. */
  function Innermost(env: StateMap, maps: seq<StateMap>, name: Name): Value {
    if |maps| == 0 then Lookup(env, name)
    else if name in maps[|maps| - 1] then maps[|maps| - 1][name]
    else Innermost(env, maps[..|maps| - 1], name)
  }

  /** The maps laid over each other, the last one on top. */
  function Merge(env: StateMap, maps: seq<StateMap>): StateMap {
    if |maps| == 0 then env else Merge(env, maps[..|maps| - 1]) + maps[|maps| - 1]
  }

  lemma {:induction false} MergeIsInnermost(env: StateMap, maps: seq<StateMap>, name: Name)
    ensures Lookup(Merge(env, maps), name) == Innermost(env, maps, name)
  {
    if |maps| > 0 {
      MergeIsInnermost(env, maps[..|maps| - 1], name);
    }
  }

  lemma {:induction false} MergeSplit(env: StateMap, outer: seq<StateMap>, inner: seq<StateMap>)
    ensures Merge(env, outer + inner) == Merge(Merge(env, outer), inner)
  {
    var maps := outer + inner;
    if |inner| == 0 {
      assert maps == outer;
    } else {
      assert maps[..|maps| - 1] == outer + inner[..|inner| - 1];
      MergeSplit(env, outer, inner[..|inner| - 1]);
    }
  }

  lemma {:induction false} EnvIsInnermost(s: Machine, base: Stacks, name: Name)
    requires Layered(s, base)
    ensures Lookup(s.Env(), name) == Innermost(Tops(base), s.mapStack, name)
  {
    assert StackOf(s.stacks, name) == StackOf(base, name) + Project(s.mapStack, name);
    assert name in s.Env() <==> |StackOf(s.stacks, name)| > 0;
    assert name in Tops(base) <==> |StackOf(base, name)| > 0;
    InnermostIsTop(base, s.mapStack, name);
  }

  lemma {:induction false} InnermostIsTop(base: Stacks, maps: seq<StateMap>, name: Name)
    ensures var stack := StackOf(base, name) + Project(maps, name);
      Innermost(Tops(base), maps, name) == if |stack| > 0 then stack[|stack| - 1] else Default(name)
  {
    if |maps| > 0 {
      InnermostIsTop(base, maps[..|maps| - 1], name);
    }
  }

  /** A pop undoes a push. */
  lemma PopUndoesPush(s: Machine, m: StateMap)
    requires m.Keys <= s.stacks.Keys
    ensures s.Push(m).Pop().stacks == s.stacks && s.Push(m).Pop().mapStack == s.mapStack
  {
    hide Updated;
  }

  // ------------------------------------------------------------------- GL over a run

  predicate SeparateOff(env: StateMap) { !IsOn(env, SeparateAlphaBlendEnable) }

  /** No map on the stack, and no base value, turns separate alpha blending on. */
  ghost predicate NeverSeparate(s: Machine) {
    forall v :: v in StackOf(s.stacks, SeparateAlphaBlendEnable) ==> !v.Truthy()
  }

  predicate MapSeparateOff(m: StateMap) { SeparateAlphaBlendEnable in m ==> !m[SeparateAlphaBlendEnable].Truthy() }

  lemma NeverSeparateIsOff(s: Machine)
    requires NeverSeparate(s)
    ensures SeparateOff(s.Env())
  {
    var stack := StackOf(s.stacks, SeparateAlphaBlendEnable);
    if |stack| > 0 {
      assert stack[|stack| - 1] in stack;
    }
  }

  datatype Op = DoPush(m: StateMap) | DoPop

  /** The operations never pop more than they pushed on top of `depth` maps. */
  predicate Runs(ops: seq<Op>, depth: nat) {
    if |ops| == 0 then true
    else if ops[0].DoPush? then Runs(ops[1..], depth + 1)
    else depth > 0 && Runs(ops[1..], depth - 1)
  }

  function Run(s: Machine, ops: seq<Op>): Machine
    requires Runs(ops, |s.mapStack|)
    decreases |ops|
  {
    if |ops| == 0 then s
    else if ops[0].DoPush? then Run(s.Push(ops[0].m), ops[1..])
    else Run(s.Pop(), ops[1..])
  }

  /** Over any run without separate alpha blending, the stacks stay layered and GL shows
      what setting every variable from scratch would show. */
  lemma {:induction false} RunAgrees(s: Machine, base: Stacks, ops: seq<Op>, blank: Settings)
    requires Runs(ops, |s.mapStack|) && Layered(s, base) && NeverSeparate(s) && Synced(s.settings, s.Env())
    requires forall i :: 0 <= i < |ops| && ops[i].DoPush? ==> MapSeparateOff(ops[i].m)
    ensures var t := Run(s, ops);
      && Layered(t, base) && NeverSeparate(t) && Synced(t.settings, t.Env())
      && Observe(t.settings) == Observe(Updated(blank, GL_NAMES, t.Env()))
    decreases |ops|
  {
    hide Updated, Synced, Layered, NeverSeparate, Observe, MapSeparateOff;
    if |ops| == 0 {
      FromScratch(blank, GL_NAMES, s.Env());
      SyncedAlike(s.settings, Updated(blank, GL_NAMES, s.Env()), s.Env());
    } else if ops[0].DoPush? {
      PushKeepsLayers(s, base, ops[0].m);
      PushSynced(s, ops[0].m);
      RunAgrees(s.Push(ops[0].m), base, ops[1..], blank);
    } else {
      PopKeepsLayers(s, base);
      PopSynced(s);
      RunAgrees(s.Pop(), base, ops[1..], blank);
    }
  }

  lemma SyncedAlike(s: Settings, t: Settings, env: StateMap)
    requires Synced(s, env) && Synced(t, env)
    ensures Observe(s) == Observe(t)
  {
  }

  lemma PushSynced(s: Machine, m: StateMap)
    requires Synced(s.settings, s.Env()) && NeverSeparate(s) && MapSeparateOff(m)
    ensures Synced(s.Push(m).settings, s.Push(m).Env()) && NeverSeparate(s.Push(m))
  {
    PushEnv(s, m);
    NeverSeparateIsOff(s.Push(m));
    hide Synced, Updated, PlainBlending, SeparateBlending;
    UpdatedSynced(s.settings, s.Env(), m.Keys, s.Push(m).Env());
  }

  lemma PopEnv(s: Machine)
    requires |s.mapStack| > 0
    ensures Agree(s.Env(), s.Pop().Env(), s.mapStack[|s.mapStack| - 1].Keys)
  {
    hide Updated;
    var keys := s.mapStack[|s.mapStack| - 1].Keys;
    forall name | name !in keys
      ensures Lookup(s.Env(), name) == Lookup(s.Pop().Env(), name)
    {
      assert name in s.stacks <==> name in s.Pop().stacks;
    }
  }

  lemma PopNeverSeparate(s: Machine)
    requires |s.mapStack| > 0 && NeverSeparate(s)
    ensures NeverSeparate(s.Pop())
  {
    hide Updated;
    var stack := StackOf(s.stacks, SeparateAlphaBlendEnable);
    assert StackOf(s.Pop().stacks, SeparateAlphaBlendEnable) <= stack;
  }

  lemma PopSynced(s: Machine)
    requires |s.mapStack| > 0 && Synced(s.settings, s.Env()) && NeverSeparate(s)
    ensures Synced(s.Pop().settings, s.Pop().Env()) && NeverSeparate(s.Pop())
  {
    PopEnv(s);
    PopNeverSeparate(s);
    NeverSeparateIsOff(s.Pop());
    hide Synced, Updated, PlainBlending, SeparateBlending, Agree, NeverSeparate, Tops, Popped;
    UpdatedSynced(s.settings, s.Env(), s.mapStack[|s.mapStack| - 1].Keys, s.Pop().Env());
  }

  lemma BlendingSticks(b: Blending, keys: set<Name>, env: StateMap, inner: StateMap)
    requires b == PlainBlending(env) && SeparateOff(env) && Agree(env, inner, keys)
    ensures SetBlending(SetBlending(b, keys, inner), keys, env) == b <==> !SeparateShows(keys, inner)
  {
    hide Lookup, ConvertBlendFunc, ConvertEquation, Value.Truthy, Value.AsCode;
  }

  /** A pop restores what GL shows exactly when the push did not make separate alpha
      blending show; otherwise the pop leaves it behind. */
  lemma PopRestoresView(s: Machine, m: StateMap)
    requires Synced(s.settings, s.Env()) && SeparateOff(s.Env()) && m.Keys <= s.stacks.Keys
    ensures Observe(s.Push(m).Pop().settings) == Observe(s.settings)
       <==> !SeparateShows(m.Keys, s.Env() + m) || !IsOn(s.Env(), AlphaBlendEnable)
  {
    var env, inner := s.Env(), s.Env() + m;
    var once := Updated(s.settings, m.Keys, inner);
    PushEnv(s, m);
    PopUndoesPush(s, m);
    assert s.Push(m).settings == once && s.Push(m).Pop().settings == Updated(once, m.Keys, env);
    AgreeOutside(env, m);
    UpdatedTwice(s.settings, m.Keys, env, inner);
  }

  lemma AgreeOutside(env: StateMap, m: StateMap)
    ensures Agree(env, env + m, m.Keys) && Agree(env + m, env, m.Keys)
  {
  }

  lemma UpdatedTwice(s: Settings, keys: set<Name>, env: StateMap, inner: StateMap)
    requires Synced(s, env) && SeparateOff(env) && Agree(env, inner, keys) && Agree(inner, env, keys)
    ensures Observe(Updated(Updated(s, keys, inner), keys, env)) == Observe(s)
       <==> !SeparateShows(keys, inner) || !IsOn(env, AlphaBlendEnable)
  {
    FacesFollow(s.faces, env, keys, inner);
    FacesFollow(SetFaces(s.faces, keys, inner), inner, keys, env);
    DepthsFollow(s.depths, env, keys, inner);
    DepthsFollow(SetDepths(s.depths, keys, inner), inner, keys, env);
    FillsFollow(s.fills, env, keys, inner);
    FillsFollow(SetFills(s.fills, keys, inner), inner, keys, env);
    BlendingSticks(s.blending, keys, env, inner);
    assert AlphaBlendEnable !in keys ==> Lookup(env, AlphaBlendEnable) == Lookup(inner, AlphaBlendEnable);
    hide Lookup, PlainBlending, ObserveFaces, ObserveDepths, ObserveFills, SetFaces, SetDepths, SetFills, SetBlending;
    hide DescribedFaces, DescribedDepths, DescribedFills, SeparateShows, Value.Truthy, Agree;
  }

  // ------------------------------------------------- with separate alpha blending around

  /** GL agrees with the variables, but perhaps for how it blends. */
  predicate RestSynced(s: Settings, env: StateMap) {
    && s.blend == IsOn(env, AlphaBlendEnable)
    && ObserveFaces(s.faces) == DescribedFaces(env)
    && ObserveDepths(s.depths) == DescribedDepths(env)
    && ObserveFills(s.fills) == DescribedFills(env)
  }

  lemma RestFollows(s: Settings, before: StateMap, keys: set<Name>, env: StateMap)
    requires RestSynced(s, before) && Agree(before, env, keys)
    ensures RestSynced(Updated(s, keys, env), env)
  {
    FacesFollow(s.faces, before, keys, env);
    DepthsFollow(s.depths, before, keys, env);
    FillsFollow(s.fills, before, keys, env);
    assert AlphaBlendEnable !in keys ==> Lookup(before, AlphaBlendEnable) == Lookup(env, AlphaBlendEnable);
    hide Lookup, ObserveFaces, ObserveDepths, ObserveFills, SetFaces, SetDepths, SetFills, SetBlending;
    hide DescribedFaces, DescribedDepths, DescribedFills, Value.Truthy;
  }

  lemma PushRest(s: Machine, m: StateMap)
    requires RestSynced(s.settings, s.Env())
    ensures RestSynced(s.Push(m).settings, s.Push(m).Env())
  {
    hide RestSynced, Updated, Agree, Tops, Pushed;
    PushParts(s, m);
    PushEnv(s, m);
    AgreeOutside(s.Env(), m);
    RestFollows(s.settings, s.Env(), m.Keys, s.Push(m).Env());
  }

  lemma PopRest(s: Machine)
    requires |s.mapStack| > 0 && RestSynced(s.settings, s.Env())
    ensures RestSynced(s.Pop().settings, s.Pop().Env())
  {
    hide RestSynced, Updated, Agree, Tops, Popped;
    PopEnv(s);
    RestFollows(s.settings, s.Env(), s.mapStack[|s.mapStack| - 1].Keys, s.Pop().Env());
  }

  /** Over any run at all, separate alpha blending included, nothing but the blending can fall
      out of step. */
  lemma {:induction false} RunKeepsRest(s: Machine, ops: seq<Op>)
    requires Runs(ops, |s.mapStack|) && RestSynced(s.settings, s.Env())
    ensures RestSynced(Run(s, ops).settings, Run(s, ops).Env())
    decreases |ops|
  {
    hide RestSynced, Updated;
    if |ops| > 0 {
      if ops[0].DoPush? {
        PushRest(s, ops[0].m);
        RunKeepsRest(s.Push(ops[0].m), ops[1..]);
      } else {
        PopRest(s);
        RunKeepsRest(s.Pop(), ops[1..]);
      }
    }
  }

  predicate SameFactors(b: Blending, c: Blending) {
    b.src == c.src && b.dst == c.dst && b.srcAlpha == c.srcAlpha && b.dstAlpha == c.dstAlpha
  }

  predicate SameEquations(b: Blending, c: Blending) { b.equation == c.equation && b.alphaEquation == c.alphaEquation }

  /** The environment whose separate blending was set last, pushing `inner` and popping to `env`. */
  predicate SetSeparately(keys: set<Name>, env: StateMap, inner: StateMap) {
    !(SEPARATE_NAMES !! keys) && (IsOn(env, SeparateAlphaBlendEnable) || IsOn(inner, SeparateAlphaBlendEnable))
  }

  function LastSeparate(env: StateMap, inner: StateMap): StateMap {
    if IsOn(env, SeparateAlphaBlendEnable) then env else inner
  }

  /** GL blended, before the push, as the pop leaves it: plainly in what the map sets plainly, and
      else as separate blending was set last. */
  predicate BlendsAlready(b: Blending, keys: set<Name>, env: StateMap, inner: StateMap) {
    && (if SourceBlendFunction in keys || DestinationBlendFunction in keys then SameFactors(b, PlainBlending(env))
        else SetSeparately(keys, env, inner) ==> SameFactors(b, SeparateBlending(LastSeparate(env, inner))))
    && (if BlendEquation in keys then SameEquations(b, PlainBlending(env))
        else SetSeparately(keys, env, inner) ==> SameEquations(b, SeparateBlending(LastSeparate(env, inner))))
  }

  lemma BlendingBack(b: Blending, keys: set<Name>, env: StateMap, inner: StateMap)
    ensures SetBlending(SetBlending(b, keys, inner), keys, env) == b <==> BlendsAlready(b, keys, env, inner)
  {
    hide Lookup, ConvertBlendFunc, ConvertEquation, Value.Truthy, Value.AsCode, SeparateBlending;
    var t := SetBlending(SetBlending(b, keys, inner), keys, env);
    var plain := PlainBlending(env);
    assert plain.src == plain.srcAlpha && plain.dst == plain.dstAlpha && plain.equation == plain.alphaEquation;
    assert t == b <==> SameFactors(t, b) && SameEquations(t, b);
  }

  /** Whatever blends around it, a push and a pop restore what GL shows exactly if GL already
      blended as the pop sets it (or does not blend). */
  lemma PopRestoresAnyView(s: Machine, m: StateMap)
    requires RestSynced(s.settings, s.Env()) && m.Keys <= s.stacks.Keys
    ensures Observe(s.Push(m).Pop().settings) == Observe(s.settings)
       <==> !IsOn(s.Env(), AlphaBlendEnable) || BlendsAlready(s.settings.blending, m.Keys, s.Env(), s.Env() + m)
  {
    hide Updated, RestSynced, BlendsAlready, Observe, Tops, Pushed, Popped;
    var env, inner := s.Env(), s.Env() + m;
    var once := Updated(s.settings, m.Keys, inner);
    PushParts(s, m);
    PushEnv(s, m);
    PopUndoesPush(s, m);
    assert s.Push(m).settings == once && s.Push(m).Pop().settings == Updated(once, m.Keys, env);
    AgreeOutside(env, m);
    RestFollows(s.settings, env, m.Keys, inner);
    RestFollows(once, inner, m.Keys, env);
    BlendingBack(s.settings.blending, m.Keys, env, inner);
    TwiceBlended(s.settings, m.Keys, env, inner);
    RestShown(s.settings, Updated(once, m.Keys, env), env);
  }

  lemma TwiceBlended(s: Settings, keys: set<Name>, env: StateMap, inner: StateMap)
    ensures Updated(Updated(s, keys, inner), keys, env).blending
         == SetBlending(SetBlending(s.blending, keys, inner), keys, env)
  {
  }

  lemma RestShown(s: Settings, t: Settings, env: StateMap)
    requires RestSynced(s, env) && RestSynced(t, env)
    ensures Observe(t) == Observe(s) <==> !IsOn(env, AlphaBlendEnable) || t.blending == s.blending
  {
    hide ObserveFaces, ObserveDepths, ObserveFills, DescribedFaces, DescribedDepths, DescribedFills;
  }

  // ------------------------------------------------------------------- a concrete client

  /** Everything at its default, but for alpha blending, which is on. */
  ghost predicate Blended(env: StateMap) {
    forall name :: name in GL_NAMES ==>
      Lookup(env, name) == if name == AlphaBlendEnable then Flag(true) else Default(name)
  }

  const SEPARATE_ON: StateMap := map[SeparateAlphaBlendEnable := Flag(true)]

  lemma KnownNames()
    ensures AlphaBlendEnable in GL_NAMES && SeparateAlphaBlendEnable in GL_NAMES && DestinationBlendFunction in GL_NAMES
    ensures SeparateAlphaBlendEnable in SEPARATE_NAMES
  {
  }

  lemma KnownDefaults()
    ensures Default(SeparateAlphaBlendEnable) == Flag(false)
    ensures Default(DestinationBlendFunction) == Code(BLENDFUNC_ZERO)
  {
  }

  lemma SeparateOver(env: StateMap)
    ensures Lookup(env + SEPARATE_ON, SeparateAlphaBlendEnable) == Flag(true)
    ensures Lookup(env + SEPARATE_ON, DestinationBlendFunction) == Lookup(env, DestinationBlendFunction)
    ensures SEPARATE_ON.Keys == {SeparateAlphaBlendEnable}
  {
    hide Default;
  }

  lemma FactorsDiffer(env: StateMap)
    requires Lookup(env, DestinationBlendFunction) == Code(BLENDFUNC_ZERO)
    ensures SeparateBlending(env).dst == ONE && PlainBlending(env).dst == ZERO
  {
    hide Lookup, ConvertEquation;
  }

  lemma SeparateOverBlended(env: StateMap)
    requires Blended(env)
    ensures IsOn(env, AlphaBlendEnable) && SeparateOff(env) && SeparateShows(SEPARATE_ON.Keys, env + SEPARATE_ON)
  {
    hide GL_NAMES, SEPARATE_NAMES, SEPARATE_ON, Lookup, Default, SeparateBlending, PlainBlending;
    KnownNames();
    KnownDefaults();
    SeparateOver(env);
    FactorsDiffer(env + SEPARATE_ON);
  }

  const BLEND_ON: StateMap := map[AlphaBlendEnable := Flag(true)]

  function Unused(gl: Settings): Machine { Machine(gl, [], map[]) }

  /** A client just made, on which alpha blending was then turned on. */
  function BlendedClient(gl: Settings, defaults: StateMap): Machine { Unused(gl).Push(defaults).Push(BLEND_ON) }

  lemma BlendedOverDefaults(defaults: StateMap)
    requires GL_NAMES <= defaults.Keys && forall name :: name in GL_NAMES ==> defaults[name] == Default(name)
    ensures Blended(defaults + BLEND_ON) && MapSeparateOff(BLEND_ON) && BLEND_ON.Keys <= defaults.Keys
  {
    hide GL_NAMES, Default;
    KnownNames();
  }

  lemma UnusedEnv(gl: Settings, defaults: StateMap)
    ensures Unused(gl).stacks == map[] && Unused(gl).mapStack == [] && Unused(gl).Env() + defaults == defaults
  {
  }

  lemma PushedKeys(s: Machine, m: StateMap)
    ensures s.Push(m).stacks.Keys == s.stacks.Keys + m.Keys
  {
    hide Updated;
  }

  lemma BlendedEnv(gl: Settings, defaults: StateMap)
    requires GL_NAMES <= defaults.Keys && forall name :: name in GL_NAMES ==> defaults[name] == Default(name)
    ensures var s := BlendedClient(gl, defaults);
      Synced(s.settings, s.Env()) && Blended(s.Env()) && s.stacks.Keys == defaults.Keys
  {
    hide Unused, Machine.Push, Machine.Env, Synced, NeverSeparate, Blended, Default, MapSeparateOff, AtRest;
    var made := Unused(gl).Push(defaults);
    UnusedEnv(gl, defaults);
    DefaultsSynced(Unused(gl), defaults);
    BlendedOverDefaults(defaults);
    PushSynced(made, BLEND_ON);
    PushEnv(Unused(gl), defaults);
    PushEnv(made, BLEND_ON);
    PushedKeys(made, BLEND_ON);
  }

  /** So on that client a map that only turns separate alpha blending on is not undone. */
  lemma SeparateSticks(gl: Settings, defaults: StateMap)
    requires GL_NAMES <= defaults.Keys && forall name :: name in GL_NAMES ==> defaults[name] == Default(name)
    ensures var s := BlendedClient(gl, defaults); Observe(s.Push(SEPARATE_ON).Pop().settings) != Observe(s.settings)
  {
    hide *;
    BlendedEnv(gl, defaults);
    SeparateOverBlended(BlendedClient(gl, defaults).Env());
    SeparateIsKnown(defaults);
    PopRestoresView(BlendedClient(gl, defaults), SEPARATE_ON);
  }

  lemma SeparateIsKnown(defaults: StateMap)
    requires GL_NAMES <= defaults.Keys
    ensures SEPARATE_ON.Keys <= defaults.Keys
  {
    assert SeparateAlphaBlendEnable in GL_NAMES;
  }

  // ------------------------------------------------------------------------- the class

  /** What looking the relevant values up promises: nothing is found, or all names are filled in. */
  ghost predicate Relevant(names: seq<Name>, keys: set<Name>, target: StateMap, env: StateMap, found: bool,
                           v: StateMap)
  {
    && (found <==> exists i :: 0 <= i < |names| && names[i] in keys)
    && (forall name :: name in v && name !in names ==> name in target)
    && (found ==> forall i :: 0 <= i < |names| ==> names[i] in v && v[names[i]] == Lookup(env, names[i]))
  }

  predicate Has(v: StateMap, name: Name, env: StateMap) { name in v && v[name] == Lookup(env, name) }

  lemma RelevantOne(a: Name, keys: set<Name>, target: StateMap, env: StateMap, found: bool, v: StateMap)
    requires Relevant([a], keys, target, env, found, v)
    ensures found <==> a in keys
    ensures found ==> Has(v, a, env)
    ensures forall name :: name in v && name != a ==> name in target
  {
    assert [a][0] == a;
  }

  lemma RelevantTwo(a: Name, b: Name, keys: set<Name>, target: StateMap, env: StateMap, found: bool, v: StateMap)
    requires Relevant([a, b], keys, target, env, found, v)
    ensures found <==> a in keys || b in keys
    ensures found ==> Has(v, a, env) && Has(v, b, env)
  {
    assert [a, b][0] == a && [a, b][1] == b;
  }

  const SEPARATE_LIST: seq<Name> := [SeparateAlphaBlendEnable, SourceBlendFunction, SourceBlendAlphaFunction,
                                     DestinationBlendAlphaFunction, BlendEquation, BlendAlphaEquation]

  lemma RelevantSeparate(keys: set<Name>, target: StateMap, env: StateMap, found: bool, v: StateMap)
    requires Relevant(SEPARATE_LIST, keys, target, env, found, v)
    ensures found <==> !(SEPARATE_NAMES !! keys)
    ensures found ==> Has(v, SeparateAlphaBlendEnable, env) && Has(v, SourceBlendFunction, env)
    ensures found ==> Has(v, SourceBlendAlphaFunction, env) && Has(v, DestinationBlendAlphaFunction, env)
    ensures found ==> Has(v, BlendEquation, env) && Has(v, BlendAlphaEquation, env)
    ensures DestinationBlendFunction in v ==> DestinationBlendFunction in target
  {
    var l := SEPARATE_LIST;
    assert l[0] == SeparateAlphaBlendEnable && l[1] == SourceBlendFunction && l[2] == SourceBlendAlphaFunction;
    assert l[3] == DestinationBlendAlphaFunction && l[4] == BlendEquation && l[5] == BlendAlphaEquation;
    assert forall name :: name in SEPARATE_NAMES ==> exists i :: 0 <= i < 6 && l[i] == name;
    assert forall i :: 0 <= i < 6 ==> l[i] in SEPARATE_NAMES;
    hide Lookup;
  }

  /** The parts of a push. */
  lemma PushParts(s: Machine, m: StateMap)
    ensures var t := s.Push(m);
      && t.settings == Updated(s.settings, m.Keys, t.Env())
      && t.mapStack == s.mapStack + [m] && t.stacks == Pushed(s.stacks, m)
  {
    hide Updated, Pushed;
  }

  /** Pushing a map with all the variables that reach GL brings GL into agreement. */
  lemma PushAllSynced(s: Machine, m: StateMap)
    requires GL_NAMES <= m.Keys
    ensures Synced(s.Push(m).settings, s.Push(m).Env())
  {
    hide *;
    PushParts(s, m);
    FromScratch(s.settings, m.Keys, s.Push(m).Env());
  }

  lemma PushedOnNothing(m: StateMap)
    ensures Pushed(map[], m).Keys == m.Keys
    ensures forall name :: name in m ==> Pushed(map[], m)[name] == [m[name]]
  {
  }

  lemma SeparateDefault()
    ensures SeparateAlphaBlendEnable in GL_NAMES && !Default(SeparateAlphaBlendEnable).Truthy()
  {
  }

  lemma OneValue(s: Machine, v: Value)
    requires StackOf(s.stacks, SeparateAlphaBlendEnable) == [v] && !v.Truthy()
    ensures NeverSeparate(s)
  {
  }

  /** Nothing but base values on the stacks. */
  ghost predicate AtRest(s: Machine) { forall name :: |StackOf(s.stacks, name)| <= 1 }

  lemma DefaultsSynced(s: Machine, defaults: StateMap)
    requires s.stacks == map[] && s.mapStack == [] && GL_NAMES <= defaults.Keys
    requires forall name :: name in GL_NAMES ==> defaults[name] == Default(name)
    ensures var t := s.Push(defaults);
      && Synced(t.settings, t.Env()) && NeverSeparate(t) && AtRest(t)
      && t.mapStack == [defaults] && t.stacks.Keys == defaults.Keys
      && forall name :: name in defaults ==> t.stacks[name] == [defaults[name]]
  {
    hide Pushed, Updated, Synced, NeverSeparate, Default, Machine.Push, Tops, Value.Truthy;
    PushParts(s, defaults);
    PushAllSynced(s, defaults);
    PushedOnNothing(defaults);
    SeparateDefault();
    OneValue(s.Push(defaults), defaults[SeparateAlphaBlendEnable]);
  }

  function CodeIn(v: StateMap, name: Name): int { if name in v then v[name].AsCode() else -1 }

  lemma MissingIsOne(v: StateMap)
    ensures DestinationBlendFunction !in v ==> ConvertBlendFunc(CodeIn(v, DestinationBlendFunction)) == ONE
  {
  }

  function Restrict(m: StateMap, names: set<Name>): StateMap { map name | name in m && name in names :: m[name] }

  lemma PushedNext(stacks: Stacks, m: StateMap, done: set<Name>, name: Name)
    requires name in m && name !in done && done <= m.Keys
    ensures var before := Pushed(stacks, Restrict(m, done));
      && StackOf(before, name) == StackOf(stacks, name)
      && Pushed(stacks, Restrict(m, done + {name})) == before[name := StackOf(before, name) + [m[name]]]
  {
  }

  lemma PushedEnds(stacks: Stacks, m: StateMap)
    ensures Pushed(stacks, Restrict(m, {})) == stacks && Restrict(m, m.Keys) == m
  {
    assert forall name :: name in Pushed(stacks, Restrict(m, {})) <==> name in stacks;
  }

  lemma PushedIsCurrent(stacks: Stacks, m: StateMap)
    ensures forall name :: name in m ==> Lookup(Tops(Pushed(stacks, m)), name) == m[name]
    ensures Pushed(stacks, m).Keys == stacks.Keys + m.Keys
  {
  }

  lemma PoppedNone(stacks: Stacks)
    ensures Popped(stacks, {}) == stacks
  {
  }

  lemma PoppedKeys(stacks: Stacks, keys: set<Name>)
    ensures Popped(stacks, keys).Keys == stacks.Keys
  {
  }

  lemma PoppedNext(stacks: Stacks, done: set<Name>, name: Name)
    requires name in stacks && name !in done && |stacks[name]| > 0
    ensures var before := Popped(stacks, done);
      && name in before && before[name] == stacks[name]
      && Popped(stacks, done + {name}) == before[name := stacks[name][..|stacks[name]| - 1]]
  {
  }

  lemma TopOf(stacks: Stacks, name: Name)
    requires name in stacks
    ensures Lookup(Tops(stacks), name) == if |stacks[name]| > 0 then stacks[name][|stacks[name]| - 1] else Default(name)
  {
  }

  lemma TopsElsewhere(stacks: Stacks, name: Name, stack: seq<Value>)
    ensures forall other :: other != name ==> Lookup(Tops(stacks[name := stack]), other) == Lookup(Tops(stacks), other)
  {
  }

  class Gl {
    var settings: Settings

    constructor (settings: Settings)
      ensures this.settings == settings
    {
      this.settings := settings;
    }
  }

  class Client {
    const gl: Gl
    var stateMapStack: seq<StateMap>
    var stateVariableStacks: Stacks

    ghost function State(): Machine
      reads this, gl
    {
      Machine(gl.settings, stateMapStack, stateVariableStacks)
    }

    /** Every variable that reaches GL has a stack. */
    predicate Ready()
      reads this`stateVariableStacks
    {
      GL_NAMES <= stateVariableStacks.Keys
    }

    /** Pushes the default state onto empty stacks: GL then agrees with the defaults. */
    constructor (gl: Gl, defaults: StateMap)
      requires GL_NAMES <= defaults.Keys
      requires forall name :: name in GL_NAMES ==> defaults[name] == Default(name)
      modifies gl
      ensures this.gl == gl && Ready() && stateMapStack == [defaults]
      ensures Synced(gl.settings, Tops(stateVariableStacks)) && NeverSeparate(State()) && AtRest(State())
    {
      this.gl := gl;
      stateMapStack, stateVariableStacks := [], map[];
      new;
      ghost var s := State();
      PushState(defaults);
      hide *;
      DefaultsSynced(s, defaults);
    }

    function GetState(name: Name): (value: Value)
      requires name in stateVariableStacks
      reads this`stateVariableStacks
      ensures value == Lookup(Tops(stateVariableStacks), name)
    {
      var stack := stateVariableStacks[name];
      if |stack| > 0 then stack[|stack| - 1] else Default(name)
    }

    /** If any of the names is in the map, fills in the values of all of them. */
    method RelevantValues(names: seq<Name>, variableMap: StateMap, target: StateMap) returns (found: bool, v: StateMap)
      requires Ready() && Current(variableMap) && forall i :: 0 <= i < |names| ==> names[i] in GL_NAMES
      ensures Relevant(names, variableMap.Keys, target, Tops(stateVariableStacks), found, v)
    {
      hide Lookup, Tops;
      found, v := false, target;
      for i := 0 to |names|
        invariant forall j :: 0 <= j < i ==> names[j] !in variableMap
      {
        if names[i] in variableMap {
          found := true;
          break;
        }
      }
      if found {
        for i := 0 to |names|
          invariant forall name :: name in v && name !in names ==> name in target
          invariant forall j :: 0 <= j < i ==>
                    names[j] in v && v[names[j]] == Lookup(Tops(stateVariableStacks), names[j])
        {
          var name := names[i];
          var value := if name in variableMap then variableMap[name] else GetState(name);
          v := v[name := value];
        }
      }
    }

    predicate Current(variableMap: StateMap)
      reads this`stateVariableStacks
    {
      forall name :: name in variableMap ==> Lookup(Tops(stateVariableStacks), name) == variableMap[name]
    }

    method SetSeparateVariables(variableMap: StateMap)
      requires Ready() && Current(variableMap)
      modifies gl
      ensures var env := Tops(stateVariableStacks);
        gl.settings == old(gl.settings).(
          blend := if AlphaBlendEnable in variableMap then IsOn(env, AlphaBlendEnable) else old(gl.settings).blend,
          blending := if SEPARATE_NAMES !! variableMap.Keys || !IsOn(env, SeparateAlphaBlendEnable)
                      then old(gl.settings).blending else SeparateBlending(env))
    {
      hide Lookup, Tops, ConvertBlendFunc, ConvertEquation, Value.Truthy, Value.AsCode, Relevant, Client.Current;
      ghost var env := Tops(stateVariableStacks);
      var found, v := RelevantValues([AlphaBlendEnable], variableMap, map[]);
      RelevantOne(AlphaBlendEnable, variableMap.Keys, map[], env, found, v);
      if found {
        gl.settings := gl.settings.(blend := v[AlphaBlendEnable].Truthy());
      }
      var w;
      found, w := RelevantValues(SEPARATE_LIST, variableMap, v);
      RelevantSeparate(variableMap.Keys, v, env, found, w);
      if found && w[SeparateAlphaBlendEnable].Truthy() {
        MissingIsOne(w);
        gl.settings := gl.settings.(blending := Blending(
          ConvertBlendFunc(CodeIn(w, SourceBlendFunction)), ConvertBlendFunc(CodeIn(w, DestinationBlendFunction)),
          ConvertBlendFunc(CodeIn(w, SourceBlendAlphaFunction)),
          ConvertBlendFunc(CodeIn(w, DestinationBlendAlphaFunction)),
          ConvertEquation(CodeIn(w, BlendEquation)), ConvertEquation(CodeIn(w, BlendAlphaEquation))));
      }
    }

    method SetBlendVariables(variableMap: StateMap)
      requires Ready() && Current(variableMap)
      modifies gl
      ensures var env := Tops(stateVariableStacks);
        gl.settings == old(gl.settings).(
          blend := if AlphaBlendEnable in variableMap then IsOn(env, AlphaBlendEnable) else old(gl.settings).blend,
          blending := SetBlending(old(gl.settings).blending, variableMap.Keys, env))
    {
      hide Lookup, Tops, ConvertBlendFunc, ConvertEquation, Value.Truthy;
      hide Value.AsCode, Relevant, Client.Current, SeparateBlending;
      ghost var env := Tops(stateVariableStacks);
      SetSeparateVariables(variableMap);
      var blending := gl.settings.blending;
      var found, v := RelevantValues([SourceBlendFunction, DestinationBlendFunction], variableMap, map[]);
      RelevantTwo(SourceBlendFunction, DestinationBlendFunction, variableMap.Keys, map[], env, found, v);
      if found {
        var src := ConvertBlendFunc(CodeIn(v, SourceBlendFunction));
        var dst := ConvertBlendFunc(CodeIn(v, DestinationBlendFunction));
        blending := blending.(src := src, dst := dst, srcAlpha := src, dstAlpha := dst);
      }
      var w;
      found, w := RelevantValues([BlendEquation], variableMap, v);
      RelevantOne(BlendEquation, variableMap.Keys, v, env, found, w);
      if found {
        var equation := ConvertEquation(CodeIn(w, BlendEquation));
        blending := blending.(equation := equation, alphaEquation := equation);
      }
      gl.settings := gl.settings.(blending := blending);
    }

    method SetFaceVariables(variableMap: StateMap)
      requires Ready() && Current(variableMap)
      modifies gl
      ensures gl.settings == old(gl.settings).(
          faces := SetFaces(old(gl.settings).faces, variableMap.Keys, Tops(stateVariableStacks)))
    {
      hide Lookup, Tops, Value.Truthy, Value.AsCode, Relevant, Client.Current;
      ghost var env := Tops(stateVariableStacks);
      var faces := gl.settings.faces;
      var found, v := RelevantValues([CullMode], variableMap, map[]);
      RelevantOne(CullMode, variableMap.Keys, map[], env, found, v);
      if found {
        var mode := CodeIn(v, CullMode);
        if mode == CULL_CW {
          faces := faces.(cullFace := true, cullSide := BACK);
        } else if mode == CULL_CCW {
          faces := faces.(cullFace := true, cullSide := FRONT);
        } else {
          faces := faces.(cullFace := false);
        }
      }
      var w;
      found, w := RelevantValues([DitherEnable], variableMap, v);
      RelevantOne(DitherEnable, variableMap.Keys, v, env, found, w);
      if found {
        faces := faces.(dither := w[DitherEnable].Truthy());
      }
      gl.settings := gl.settings.(faces := faces);
    }

    method SetDepthVariables(variableMap: StateMap)
      requires Ready() && Current(variableMap)
      modifies gl
      ensures gl.settings == old(gl.settings).(
          depths := SetDepthTest(old(gl.settings).depths, variableMap.Keys, Tops(stateVariableStacks)))
    {
      hide Lookup, Tops, ConvertComparison, Value.Truthy, Value.AsCode, Relevant, Client.Current;
      ghost var env := Tops(stateVariableStacks);
      var depths := gl.settings.depths;
      var found, v := RelevantValues([ZEnable, ZComparisonFunction], variableMap, map[]);
      RelevantTwo(ZEnable, ZComparisonFunction, variableMap.Keys, map[], env, found, v);
      if found {
        if v[ZEnable].Truthy() {
          depths := depths.(depthTest := true, depthFunc := ConvertComparison(CodeIn(v, ZComparisonFunction)));
        } else {
          depths := depths.(depthTest := false);
        }
      }
      var w;
      found, w := RelevantValues([ZWriteEnable], variableMap, v);
      RelevantOne(ZWriteEnable, variableMap.Keys, v, env, found, w);
      if found {
        depths := depths.(depthMask := w[ZWriteEnable].Truthy());
      }
      gl.settings := gl.settings.(depths := depths);
    }

    method SetStencilVariables(variableMap: StateMap)
      requires Ready() && Current(variableMap)
      modifies gl
      ensures gl.settings == old(gl.settings).(
          depths := SetStencil(old(gl.settings).depths, variableMap.Keys, Tops(stateVariableStacks)))
    {
      hide Lookup, Tops, ConvertComparison, Value.Truthy, Value.AsCode, Relevant, Client.Current;
      ghost var env := Tops(stateVariableStacks);
      var depths := gl.settings.depths;
      var found, v := RelevantValues([StencilEnable, StencilComparisonFunction], variableMap, map[]);
      RelevantTwo(StencilEnable, StencilComparisonFunction, variableMap.Keys, map[], env, found, v);
      if found {
        if v[StencilEnable].Truthy() {
          depths := depths.(stencilTest := true,
                            stencilFunc := ConvertComparison(CodeIn(v, StencilComparisonFunction)));
        } else {
          depths := depths.(stencilTest := false);
        }
      }
      gl.settings := gl.settings.(depths := depths);
    }

    method SetFillVariables(variableMap: StateMap)
      requires Ready() && Current(variableMap)
      modifies gl
      ensures gl.settings == old(gl.settings).(
          fills := SetFills(old(gl.settings).fills, variableMap.Keys, Tops(stateVariableStacks)))
    {
      hide Lookup, Tops, Value.AsFloat, Relevant, Client.Current;
      ghost var env := Tops(stateVariableStacks);
      var fills := gl.settings.fills;
      var found, v := RelevantValues([PolygonOffset1, PolygonOffset2], variableMap, map[]);
      RelevantTwo(PolygonOffset1, PolygonOffset2, variableMap.Keys, map[], env, found, v);
      if found {
        var factor, bias := v[PolygonOffset1].AsFloat(), v[PolygonOffset2].AsFloat();
        if factor != 0.0 || bias != 0.0 {
          fills := fills.(polygonOffset := true, factor := factor, bias := bias);
        } else {
          fills := fills.(polygonOffset := false);
        }
      }
      var w;
      found, w := RelevantValues([FillMode], variableMap, v);
      RelevantOne(FillMode, variableMap.Keys, v, env, found, w);
      if found {
        fills := fills.(fillMode := w[FillMode]);
      }
      gl.settings := gl.settings.(fills := fills);
    }

    /** Tells GL about the variables in the map, and only about those. */
    method SetVariables(variableMap: StateMap)
      requires Ready() && Current(variableMap)
      modifies gl
      ensures gl.settings == Updated(old(gl.settings), variableMap.Keys, Tops(stateVariableStacks))
    {
      hide Lookup, Tops, SetBlending, SetFaces, SetDepthTest, SetStencil, SetFills;
      SetBlendVariables(variableMap);
      SetFaceVariables(variableMap);
      SetDepthVariables(variableMap);
      SetStencilVariables(variableMap);
      SetFillVariables(variableMap);
    }

    method PushState(variableMap: StateMap)
      requires GL_NAMES <= stateVariableStacks.Keys || GL_NAMES <= variableMap.Keys
      modifies this, gl
      ensures State() == old(State()).Push(variableMap) && Ready()
    {
      hide Tops, Lookup, Updated, Pushed, StackOf, Restrict;
      stateMapStack := stateMapStack + [variableMap];
      var names := variableMap.Keys;
      ghost var was, m := stateVariableStacks, variableMap;
      PushedEnds(was, m);
      assert m.Keys - names == {};
      while names != {}
        invariant names <= m.Keys && stateMapStack == old(stateMapStack) + [m] && gl.settings == old(gl.settings)
        invariant stateVariableStacks == Pushed(was, Restrict(m, m.Keys - names))
        decreases |names|
      {
        var name :| name in names;
        PushedNext(was, m, m.Keys - names, name);
        assert m.Keys - names + {name} == m.Keys - (names - {name});
        PushOne(name, variableMap[name]);
        names := names - {name};
      }
      assert m.Keys - names == m.Keys;
      PushedIsCurrent(was, m);
      SetVariables(variableMap);
    }

    method PushOne(name: Name, value: Value)
      modifies this`stateVariableStacks
      ensures stateVariableStacks == old(stateVariableStacks)[name := StackOf(old(stateVariableStacks), name) + [value]]
    {
      if name !in stateVariableStacks {
        stateVariableStacks := stateVariableStacks[name := []];
      }
      stateVariableStacks := stateVariableStacks[name := stateVariableStacks[name] + [value]];
    }

    method PopState()
      requires Ready() && |stateMapStack| > 0
      requires forall name :: name in stateMapStack[|stateMapStack| - 1] ==>
                 name in stateVariableStacks && |stateVariableStacks[name]| > 0
      modifies this, gl
      ensures State() == old(State()).Pop() && Ready()
    {
      hide Tops, Lookup, Updated, Popped;
      var variableMap := stateMapStack[|stateMapStack| - 1];
      stateMapStack := stateMapStack[..|stateMapStack| - 1];
      PoppedKeys(stateVariableStacks, variableMap.Keys);
      var values := PopAll(variableMap.Keys);
      SetVariables(values);
    }

    /** Pops the stacks of these variables; `values` holds what is on top now. */
    method PopAll(keys: set<Name>) returns (values: StateMap)
      requires forall name :: name in keys ==> name in stateVariableStacks && |stateVariableStacks[name]| > 0
      modifies this`stateVariableStacks
      ensures stateVariableStacks == Popped(old(stateVariableStacks), keys)
      ensures values.Keys == keys && Current(values)
    {
      hide Tops, Lookup, Popped;
      ghost var was := stateVariableStacks;
      var names := keys;
      values := map[];
      assert Current(values);
      hide Client.Current;
      PoppedNone(was);
      assert keys - names == {};
      while names != {}
        invariant names <= keys && values.Keys == keys - names
        invariant stateVariableStacks == Popped(was, keys - names)
        invariant Current(values)
        decreases |names|
      {
        var name :| name in names;
        PoppedNext(was, keys - names, name);
        assert keys - names + {name} == keys - (names - {name});
        var value := PopOne(name, values);
        values := values[name := value];
        names := names - {name};
      }
      assert keys - names == keys;
    }

    method PopOne(name: Name, ghost values: StateMap) returns (value: Value)
      requires name in stateVariableStacks && |stateVariableStacks[name]| > 0
      requires Current(values) && name !in values
      modifies this`stateVariableStacks
      ensures stateVariableStacks
           == old(stateVariableStacks)[name := old(stateVariableStacks)[name][..|old(stateVariableStacks)[name]| - 1]]
      ensures Current(values[name := value])
    {
      hide Tops, Lookup;
      var stack := stateVariableStacks[name];
      stack := stack[..|stack| - 1];
      TopsElsewhere(stateVariableStacks, name, stack);
      stateVariableStacks := stateVariableStacks[name := stack];
      TopOf(stateVariableStacks, name);
      value := if |stack| > 0 then stack[|stack| - 1] else Default(name);
    }

    /** Drops everything but the bottom of each stack, and leaves GL as it is. */
    method ClearStateStack()
      modifies this
      ensures State() == old(State()).Clear()
    {
      stateMapStack := [];
      var names := stateVariableStacks.Keys;
      while names != {}
        invariant names <= stateVariableStacks.Keys == old(stateVariableStacks).Keys && stateMapStack == []
        invariant forall name :: name in stateVariableStacks ==>
                    stateVariableStacks[name] == if name !in names && |old(stateVariableStacks)[name]| > 1
                                                 then old(stateVariableStacks)[name][..1]
                                                 else old(stateVariableStacks)[name]
        decreases |names|
      {
        var name :| name in names;
        var l := stateVariableStacks[name];
        if |l| > 1 {
          stateVariableStacks := stateVariableStacks[name := l[..1]];
        }
        names := names - {name};
      }
    }
  }

  /** Clearing is harmless while nothing but the default state was pushed. */
  lemma ClearKeepsEnv(s: Machine)
    requires AtRest(s)
    ensures s.Clear().stacks == s.stacks && s.Clear().mapStack == []
    ensures Layered(s.Clear(), s.stacks)
  {
    assert forall name :: name in s.stacks ==> |StackOf(s.stacks, name)| <= 1;
  }

  /** Clearing takes a run back to where it began, if each variable had one value then. */
  lemma ClearLeavesBase(s: Machine, base: Stacks)
    requires Layered(s, base) && s.stacks.Keys == base.Keys && forall name :: name in base ==> |base[name]| == 1
    ensures s.Clear().stacks == base && s.Clear().mapStack == []
  {
    forall name | name in base
      ensures s.Clear().stacks[name] == base[name]
    {
      assert StackOf(s.stacks, name) == StackOf(base, name) + Project(s.mapStack, name);
    }
  }
}
