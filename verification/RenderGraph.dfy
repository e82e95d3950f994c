/** Rendering a graph: nodes bracket the state that their descendants are drawn with. */
module RenderGraphs {
  import opened Options
  import opened RenderStates
  import opened Clients

  /** An element to draw, with the state of its material if it has one. */
  datatype Draw = Draw(element: nat, state: Option<StateMap>)

  datatype Kind =
    | Plain
    | StateSet(state: Option<StateMap>)
    | RenderSurfaceSet(display: Display)
    | DrawPass(list: seq<Draw>)

  datatype Node = Node(id: nat, priority: real, kind: Kind, children: seq<Node>)

  datatype Display = Display(width: int, height: int)

  /** What a drawing depends on: variables, display size and surface set. */
  datatype Frame = Frame(env: StateMap, display: Display, surface: Option<nat>)

  datatype Drawn = Drawn(element: nat, frame: Frame)

  // --------------------------------------------------------------- children in order

  function Insert(node: Node, nodes: seq<Node>): (r: seq<Node>)
    ensures multiset(r) == multiset(nodes) + multiset{node}
  {
    if |nodes| == 0 then [node]
    else if node.priority < nodes[0].priority then [node] + nodes
    else
      assert nodes == [nodes[0]] + nodes[1..];
      [nodes[0]] + Insert(node, nodes[1..])
  }

  /** Lower priorities first; equal ones stay in their order. */
  function SortByPriority(nodes: seq<Node>): (r: seq<Node>)
    ensures multiset(r) == multiset(nodes)
    ensures forall c :: c in r <==> c in nodes
  {
    if |nodes| == 0 then []
    else
      var k := |nodes| - 1;
      assert nodes == nodes[..k] + [nodes[k]];
      var r := Insert(nodes[k], SortByPriority(nodes[..k]));
      assert forall c :: c in r <==> c in multiset(r);
      assert forall c :: c in nodes <==> c in multiset(nodes);
      r
  }

  predicate InOrder(nodes: seq<Node>) { forall i, j :: 0 <= i < j < |nodes| ==> nodes[i].priority <= nodes[j].priority }

  lemma SortByPriorityHolds(nodes: seq<Node>)
    ensures forall c :: c in SortByPriority(nodes) <==> c in nodes
  {
  }

  predicate NoneBefore(priority: real, nodes: seq<Node>) {
    forall i :: 0 <= i < |nodes| ==> priority <= nodes[i].priority
  }

  lemma {:induction false} InsertNoneBefore(node: Node, nodes: seq<Node>, priority: real)
    requires NoneBefore(priority, nodes) && priority <= node.priority
    ensures NoneBefore(priority, Insert(node, nodes))
  {
    if |nodes| > 0 && node.priority >= nodes[0].priority {
      InsertNoneBefore(node, nodes[1..], priority);
    }
  }

  lemma {:induction false} InsertKeepsOrder(node: Node, nodes: seq<Node>)
    requires InOrder(nodes)
    ensures InOrder(Insert(node, nodes))
  {
    if |nodes| > 0 && node.priority >= nodes[0].priority {
      InsertKeepsOrder(node, nodes[1..]);
      InsertNoneBefore(node, nodes[1..], nodes[0].priority);
    }
  }

  lemma {:induction false} SortedByPriority(nodes: seq<Node>)
    ensures InOrder(SortByPriority(nodes))
  {
    if |nodes| > 0 {
      SortedByPriority(nodes[..|nodes| - 1]);
      InsertKeepsOrder(nodes[|nodes| - 1], SortByPriority(nodes[..|nodes| - 1]));
    }
  }

  // --------------------------------------------------------------- what should be drawn

  function With(frame: Frame, state: Option<StateMap>): Frame {
    if state.Some? then frame.(env := frame.env + state.value) else frame
  }

  /** What the children of a node see. */
  function Inside(node: Node, frame: Frame): Frame {
    match node.kind
    case StateSet(state) => With(frame, state)
    case RenderSurfaceSet(display) => frame.(display := display, surface := Some(node.id))
    case _ => frame
  }

  function ListDraws(list: seq<Draw>, n: nat, frame: Frame): seq<Drawn>
    requires n <= |list|
  {
    if n == 0 then [] else ListDraws(list, n - 1, frame) + [Drawn(list[n - 1].element, With(frame, list[n - 1].state))]
  }

  function OwnDraws(node: Node, frame: Frame): seq<Drawn> {
    if node.kind.DrawPass? then ListDraws(node.kind.list, |node.kind.list|, frame) else []
  }

  /** All drawings below a node, each with the frame of its innermost definitions. */
  function Draws(node: Node, frame: Frame): seq<Drawn>
    decreases node, |SortByPriority(node.children)| + 1
  {
    OwnDraws(node, frame)
    + ChildDraws(node, SortByPriority(node.children), |SortByPriority(node.children)|, Inside(node, frame))
  }

  function ChildDraws(node: Node, nodes: seq<Node>, n: nat, frame: Frame): seq<Drawn>
    requires n <= |nodes| && forall c :: c in nodes ==> c in node.children
    decreases node, n
  {
    if n == 0 then []
    else
      ChildBelow(node, nodes[n - 1]);
      ChildDraws(node, nodes, n - 1, frame) + Draws(nodes[n - 1], frame)
  }

  lemma ChildDrawsNone(node: Node, nodes: seq<Node>, frame: Frame)
    requires forall c :: c in nodes ==> c in node.children
    ensures ChildDraws(node, nodes, 0, frame) == []
  {
  }

  lemma ChildDrawsNext(node: Node, nodes: seq<Node>, n: nat, frame: Frame)
    requires n < |nodes| && forall c :: c in nodes ==> c in node.children
    ensures ChildDraws(node, nodes, n + 1, frame) == ChildDraws(node, nodes, n, frame) + Draws(nodes[n], frame)
  {
    hide Draws;
  }

  lemma ChildBelow(node: Node, child: Node)
    requires child in node.children
    ensures child < node
  {
    var i :| 0 <= i < |node.children| && node.children[i] == child;
    assert node.children[i] < node;
  }

  // ------------------------------------------------------------- where the drawings go

  /** The bound framebuffer, by the surface set that installed it, and the framebuffers that
      the drawings so far went to. */
  datatype Binding = Binding(bound: Option<nat>, used: seq<Option<nat>>) {
    function Use(n: nat): Binding
      decreases n
    {
      if n == 0 then this else Use(n - 1).(used := Use(n - 1).used + [bound])
    }
  }

  function Bound(node: Node, b: Binding): Binding {
    match node.kind
    case RenderSurfaceSet(_) => b.(bound := Some(node.id))
    case DrawPass(list) => b.Use(|list|)
    case _ => b
  }

  function Unbound(node: Node, b: Binding): Binding { if node.kind.RenderSurfaceSet? then b.(bound := None) else b }

  /** A surface set binds its own framebuffer for its children, and after them the default one. */
  function Bind(node: Node, b: Binding): Binding
    decreases node, |SortByPriority(node.children)| + 1
  {
    var children := SortByPriority(node.children);
    Unbound(node, BindChildren(node, children, |children|, Bound(node, b)))
  }

  function BindChildren(node: Node, nodes: seq<Node>, n: nat, b: Binding): Binding
    requires n <= |nodes| && forall c :: c in nodes ==> c in node.children
    decreases node, n
  {
    if n == 0 then b
    else
      ChildBelow(node, nodes[n - 1]);
      Bind(nodes[n - 1], BindChildren(node, nodes, n - 1, b))
  }

  lemma BindChildrenNone(node: Node, nodes: seq<Node>, b: Binding)
    requires forall c :: c in nodes ==> c in node.children
    ensures BindChildren(node, nodes, 0, b) == b
  {
  }

  lemma BindChildrenNext(node: Node, nodes: seq<Node>, n: nat, b: Binding)
    requires n < |nodes| && forall c :: c in nodes ==> c in node.children
    ensures BindChildren(node, nodes, n + 1, b) == Bind(nodes[n], BindChildren(node, nodes, n, b))
  {
    hide Bind;
  }

  lemma BindInParts(node: Node, b: Binding)
    ensures var children := SortByPriority(node.children);
      Bind(node, b) == Unbound(node, BindChildren(node, children, |children|, Bound(node, b)))
  {
    hide Unbound, Bound, BindChildren;
  }

  // ------------------------------------------------------------------ innermost states

  /** The states and the surface sets around an element, outermost first. */
  datatype Surrounding = Surrounding(maps: seq<StateMap>, screens: seq<(Display, nat)>) {
    function Then(inner: Surrounding): Surrounding { Surrounding(maps + inner.maps, screens + inner.screens) }
  }

  function StateAround(state: Option<StateMap>): Surrounding {
    Surrounding(if state.Some? then [state.value] else [], [])
  }

  function OwnAround(node: Node): Surrounding {
    match node.kind
    case StateSet(state) => StateAround(state)
    case RenderSurfaceSet(display) => Surrounding([], [(display, node.id)])
    case _ => Surrounding([], [])
  }

  /** Below `node` there is an element with these states and surface sets around it: those
      of its ancestors and, last, the state of its material. */
  ghost predicate Reached(node: Node, element: nat, around: Surrounding)
    decreases node
  {
    || (node.kind.DrawPass? && exists i :: 0 <= i < |node.kind.list| && IsDraw(node.kind.list[i], element, around))
    || (exists i, rest :: 0 <= i < |node.children| &&
          Reached(node.children[i], element, rest) && around == OwnAround(node).Then(rest))
  }

  predicate IsDraw(draw: Draw, element: nat, around: Surrounding) {
    draw.element == element && around == StateAround(draw.state)
  }

  /** The innermost state that sets a variable and the innermost surface set win. */
  function FrameIn(frame: Frame, around: Surrounding): Frame {
    var n := |around.screens|;
    Frame(Merge(frame.env, around.maps), if n > 0 then around.screens[n - 1].0 else frame.display,
          if n > 0 then Some(around.screens[n - 1].1) else frame.surface)
  }

  lemma FrameInBoth(frame: Frame, outer: Surrounding, inner: Surrounding)
    ensures FrameIn(frame, outer.Then(inner)) == FrameIn(FrameIn(frame, outer), inner)
  {
    MergeSplit(frame.env, outer.maps, inner.maps);
  }

  lemma WithIsFrameIn(frame: Frame, state: Option<StateMap>)
    ensures With(frame, state) == FrameIn(frame, StateAround(state))
  {
    if state.Some? {
      var maps := StateAround(state).maps;
      assert maps[..|maps| - 1] == [] && Merge(frame.env, []) == frame.env;
    }
  }

  lemma InsideIsFrameIn(node: Node, frame: Frame)
    ensures Inside(node, frame) == FrameIn(frame, OwnAround(node))
  {
    if node.kind.StateSet? {
      WithIsFrameIn(frame, node.kind.state);
    }
  }

  lemma {:induction false} ListDrawsAt(list: seq<Draw>, n: nat, frame: Frame)
    requires n <= |list|
    ensures var draws := ListDraws(list, n, frame);
      |draws| == n && forall i :: 0 <= i < n ==> draws[i] == Drawn(list[i].element, With(frame, list[i].state))
  {
    if n > 0 {
      ListDrawsAt(list, n - 1, frame);
    }
  }

  /** Every drawing is of an element below the node, in the frame of what is around it. */
  lemma {:induction false} DrawsAreReached(node: Node, frame: Frame, d: Drawn)
    requires d in Draws(node, frame)
    ensures exists around :: Reached(node, d.element, around) && d.frame == FrameIn(frame, around)
    decreases node, |SortByPriority(node.children)| + 1
  {
    if d in OwnDraws(node, frame) {
      var list := node.kind.list;
      ListDrawsAt(list, |list|, frame);
      var i :| 0 <= i < |list| && d == Drawn(list[i].element, With(frame, list[i].state));
      WithIsFrameIn(frame, list[i].state);
      assert IsDraw(list[i], d.element, StateAround(list[i].state));
      assert Reached(node, d.element, StateAround(list[i].state));
    } else {
      var children := SortByPriority(node.children);
      ChildDrawsNone(node, children, Inside(node, frame));
      var around := ChildDrawsAreReached(node, children, |children|, frame, d);
    }
  }

  lemma {:induction false} ChildDrawsAreReached(node: Node, nodes: seq<Node>, n: nat, frame: Frame, d: Drawn)
    returns (around: Surrounding)
    requires n <= |nodes| && forall c :: c in nodes ==> c in node.children
    requires n > 0 && d in ChildDraws(node, nodes, n, Inside(node, frame))
    ensures Reached(node, d.element, around) && d.frame == FrameIn(frame, around)
    decreases node, n
  {
    hide Draws, ChildDraws, Inside, FrameIn, OwnAround;
    var inside := Inside(node, frame);
    ChildDrawsNone(node, nodes, inside);
    ChildDrawsNext(node, nodes, n - 1, inside);
    if d in ChildDraws(node, nodes, n - 1, inside) {
      around := ChildDrawsAreReached(node, nodes, n - 1, frame, d);
    } else {
      var child := nodes[n - 1];
      ChildBelow(node, child);
      DrawsAreReached(child, inside, d);
      var rest :| Reached(child, d.element, rest) && d.frame == FrameIn(inside, rest);
      around := OwnAround(node).Then(rest);
      var i :| 0 <= i < |node.children| && node.children[i] == child;
      assert Reached(node.children[i], d.element, rest);
      InsideIsFrameIn(node, frame);
      FrameInBoth(frame, OwnAround(node), rest);
    }
  }

  /** And every element below the node is drawn so. */
  lemma {:induction false} ReachedIsDrawn(node: Node, frame: Frame, element: nat, around: Surrounding)
    requires Reached(node, element, around)
    ensures Drawn(element, FrameIn(frame, around)) in Draws(node, frame)
    decreases node
  {
    hide FrameIn, Draws, ChildDraws, ListDraws, Inside, SortByPriority, With, OwnAround;
    SortByPriorityHolds(node.children);
    DrawsInParts(node, frame);
    if node.kind.DrawPass? && exists i :: 0 <= i < |node.kind.list| && IsDraw(node.kind.list[i], element, around) {
      var list := node.kind.list;
      var i :| 0 <= i < |list| && IsDraw(list[i], element, around);
      ListDrawsAt(list, |list|, frame);
      WithIsFrameIn(frame, list[i].state);
      assert ListDraws(list, |list|, frame)[i] in OwnDraws(node, frame);
    } else {
      var i, rest :| 0 <= i < |node.children| &&
        Reached(node.children[i], element, rest) && around == OwnAround(node).Then(rest);
      var child, inside := node.children[i], Inside(node, frame);
      ReachedIsDrawn(child, inside, element, rest);
      InsideIsFrameIn(node, frame);
      FrameInBoth(frame, OwnAround(node), rest);
      var children := SortByPriority(node.children);
      assert child in children;
      var k :| 0 <= k < |children| && children[k] == child;
      ChildDrawsContain(node, children, |children|, inside, k, Drawn(element, FrameIn(frame, around)));
    }
  }

  lemma {:induction false} ChildDrawsContain(node: Node, nodes: seq<Node>, n: nat, frame: Frame, k: nat, d: Drawn)
    requires k < n <= |nodes| && forall c :: c in nodes ==> c in node.children
    requires d in Draws(nodes[k], frame)
    ensures d in ChildDraws(node, nodes, n, frame)
  {
    hide Draws, ChildDraws;
    ChildDrawsNext(node, nodes, n - 1, frame);
    if k < n - 1 {
      ChildDrawsContain(node, nodes, n - 1, frame, k, d);
    }
  }

  /** The views that drawings should get. */
  function Shown(draws: seq<Drawn>): (views: seq<View>)
    ensures |views| == |draws|
  {
    seq(|draws|, i requires 0 <= i < |draws| => Described(draws[i].frame.env))
  }

  lemma ShownTogether(a: seq<Drawn>, b: seq<Drawn>)
    ensures Shown(a + b) == Shown(a) + Shown(b)
  {
    hide Described;
    forall i | 0 <= i < |a + b|
      ensures Shown(a + b)[i] == (Shown(a) + Shown(b))[i]
    {
    }
  }

  // ------------------------------------------------------------------- proper trees

  predicate Below(id: nat, node: Node) {
    node.id == id || exists i :: 0 <= i < |node.children| && Below(id, node.children[i])
  }

  predicate StateKnown(state: Option<StateMap>, names: set<Name>) { state.Some? ==> state.value.Keys <= names }

  predicate KindKnown(kind: Kind, names: set<Name>) {
    match kind
    case StateSet(state) => StateKnown(state, names)
    case DrawPass(list) => forall i :: 0 <= i < |list| ==> StateKnown(list[i].state, names)
    case _ => true
  }

  /** A tree: no node lies below itself; and states only set known variables. */
  predicate Proper(node: Node, names: set<Name>) {
    && KindKnown(node.kind, names)
    && forall i :: 0 <= i < |node.children| ==> !Below(node.id, node.children[i]) && Proper(node.children[i], names)
  }

  predicate StateQuiet(state: Option<StateMap>) { state.Some? ==> MapSeparateOff(state.value) }

  predicate KindQuiet(kind: Kind) {
    match kind
    case StateSet(state) => StateQuiet(state)
    case DrawPass(list) => forall i :: 0 <= i < |list| ==> StateQuiet(list[i].state)
    case _ => true
  }

  /** No state in the tree turns separate alpha blending on. */
  predicate Quiet(node: Node) {
    KindQuiet(node.kind) && forall i :: 0 <= i < |node.children| ==> Quiet(node.children[i])
  }

  lemma ChildProper(node: Node, child: Node, names: set<Name>)
    requires Proper(node, names) && child in node.children
    ensures !Below(node.id, child) && Proper(child, names)
    ensures Quiet(node) ==> Quiet(child)
    ensures forall id :: Below(id, child) ==> Below(id, node)
  {
    var i :| 0 <= i < |node.children| && node.children[i] == child;
  }

  // ------------------------------------------------------------------- the renderer

  /** Popping the map that `s` pushed brings the stacks back. */
  lemma Bracket(s: Machine, t: Machine, m: StateMap)
    requires m.Keys <= s.stacks.Keys && t.stacks == s.Push(m).stacks && t.mapStack == s.Push(m).mapStack
    ensures |t.mapStack| > 0 && t.mapStack[|t.mapStack| - 1] == m
    ensures forall name :: name in m ==> name in t.stacks && |t.stacks[name]| > 0
    ensures t.Pop().stacks == s.stacks && t.Pop().mapStack == s.mapStack
  {
    PopUndoesPush(s, m);
    hide Updated;
  }

  ghost predicate InSync(s: Machine) { Synced(s.settings, s.Env()) && NeverSeparate(s) }

  /** What a bracketed piece of rendering leaves: the stacks as they were and, if GL was in
      sync and no state was in the way, GL in sync and every drawing with the right view. */
  ghost predicate Rendered(s: Machine, t: Machine, quiet: bool, was: seq<View>, views: seq<View>, draws: seq<Drawn>) {
    && t.stacks == s.stacks && t.mapStack == s.mapStack
    && (InSync(s) && quiet ==> InSync(t) && views == was + Shown(draws))
  }

  /** The client's state below a node of this kind. */
  function Entered(s: Machine, kind: Kind): Machine {
    if kind.StateSet? && kind.state.Some? then s.Push(kind.state.value) else s
  }

  lemma NothingShown(views: seq<View>)
    ensures views + Shown([]) == views
  {
  }

  lemma ViewIsDescribed(s: Machine, d: Drawn)
    requires d.frame.env == s.Env()
    ensures InSync(s) ==> [Observe(s.settings)] == Shown([d])
  {
    hide Observe, Described;
  }

  lemma NothingRendered(s: Machine, node: Node, children: seq<Node>, frame: Frame, quiet: bool, views: seq<View>)
    requires forall c :: c in children ==> c in node.children
    ensures Rendered(s, s, quiet, views, views, ChildDraws(node, children, 0, frame))
    ensures ChildDraws(node, children, 0, frame) == []
  {
    NothingShown(views);
  }

  lemma RenderedStacks(s: Machine, t: Machine, quiet: bool, was: seq<View>, views: seq<View>, draws: seq<Drawn>)
    requires Rendered(s, t, quiet, was, views, draws)
    ensures t.stacks == s.stacks && t.mapStack == s.mapStack
  {
  }

  /** After one more child. */
  lemma ThenChild(s: Machine, t: Machine, u: Machine, node: Node, children: seq<Node>, i: nat, frame: Frame,
                  was: seq<View>, before: seq<View>, after: seq<View>)
    requires i < |children| && forall c :: c in children ==> c in node.children
    requires Rendered(s, t, Quiet(node), was, before, ChildDraws(node, children, i, frame))
    requires Rendered(t, u, Quiet(children[i]), before, after, Draws(children[i], frame))
    requires Quiet(node) ==> Quiet(children[i])
    ensures Rendered(s, u, Quiet(node), was, after, ChildDraws(node, children, i + 1, frame))
    ensures ChildDraws(node, children, i + 1, frame) == ChildDraws(node, children, i, frame) + Draws(children[i], frame)
  {
    hide InSync, Quiet, Draws, ChildDraws, Shown;
    ChildDrawsNext(node, children, i, frame);
    ShownTogether(ChildDraws(node, children, i, frame), Draws(children[i], frame));
  }

  class Renderer {
    const client: Client
    var display: Display
    var surface: Option<nat>
    var previous: map<nat, (Display, Option<nat>)>
    var drawn: seq<Drawn>
    var views: seq<View>
    var binding: Binding

    constructor (client: Client, display: Display)
      ensures this.client == client && this.display == display && surface == None && drawn == [] && views == []
      ensures binding == Binding(None, [])
    {
      this.client, this.display, surface := client, display, None;
      previous, drawn, views, binding := map[], [], [], Binding(None, []);
    }

    function Now(): Frame
      reads this, client
    {
      Frame(Tops(client.stateVariableStacks), display, surface)
    }

    method PushIf(state: Option<StateMap>)
      requires client.Ready()
      modifies client, client.gl
      ensures client.Ready() && Now() == With(old(Now()), state)
      ensures state.Some? ==> client.State() == old(client.State()).Push(state.value)
      ensures state.None? ==> client.State() == old(client.State())
      ensures old(InSync(client.State())) && StateQuiet(state) ==> InSync(client.State())
    {
      if state.Some? {
        ghost var s := client.State();
        client.PushState(state.value);
        PushEnv(s, state.value);
        if InSync(s) && StateQuiet(state) {
          PushSynced(s, state.value);
        }
      }
    }

    /** Undoes the push of `state`, made when the client was in state `s`. */
    method PopIf(state: Option<StateMap>, ghost s: Machine)
      requires client.Ready() && GL_NAMES <= s.stacks.Keys && StateKnown(state, s.stacks.Keys)
      requires var t := if state.Some? then s.Push(state.value) else s;
        client.State().stacks == t.stacks && client.State().mapStack == t.mapStack
      modifies client, client.gl
      ensures client.Ready() && client.State().stacks == s.stacks && client.State().mapStack == s.mapStack
      ensures old(InSync(client.State())) ==> InSync(client.State())
    {
      if state.Some? {
        ghost var t := client.State();
        Bracket(s, t, state.value);
        hide Updated, Synced, NeverSeparate, Machine.Push;
        client.PopState();
        if InSync(t) {
          PopSynced(t);
        }
      }
    }

    /** Draws one element under the state of its material. */
    method DrawElement(draw: Draw)
      requires client.Ready() && StateKnown(draw.state, client.stateVariableStacks.Keys)
      modifies client, client.gl, this`drawn, this`views, this`binding
      ensures client.Ready() && drawn == old(drawn) + [Drawn(draw.element, With(old(Now()), draw.state))]
      ensures binding == old(binding).(used := old(binding).used + [old(binding).bound])
      ensures Rendered(old(client.State()), client.State(), StateQuiet(draw.state), old(views), views,
                       [Drawn(draw.element, With(old(Now()), draw.state))])
    {
      ghost var s := client.State();
      PushIf(draw.state);
      ViewIsDescribed(client.State(), Drawn(draw.element, Now()));
      hide Updated, Observe, Described, InSync, Synced, With, Shown, StateQuiet, Machine.Push;
      drawn := drawn + [Drawn(draw.element, Now())];
      views := views + [Observe(client.gl.settings)];
      binding := binding.(used := binding.used + [binding.bound]);
      PopIf(draw.state, s);
    }

    method RenderList(list: seq<Draw>)
      requires client.Ready() && forall i :: 0 <= i < |list| ==>
                StateKnown(list[i].state, client.stateVariableStacks.Keys)
      modifies client, client.gl, this`drawn, this`views, this`binding
      ensures client.Ready() && drawn == old(drawn) + ListDraws(list, |list|, old(Now()))
      ensures binding == old(binding).Use(|list|)
      ensures Rendered(old(client.State()), client.State(), forall i :: 0 <= i < |list| ==> StateQuiet(list[i].state),
                       old(views), views, ListDraws(list, |list|, old(Now())))
    {
      hide StateKnown, StateQuiet, With, Described, InSync;
      ghost var frame := Now();
      for i := 0 to |list|
        invariant client.Ready() && Now() == frame && drawn == old(drawn) + ListDraws(list, i, frame)
        invariant binding == old(binding).Use(i) && binding.bound == old(binding).bound
        invariant Rendered(old(client.State()), client.State(),
                           forall k :: 0 <= k < |list| ==> StateQuiet(list[k].state),
                           old(views), views, ListDraws(list, i, frame))
      {
        ShownTogether(ListDraws(list, i, frame), [Drawn(list[i].element, With(frame, list[i].state))]);
        DrawElement(list[i]);
      }
    }

    /** Sets up what the children of `node` see; a draw pass draws its list. */
    method Before(node: Node)
      requires client.Ready() && KindKnown(node.kind, client.stateVariableStacks.Keys)
      modifies this, client, client.gl
      ensures client.Ready() && Now() == Inside(node, old(Now()))
      ensures if node.kind.RenderSurfaceSet? then display == node.kind.display && surface == Some(node.id)
              else display == old(display) && surface == old(surface)
      ensures drawn == old(drawn) + OwnDraws(node, old(Now())) && binding == Bound(node, old(binding))
      ensures var s := old(client.State());
        && client.State().stacks == Entered(s, node.kind).stacks
        && client.State().mapStack == Entered(s, node.kind).mapStack
      ensures old(InSync(client.State())) && KindQuiet(node.kind) ==>
                InSync(client.State()) && views == old(views) + Shown(OwnDraws(node, old(Now())))
      ensures previous
           == if node.kind.RenderSurfaceSet? then old(previous)[node.id := (old(display), old(surface))]
              else old(previous)
    {
      hide Updated, InSync, With, Shown, StateQuiet, ListDraws, Machine.Push;
      NothingShown(views);
      match node.kind
      case Plain =>
      case StateSet(state) => PushIf(state);
      case RenderSurfaceSet(size) =>
        previous := previous[node.id := (display, surface)];
        display := size;
        surface := Some(node.id);
        binding := binding.(bound := Some(node.id));
      case DrawPass(list) => RenderList(list);
    }

    /** Puts back what `Before` replaced when the client was in state `s`. */
    method After(node: Node, ghost s: Machine, ghost frame: Frame)
      requires client.Ready() && GL_NAMES <= s.stacks.Keys && KindKnown(node.kind, s.stacks.Keys)
      requires client.State().stacks == Entered(s, node.kind).stacks
      requires client.State().mapStack == Entered(s, node.kind).mapStack
      requires frame.env == s.Env() && Now() == Inside(node, frame)
      requires node.kind.RenderSurfaceSet? ==>
                node.id in previous && previous[node.id] == (frame.display, frame.surface)
      modifies this`display, this`surface, this`binding, client, client.gl
      ensures client.Ready() && client.State().stacks == s.stacks && client.State().mapStack == s.mapStack
      ensures Now() == frame
      ensures old(InSync(client.State())) ==> InSync(client.State())
      ensures binding == Unbound(node, old(binding))
    {
      hide Updated, InSync, Machine.Push;
      match node.kind
      case StateSet(state) => PopIf(state, s);
      case RenderSurfaceSet(_) =>
        binding := binding.(bound := None);
        display, surface := previous[node.id].0, previous[node.id].1;
      case _ =>
    }

    method RenderChildren(node: Node, children: seq<Node>)
      requires client.Ready() && forall c :: c in children ==> c in node.children
      requires Proper(node, client.stateVariableStacks.Keys)
      modifies this, client, client.gl
      ensures client.Ready() && Now() == old(Now())
      ensures drawn == old(drawn) + ChildDraws(node, children, |children|, old(Now()))
      ensures binding == BindChildren(node, children, |children|, old(binding))
      ensures Rendered(old(client.State()), client.State(), Quiet(node), old(views), views,
                       ChildDraws(node, children, |children|, old(Now())))
      ensures forall id :: id in old(previous) && (id == node.id || !Below(id, node)) ==>
                id in previous && previous[id] == old(previous)[id]
      decreases node, 0
    {
      hide Proper, Quiet, Below, Shown, Rendered, ChildDraws, Draws, Tops, Renderer.Now, Bind, BindChildren;
      ghost var frame, s, was := Now(), client.State(), views;
      BindChildrenNone(node, children, binding);
      NothingRendered(s, node, children, frame, Quiet(node), views);
      for i := 0 to |children|
        invariant client.Ready() && Now() == frame && drawn == old(drawn) + ChildDraws(node, children, i, frame)
        invariant client.stateVariableStacks == s.stacks && binding == BindChildren(node, children, i, old(binding))
        invariant Rendered(s, client.State(), Quiet(node), was, views, ChildDraws(node, children, i, frame))
        invariant forall id :: id in old(previous) && (id == node.id || !Below(id, node)) ==>
                    id in previous && previous[id] == old(previous)[id]
      {
        ChildBelow(node, children[i]);
        BindChildrenNext(node, children, i, old(binding));
        ChildProper(node, children[i], client.stateVariableStacks.Keys);
        ghost var t, before := client.State(), views;
        Render(children[i]);
        ThenChild(s, t, client.State(), node, children, i, frame, was, before, views);
        RenderedStacks(t, client.State(), Quiet(children[i]), before, views, Draws(children[i], frame));
      }
    }

    /** Renders a tree.  Stacks, display size and surface set are as before, and every element
        is drawn in priority order, each in the frame of its innermost definitions. */
    method Render(node: Node)
      requires client.Ready() && Proper(node, client.stateVariableStacks.Keys)
      modifies this, client, client.gl
      ensures client.Ready() && Now() == old(Now())
      ensures drawn == old(drawn) + Draws(node, old(Now())) && binding == Bind(node, old(binding))
      ensures Rendered(old(client.State()), client.State(), Quiet(node), old(views), views, Draws(node, old(Now())))
      ensures forall id :: id in old(previous) && !Below(id, node) ==>
                id in previous && previous[id] == old(previous)[id]
      decreases node, 1
    {
      hide Shown, InSync, Draws, Inside, ChildDraws, OwnDraws, Rendered;
      hide Entered, Proper, Quiet, KindKnown, KindQuiet, Tops;
      hide Below, Renderer.Now, Bind, BindChildren, Bound, Unbound, SortByPriority;
      ghost var s, frame, was := client.State(), Now(), views;
      EnvIsTops(this);
      BindInParts(node, binding);
      EnteredKeys(s, node);
      SortByPriorityHolds(node.children);
      SelfBelow(node);
      var children := SortByPriority(node.children);
      Before(node);
      ghost var t, entered := client.State(), views;
      RenderChildren(node, children);
      ghost var u := client.State();
      RenderedStacks(t, u, Quiet(node), entered, views, ChildDraws(node, children, |children|, Inside(node, frame)));
      After(node, s, frame);
      Assembled(s, t, u, client.State(), node, frame, was, entered, views);
    }

    /** One frame: the stacks are cleared down to the default state, and the tree is rendered. */
    method RenderFrame(root: Node)
      requires client.Ready() && Proper(root, client.stateVariableStacks.Keys) && AtRest(client.State())
      modifies this, client, client.gl
      ensures client.Ready() && Now() == old(Now())
      ensures drawn == old(drawn) + Draws(root, old(Now())) && binding == Bind(root, old(binding))
      ensures FrameDone(old(client.State()), client.State(), Quiet(root))
      ensures old(InSync(client.State())) && Quiet(root) ==> views == old(views) + Shown(Draws(root, old(Now())))
    {
      ghost var s, frame := client.State(), Now();
      ClearKeepsEnv(s);
      hide Proper, Quiet, Shown, Draws, InSync, Rendered, Bind, Tops, Machine.Clear, AtRest;
      EnvIsTops(this);
      client.ClearStateStack();
      ClearKeepsSync(s);
      EnvIsTops(this);
      assert Now() == frame;
      ghost var t, was := client.State(), views;
      Render(root);
      RenderedInSync(t, client.State(), Quiet(root), was, views, Draws(root, frame));
    }
  }

  /** What a frame leaves: the stacks as they were, no maps, and GL in sync if it was. */
  ghost predicate FrameDone(s: Machine, t: Machine, quiet: bool) {
    t.stacks == s.stacks && t.mapStack == [] && (InSync(s) && quiet ==> InSync(t))
  }

  lemma ClearKeepsSync(s: Machine)
    requires AtRest(s)
    ensures s.Clear().stacks == s.stacks && s.Clear().mapStack == [] && (InSync(s) ==> InSync(s.Clear()))
  {
    ClearKeepsEnv(s);
    hide Synced;
  }

  lemma RenderedInSync(s: Machine, t: Machine, quiet: bool, was: seq<View>, views: seq<View>, draws: seq<Drawn>)
    requires Rendered(s, t, quiet, was, views, draws)
    ensures t.stacks == s.stacks && t.mapStack == s.mapStack
    ensures InSync(s) && quiet ==> InSync(t) && views == was + Shown(draws)
  {
    hide InSync, Shown;
  }

  /** From a client just made, over any number of frames of trees without separate alpha
      blending, only the default state stays on the stacks and GL stays in sync. */
  lemma {:induction false} FramesRest(frames: seq<Machine>)
    requires |frames| > 0 && AtRest(frames[0]) && InSync(frames[0])
    requires forall i :: 0 < i < |frames| ==> FrameDone(frames[i - 1], frames[i], true)
    ensures var last := frames[|frames| - 1];
      last.stacks == frames[0].stacks && AtRest(last) && InSync(last) && (|frames| > 1 ==> last.mapStack == [])
  {
    hide InSync;
    if |frames| > 1 {
      var before := frames[..|frames| - 1];
      assert forall i :: 0 < i < |before| ==> FrameDone(before[i - 1], before[i], true);
      FramesRest(before);
    }
  }

  lemma EnvIsTops(r: Renderer)
    ensures r.Now().env == r.client.State().Env()
    ensures r.Now().display == r.display && r.Now().surface == r.surface
  {
  }

  lemma SelfBelow(node: Node)
    ensures Below(node.id, node)
  {
  }

  lemma Assembled(s: Machine, t: Machine, u: Machine, v: Machine, node: Node, frame: Frame,
                  was: seq<View>, entered: seq<View>, views: seq<View>)
    requires InSync(s) && KindQuiet(node.kind) ==> InSync(t) && entered == was + Shown(OwnDraws(node, frame))
    requires var children := SortByPriority(node.children);
      && (forall c :: c in children ==> c in node.children)
      && Rendered(t, u, Quiet(node), entered, views, ChildDraws(node, children, |children|, Inside(node, frame)))
    requires InSync(u) ==> InSync(v)
    requires v.stacks == s.stacks && v.mapStack == s.mapStack && (Quiet(node) ==> KindQuiet(node.kind))
    ensures Rendered(s, v, Quiet(node), was, views, Draws(node, frame))
    ensures Draws(node, frame)
         == OwnDraws(node, frame)
          + ChildDraws(node, SortByPriority(node.children), |SortByPriority(node.children)|, Inside(node, frame))
  {
    hide InSync, KindQuiet, Quiet;
    DrawsInParts(node, frame);
    hide Shown, OwnDraws, ChildDraws, Draws, SortByPriority, Inside;
  }

  lemma EnteredKeys(s: Machine, node: Node)
    requires Proper(node, s.stacks.Keys)
    ensures KindKnown(node.kind, s.stacks.Keys) && Entered(s, node.kind).stacks.Keys == s.stacks.Keys
    ensures Quiet(node) ==> KindQuiet(node.kind)
  {
    hide Updated;
  }

  lemma DrawsInParts(node: Node, frame: Frame)
    ensures var own, children := OwnDraws(node, frame), SortByPriority(node.children);
      var below := ChildDraws(node, children, |children|, Inside(node, frame));
      Draws(node, frame) == own + below && Shown(Draws(node, frame)) == Shown(own) + Shown(below)
  {
    hide OwnDraws, ChildDraws, Shown;
    var children := SortByPriority(node.children);
    ShownTogether(OwnDraws(node, frame), ChildDraws(node, children, |children|, Inside(node, frame)));
  }
}
