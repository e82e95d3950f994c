/** Which framebuffer a drawing goes to: the innermost surface set's, or the default one. */
module RenderTargets {
  import opened Options
  import opened RenderGraphs

  predicate HasSurface(node: Node) {
    node.kind.RenderSurfaceSet? || exists i :: 0 <= i < |node.children| && HasSurface(node.children[i])
  }

  /** Among the first `n` nodes there is one with a surface set in it. */
  predicate AnySurface(nodes: seq<Node>, n: nat)
    requires n <= |nodes|
  {
    exists i :: 0 <= i < n && HasSurface(nodes[i])
  }

  /** Something is drawn below the node that is not below a surface set in it. */
  predicate DrawsHere(node: Node) {
    || (node.kind.DrawPass? && node.kind.list != [])
    || (!node.kind.RenderSurfaceSet? && exists i :: 0 <= i < |node.children| && DrawsHere(node.children[i]))
  }

  /** Under a surface set, nothing is drawn after a nested surface set. */
  predicate Tidy(node: Node, under: bool)
    decreases node
  {
    var children, within := SortByPriority(node.children), under || node.kind.RenderSurfaceSet?;
    forall i :: 0 <= i < |children| ==>
      (ChildBelow(node, children[i]);
       Tidy(children[i], within) && (within && AnySurface(children, i) ==> !DrawsHere(children[i])))
  }

  // --------------------------------------------------------------------- what is bound

  /** The framebuffers that the drawings below a node go to. */
  function Targets(node: Node, bound: Option<nat>): seq<Option<nat>> { Bind(node, Binding(bound, [])).used }

  function ChildTargets(node: Node, nodes: seq<Node>, n: nat, bound: Option<nat>): seq<Option<nat>>
    requires n <= |nodes| && forall c :: c in nodes ==> c in node.children
  {
    BindChildren(node, nodes, n, Binding(bound, [])).used
  }

  function OwnTargets(node: Node, bound: Option<nat>): seq<Option<nat>> {
    if node.kind.DrawPass? then seq(|node.kind.list|, _ => bound) else []
  }

  function BoundWithin(node: Node, bound: Option<nat>): Option<nat> {
    if node.kind.RenderSurfaceSet? then Some(node.id) else bound
  }

  lemma {:induction false} UseRepeats(b: Binding, n: nat)
    ensures b.Use(n) == Binding(b.bound, b.used + seq(n, _ => b.bound))
  {
    if n > 0 {
      UseRepeats(b, n - 1);
      assert b.used + seq(n - 1, _ => b.bound) + [b.bound] == b.used + seq(n, _ => b.bound);
    } else {
      assert b.used + seq(0, _ => b.bound) == b.used;
    }
  }

  lemma BoundAppends(node: Node, b: Binding)
    ensures Bound(node, b) == Binding(BoundWithin(node, b.bound), b.used + OwnTargets(node, b.bound))
  {
    if node.kind.DrawPass? {
      UseRepeats(b, |node.kind.list|);
    }
  }

  lemma AnySurfaceNext(nodes: seq<Node>, n: nat)
    requires n < |nodes|
    ensures AnySurface(nodes, n + 1) <==> AnySurface(nodes, n) || HasSurface(nodes[n])
  {
  }

  lemma SurfaceBelow(node: Node)
    ensures var children := SortByPriority(node.children);
      HasSurface(node) <==> node.kind.RenderSurfaceSet? || AnySurface(children, |children|)
  {
    SortByPriorityHolds(node.children);
    var children := SortByPriority(node.children);
    hide SortByPriority;
    if i :| 0 <= i < |node.children| && HasSurface(node.children[i]) {
      assert node.children[i] in children;
    }
    if AnySurface(children, |children|) {
      var i :| 0 <= i < |children| && HasSurface(children[i]);
      assert children[i] in node.children;
    }
  }

  /** A subtree leaves the default framebuffer bound if there is a surface set in it, and what
      it uses does not depend on what was used before. */
  lemma {:induction false} BindAppends(node: Node, b: Binding)
    ensures Bind(node, b) == Binding(if HasSurface(node) then None else b.bound, b.used + Targets(node, b.bound))
    ensures var children := SortByPriority(node.children);
      Targets(node, b.bound)
      == OwnTargets(node, b.bound) + ChildTargets(node, children, |children|, BoundWithin(node, b.bound))
    decreases node, |SortByPriority(node.children)| + 1
  {
    hide Bind, BindChildren, Bound, SortByPriority, HasSurface, AnySurface, OwnTargets;
    var children := SortByPriority(node.children);
    var fresh' := Binding(b.bound, []);
    SortByPriorityHolds(node.children);
    BindInParts(node, b);
    BindInParts(node, fresh');
    BoundAppends(node, b);
    BoundAppends(node, fresh');
    SurfaceBelow(node);
    BindChildrenAppends(node, children, |children|, Bound(node, b));
    BindChildrenAppends(node, children, |children|, Bound(node, fresh'));
    var own, below := OwnTargets(node, b.bound), ChildTargets(node, children, |children|, BoundWithin(node, b.bound));
    InARow(b.used, own, below);
  }

  lemma {:induction false} BindChildrenAppends(node: Node, nodes: seq<Node>, n: nat, b: Binding)
    requires n <= |nodes| && forall c :: c in nodes ==> c in node.children
    ensures BindChildren(node, nodes, n, b)
         == Binding(if AnySurface(nodes, n) then None else b.bound, b.used + ChildTargets(node, nodes, n, b.bound))
    ensures n > 0 ==>
              ChildTargets(node, nodes, n, b.bound)
              == ChildTargets(node, nodes, n - 1, b.bound)
               + Targets(nodes[n - 1], if AnySurface(nodes, n - 1) then None else b.bound)
    decreases node, n, 0
  {
    hide Bind, BindChildren, HasSurface, AnySurface;
    var fresh' := Binding(b.bound, []);
    if n == 0 {
      BindChildrenNone(node, nodes, b);
      BindChildrenNone(node, nodes, fresh');
      NoSurfaceYet(nodes);
      assert b.used + [] == b.used;
    } else {
      ChildBelow(node, nodes[n - 1]);
      BindOneMore(node, nodes, n - 1, b);
      BindOneMore(node, nodes, n - 1, fresh');
      AnySurfaceNext(nodes, n - 1);
      var now := if AnySurface(nodes, n - 1) then None else b.bound;
      InARow(b.used, ChildTargets(node, nodes, n - 1, b.bound), Targets(nodes[n - 1], now));
    }
  }

  lemma {:induction false} BindOneMore(node: Node, nodes: seq<Node>, n: nat, b: Binding)
    requires n < |nodes| && forall c :: c in nodes ==> c in node.children
    ensures var now := if AnySurface(nodes, n) then None else b.bound;
      BindChildren(node, nodes, n + 1, b)
      == Binding(if HasSurface(nodes[n]) then None else now,
                 b.used + ChildTargets(node, nodes, n, b.bound) + Targets(nodes[n], now))
    decreases node, n, 1
  {
    hide Bind, BindChildren, HasSurface, AnySurface, Targets, ChildTargets;
    ChildBelow(node, nodes[n]);
    BindChildrenNext(node, nodes, n, b);
    BindChildrenAppends(node, nodes, n, b);
    BindAppends(nodes[n], BindChildren(node, nodes, n, b));
  }

  lemma InARow(a: seq<Option<nat>>, b: seq<Option<nat>>, c: seq<Option<nat>>)
    ensures a + b + c == a + (b + c) && [] + b + c == b + c
  {
  }

  lemma NoSurfaceYet(nodes: seq<Node>)
    ensures !AnySurface(nodes, 0)
  {
  }

  // --------------------------------------------------------------- where drawings land

  function Surfaces(draws: seq<Drawn>): (r: seq<Option<nat>>)
    ensures |r| == |draws| && forall i :: 0 <= i < |draws| ==> r[i] == draws[i].frame.surface
  {
    seq(|draws|, i requires 0 <= i < |draws| => draws[i].frame.surface)
  }

  /** Each drawing goes to its surface or to the default framebuffer. */
  predicate Near(targets: seq<Option<nat>>, surfaces: seq<Option<nat>>) {
    |targets| == |surfaces| && forall i :: 0 <= i < |targets| ==> targets[i] == surfaces[i] || targets[i] == None
  }

  lemma NearTogether(a: seq<Option<nat>>, b: seq<Option<nat>>, c: seq<Option<nat>>, d: seq<Option<nat>>)
    requires Near(a, c) && Near(b, d)
    ensures Near(a + b, c + d)
    ensures a + b == c + d <==> a == c && b == d
  {
    assert a == (a + b)[..|a|] && b == (a + b)[|a|..];
    assert c == (c + d)[..|c|] && d == (c + d)[|c|..];
  }

  lemma SurfacesTogether(a: seq<Drawn>, b: seq<Drawn>)
    ensures Surfaces(a + b) == Surfaces(a) + Surfaces(b)
  {
  }

  /** A drawing of the node's own lands if the surface set around it is the one bound. */
  lemma OwnLand(node: Node, frame: Frame, bound: Option<nat>)
    requires bound == frame.surface || bound == None
    ensures Near(OwnTargets(node, bound), Surfaces(OwnDraws(node, frame)))
    ensures OwnTargets(node, bound) == Surfaces(OwnDraws(node, frame))
       <==> bound == frame.surface || !(node.kind.DrawPass? && node.kind.list != [])
  {
    if node.kind.DrawPass? {
      var list := node.kind.list;
      ListDrawsAt(list, |list|, frame);
      if list != [] {
        assert OwnTargets(node, bound)[0] == bound && Surfaces(OwnDraws(node, frame))[0] == frame.surface;
      }
    }
  }

  /** The drawings of the first children all land. */
  predicate ChildrenTidy(node: Node, nodes: seq<Node>, n: nat, within: bool, lost: bool)
    requires n <= |nodes| && forall c :: c in nodes ==> c in node.children
  {
    forall i :: 0 <= i < n ==>
      Tidy(nodes[i], within) && (lost || (within && AnySurface(nodes, i)) ==> !DrawsHere(nodes[i]))
  }

  /** Every drawing below a node goes to the framebuffer of the innermost surface set around it
      exactly if nothing is drawn under a surface set after a nested one, and the right
      framebuffer is bound from the start if something is drawn before any. Drawings that miss it
      go to the default framebuffer. */
  lemma {:induction false} LandExactly(node: Node, frame: Frame, bound: Option<nat>)
    requires bound == frame.surface || bound == None
    ensures Near(Targets(node, bound), Surfaces(Draws(node, frame)))
    ensures Targets(node, bound) == Surfaces(Draws(node, frame))
       <==> Tidy(node, frame.surface.Some?) && (bound != frame.surface ==> !DrawsHere(node))
    decreases node, |SortByPriority(node.children)| + 1
  {
    var children, inside, within := SortByPriority(node.children), Inside(node, frame), BoundWithin(node, bound);
    InsideSurface(node, frame, bound);
    SortByPriorityHolds(node.children);
    BindAppends(node, Binding(bound, []));
    DrawsInParts(node, frame);
    OwnLand(node, frame, bound);
    ChildrenLandExactly(node, children, |children|, inside, within);
    var own, below := OwnDraws(node, frame), ChildDraws(node, children, |children|, inside);
    var ownTargets, childTargets := OwnTargets(node, bound), ChildTargets(node, children, |children|, within);
    TidyByChildren(node, frame.surface.Some?, bound != frame.surface);
    hide *;
    SurfacesTogether(own, below);
    NearTogether(ownTargets, childTargets, Surfaces(own), Surfaces(below));
  }

  lemma InsideSurface(node: Node, frame: Frame, bound: Option<nat>)
    requires bound == frame.surface || bound == None
    ensures var inside, within := Inside(node, frame), BoundWithin(node, bound);
      && (within == inside.surface || within == None)
      && inside.surface.Some? == (frame.surface.Some? || node.kind.RenderSurfaceSet?)
      && (within != inside.surface <==> !node.kind.RenderSurfaceSet? && bound != frame.surface)
  {
  }

  predicate SomeDrawHere(nodes: seq<Node>) { exists i :: 0 <= i < |nodes| && DrawsHere(nodes[i]) }

  lemma SomeDrawSorted(nodes: seq<Node>)
    ensures SomeDrawHere(nodes) <==> SomeDrawHere(SortByPriority(nodes))
  {
    SortByPriorityHolds(nodes);
    var sorted := SortByPriority(nodes);
    hide SortByPriority, DrawsHere;
    if SomeDrawHere(nodes) {
      var i :| 0 <= i < |nodes| && DrawsHere(nodes[i]);
      assert nodes[i] in sorted;
    }
    if SomeDrawHere(sorted) {
      var i :| 0 <= i < |sorted| && DrawsHere(sorted[i]);
      assert sorted[i] in nodes;
    }
  }

  lemma DrawsHereBelow(node: Node)
    ensures DrawsHere(node)
       <==> (node.kind.DrawPass? && node.kind.list != [])
            || (!node.kind.RenderSurfaceSet? && SomeDrawHere(SortByPriority(node.children)))
  {
    SomeDrawSorted(node.children);
    hide SortByPriority;
    assert SomeDrawHere(node.children) <==> exists i :: 0 <= i < |node.children| && DrawsHere(node.children[i]);
  }

  lemma TidyByChildren(node: Node, under: bool, lost: bool)
    ensures var children, within := SortByPriority(node.children), under || node.kind.RenderSurfaceSet?;
      && (forall c :: c in children ==> c in node.children)
      && (Tidy(node, under) && (lost ==> !DrawsHere(node))
          <==> && ChildrenTidy(node, children, |children|, within, lost && !node.kind.RenderSurfaceSet?)
               && (lost ==> !(node.kind.DrawPass? && node.kind.list != [])))
  {
    SortByPriorityHolds(node.children);
    DrawsHereBelow(node);
    TidyWithin(node, under);
    hide *;
    var children, within := SortByPriority(node.children), under || node.kind.RenderSurfaceSet?;
    assert children[..|children|] == children;
    TidyLost(node, children, |children|, within, lost && !node.kind.RenderSurfaceSet?);
  }

  lemma TidyWithin(node: Node, under: bool)
    ensures var children, within := SortByPriority(node.children), under || node.kind.RenderSurfaceSet?;
      (forall c :: c in children ==> c in node.children)
      && (Tidy(node, under) <==> ChildrenTidy(node, children, |children|, within, false))
  {
    SortByPriorityHolds(node.children);
    hide SortByPriority, DrawsHere, AnySurface;
  }

  lemma TidyLost(node: Node, nodes: seq<Node>, n: nat, within: bool, lost: bool)
    requires n <= |nodes| && forall c :: c in nodes ==> c in node.children
    ensures ChildrenTidy(node, nodes, n, within, lost)
       <==> ChildrenTidy(node, nodes, n, within, false) && (lost ==> !SomeDrawHere(nodes[..n]))
  {
    hide Tidy, DrawsHere, AnySurface;
  }

  lemma NothingLands(node: Node, nodes: seq<Node>, frame: Frame, bound: Option<nat>)
    requires forall c :: c in nodes ==> c in node.children
    ensures ChildTargets(node, nodes, 0, bound) == Surfaces(ChildDraws(node, nodes, 0, frame)) == []
    ensures Near([], [])
  {
    ChildDrawsNone(node, nodes, frame);
    BindChildrenNone(node, nodes, Binding(bound, []));
  }

  lemma {:induction false} ChildrenLandExactly(node: Node, nodes: seq<Node>, n: nat, frame: Frame, bound: Option<nat>)
    requires n <= |nodes| && forall c :: c in nodes ==> c in node.children
    requires bound == frame.surface || bound == None
    ensures Near(ChildTargets(node, nodes, n, bound), Surfaces(ChildDraws(node, nodes, n, frame)))
    ensures ChildTargets(node, nodes, n, bound) == Surfaces(ChildDraws(node, nodes, n, frame))
       <==> ChildrenTidy(node, nodes, n, frame.surface.Some?, bound != frame.surface)
    decreases node, n
  {
    hide Bind, BindChildren, Draws, ChildDraws, Targets, ChildTargets, Tidy, DrawsHere, AnySurface, Near, Surfaces;
    BindChildrenAppends(node, nodes, n, Binding(bound, []));
    if n == 0 {
      NothingLands(node, nodes, frame, bound);
      ChildDrawsNone(node, nodes, frame);
      BindChildrenNone(node, nodes, Binding(bound, []));
    } else {
      var child, now := nodes[n - 1], if AnySurface(nodes, n - 1) then None else bound;
      ChildBelow(node, child);
      ChildDrawsNext(node, nodes, n - 1, frame);
      ChildrenLandExactly(node, nodes, n - 1, frame, bound);
      LandExactly(child, frame, now);
      var before, last := ChildDraws(node, nodes, n - 1, frame), Draws(child, frame);
      SurfacesTogether(before, last);
      NearTogether(ChildTargets(node, nodes, n - 1, bound), Targets(child, now), Surfaces(before), Surfaces(last));
    }
  }

  lemma TwoInOrder(a: Node, b: Node)
    requires a.priority <= b.priority
    ensures SortByPriority([a, b]) == [a, b]
  {
    var r := SortByPriority([a, b]);
    SortedByPriority([a, b]);
    assert [a, b][..1] == [a] && [a][..0] == [];
    assert SortByPriority([a]) == Insert(a, SortByPriority([])) == [a];
    assert Insert(b, [a]) == [a] + Insert(b, []) by { assert [a][1..] == []; }
  }

  /** A draw pass that comes after a nested surface set misses the outer one. */
  lemma PassAfterNestedSurface(outer: Node, nested: Node, pass: Node, frame: Frame)
    requires outer.kind.RenderSurfaceSet? && outer.children == [nested, pass] && nested.priority <= pass.priority
    requires nested.kind.RenderSurfaceSet? && pass.kind.DrawPass? && pass.kind.list != []
    ensures Targets(outer, frame.surface) != Surfaces(Draws(outer, frame))
  {
    TwoInOrder(nested, pass);
    assert HasSurface(nested) && DrawsHere(pass);
    assert AnySurface([nested, pass], 1) by { assert [nested, pass][0] == nested; }
    assert [nested, pass][1] == pass;
    hide HasSurface, DrawsHere, AnySurface, SortByPriority;
    LandExactly(outer, frame, frame.surface);
    hide Targets, Surfaces, Draws;
    assert !Tidy(outer, frame.surface.Some?);
  }
}
