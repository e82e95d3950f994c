/** The loader barrier: a tree of countdowns that fire when everything below is loaded. */
module Loaders {
  import opened Options

  /** `count` and `fired` are what the code keeps and calls; `pending` and `finished` record
      what was asked of it: loads under way, and whether `finish` was called. */
  datatype Loader = Loader(parent: Option<nat>, count: int, fired: nat, pending: nat, finished: bool)

  /** All loaders by number; a nested one comes after the one that created it. */
  type Forest = seq<Loader>

  predicate IsForest(s: Forest) { forall i :: 0 <= i < |s| && s[i].parent.Some? ==> s[i].parent.value < i }

  function NewLoader(parent: Option<nat>): Loader { Loader(parent, 1, 0, 0, false) }

  // ------------------------------------------------------------------------- the steps

  /** Counts down, and fires at zero; a nested loader then counts its parent down. */
  function CountDown(s: Forest, i: nat): (t: Forest)
    requires i < |s| && IsForest(s)
    ensures |t| == |s| && IsForest(t)
    decreases i
  {
    var l := s[i].(count := s[i].count - 1);
    if l.count != 0 then s[i := l]
    else
      var t := s[i := l.(fired := l.fired + 1)];
      if l.parent.Some? then CountDown(t, l.parent.value) else t
  }

  datatype Event = Create | Start(i: nat) | Complete(i: nat) | Nest(i: nat) | Finish(i: nat)

  /** Only loads under way complete, and a loader is finished once. */
  predicate Possible(s: Forest, e: Event) {
    match e
    case Create => true
    case Start(i) => i < |s|
    case Complete(i) => i < |s| && s[i].pending > 0
    case Nest(i) => i < |s|
    case Finish(i) => i < |s| && !s[i].finished
  }

  /** Nothing is started by a loader that has counted down to zero. */
  predicate Orderly(s: Forest, e: Event)
    requires Possible(s, e)
  {
    (e.Start? || e.Nest?) ==> s[e.i].count != 0
  }

  function Step(s: Forest, e: Event): (t: Forest)
    requires IsForest(s) && Possible(s, e)
    ensures IsForest(t)
  {
    match e
    case Create => s + [NewLoader(None)]
    case Start(i) => s[i := s[i].(count := s[i].count + 1, pending := s[i].pending + 1)]
    case Complete(i) => CountDown(s[i := s[i].(pending := s[i].pending - 1)], i)
    case Nest(i) => s[i := s[i].(count := s[i].count + 1)] + [NewLoader(Some(i))]
    case Finish(i) => CountDown(s[i := s[i].(finished := true)], i)
  }

  // --------------------------------------------------------------------- the invariant

  /** The nested loaders of `i`, among the first `n`, that have not fired. */
  function Open(s: Forest, i: nat, n: nat): nat
    requires n <= |s|
  {
    if n == 0 then 0 else Open(s, i, n - 1) + if s[n - 1].parent == Some(i) && s[n - 1].fired == 0 then 1 else 0
  }

  /** What loader `i` still waits for: loads, nested loaders, and its own `finish`. */
  function Outstanding(s: Forest, i: nat): nat
    requires i < |s|
  {
    s[i].pending + Open(s, i, |s|) + if s[i].finished then 0 else 1
  }

  predicate Settled(s: Forest, i: nat)
    requires i < |s|
  {
    s[i].count == Outstanding(s, i) && s[i].fired == if s[i].count == 0 then 1 else 0
  }

  predicate Inv(s: Forest) { IsForest(s) && forall i :: 0 <= i < |s| ==> Settled(s, i) }

  /** Loader `i` is about to be counted down: it counts one thing more than is outstanding. */
  predicate Due(s: Forest, i: nat) {
    && IsForest(s) && i < |s|
    && s[i].count == Outstanding(s, i) + 1 && s[i].fired == 0
    && forall k :: 0 <= k < |s| && k != i ==> Settled(s, k)
  }

  lemma {:induction false} OpenAfter(s: Forest, t: Forest, k: nat, i: nat, n: nat)
    requires n <= |s| == |t| && k < |s| && t == s[k := t[k]] && t[k].parent == s[k].parent
    ensures s[k].parent != Some(i) || (t[k].fired == 0 <==> s[k].fired == 0) || n <= k ==>
              Open(t, i, n) == Open(s, i, n)
    ensures s[k].parent == Some(i) && s[k].fired == 0 && t[k].fired != 0 && k < n ==> Open(t, i, n) == Open(s, i, n) - 1
  {
    if n > 0 {
      OpenAfter(s, t, k, i, n - 1);
    }
  }

  lemma {:induction false} OpenContains(s: Forest, i: nat, j: nat, n: nat)
    requires j < n <= |s| && s[j].parent == Some(i) && s[j].fired == 0
    ensures Open(s, i, n) > 0
  {
    if j < n - 1 {
      OpenContains(s, i, j, n - 1);
    }
  }

  /** Counting down what is due settles everything, up the whole chain of parents. */
  lemma {:induction false} CountDownSettles(s: Forest, i: nat)
    requires Due(s, i)
    ensures Inv(CountDown(s, i))
    decreases i
  {
    hide Open;
    var l := s[i].(count := s[i].count - 1);
    var t := s[i := if l.count != 0 then l else l.(fired := l.fired + 1)];
    forall k | 0 <= k < |t| && (l.count != 0 || s[i].parent != Some(k))
      ensures Settled(t, k)
    {
      assert k != i ==> Settled(s, k);
      OpenAfter(s, t, i, k, |s|);
    }
    if l.count == 0 && l.parent.Some? {
      var p := l.parent.value;
      assert Settled(s, p);
      OpenContains(s, p, i, |s|);
      OpenAfter(s, t, i, p, |s|);
      CountDownSettles(t, p);
    }
  }

  // -------------------------------------------------------------------------- runs

  lemma {:induction false} OpenOfPrefix(s: Forest, more: Forest, i: nat, n: nat)
    requires n <= |s|
    ensures Open(s + more, i, n) == Open(s, i, n)
  {
    if n > 0 {
      OpenOfPrefix(s, more, i, n - 1);
    }
  }

  lemma {:induction false} OpenOfStranger(s: Forest, i: nat, n: nat)
    requires IsForest(s) && n <= |s| <= i
    ensures Open(s, i, n) == 0
  {
    if n > 0 {
      OpenOfStranger(s, i, n - 1);
    }
  }

  lemma OpenOfOneMore(s: Forest, l: Loader, i: nat)
    requires l.fired == 0
    ensures Open(s + [l], i, |s| + 1) == Open(s, i, |s|) + if l.parent == Some(i) then 1 else 0
  {
    OpenOfPrefix(s, [l], i, |s|);
  }

  /** A loader joins, and its parent, if any, waits for it. */
  lemma JoinSettles(s: Forest, t: Forest, parent: Option<nat>)
    requires Inv(s) && (parent.Some? ==> parent.value < |s| && s[parent.value].count != 0)
    requires t == (if parent.Some? then s[parent.value := s[parent.value].(count := s[parent.value].count + 1)] else s)
    ensures Inv(t + [NewLoader(parent)])
  {
    hide Open;
    var u := t + [NewLoader(parent)];
    assert forall i :: 0 <= i < |t| ==> u[i] == t[i];
    assert u[|t|] == NewLoader(parent);
    assert IsForest(t);
    forall k | 0 <= k < |u|
      ensures Settled(u, k)
    {
      OpenOfOneMore(t, NewLoader(parent), k);
      OpenOfStranger(t, |t|, |t|);
      if k < |s| {
        assert Settled(s, k);
        if parent.Some? {
          OpenAfter(s, t, parent.value, k, |s|);
        }
      }
    }
  }

  /** Changing what is outstanding by one and the count not at all makes a loader due. */
  lemma OneLessIsDue(s: Forest, t: Forest, i: nat)
    requires Inv(s) && i < |s| && s[i].count != 0 && |t| == |s| && t == s[i := t[i]]
    requires t[i].parent == s[i].parent && t[i].count == s[i].count && t[i].fired == s[i].fired
    requires t[i].pending + (if t[i].finished then 0 else 1) + 1 == s[i].pending + (if s[i].finished then 0 else 1)
    ensures Due(t, i)
  {
    hide Open;
    assert Settled(s, i);
    OpenAfter(s, t, i, i, |s|);
    forall k | 0 <= k < |t| && k != i
      ensures Settled(t, k)
    {
      assert Settled(s, k);
      OpenAfter(s, t, i, k, |s|);
    }
  }

  /** Every orderly step keeps every loader settled. */
  lemma StepKeepsInv(s: Forest, e: Event)
    requires Inv(s) && Possible(s, e) && Orderly(s, e)
    ensures Inv(Step(s, e))
  {
    hide Open, CountDown;
    match e
    case Create =>
      JoinSettles(s, s, None);
    case Nest(i) =>
      JoinSettles(s, s[i := s[i].(count := s[i].count + 1)], Some(i));
    case Start(i) =>
      var t := Step(s, e);
      forall k | 0 <= k < |t|
        ensures Settled(t, k)
      {
        assert Settled(s, k);
        OpenAfter(s, t, i, k, |s|);
      }
    case Complete(i) =>
      assert Settled(s, i);
      var t := s[i := s[i].(pending := s[i].pending - 1)];
      OneLessIsDue(s, t, i);
      CountDownSettles(t, i);
    case Finish(i) =>
      assert Settled(s, i);
      var t := s[i := s[i].(finished := true)];
      OneLessIsDue(s, t, i);
      CountDownSettles(t, i);
  }

  /** A run whose every step is possible and orderly. */
  predicate OrderlyRun(s: Forest, events: seq<Event>)
    requires IsForest(s)
    decreases |events|
  {
    |events| == 0 || (Possible(s, events[0]) && Orderly(s, events[0]) && OrderlyRun(Step(s, events[0]), events[1..]))
  }

  function Run(s: Forest, events: seq<Event>): (t: Forest)
    requires IsForest(s) && OrderlyRun(s, events)
    ensures IsForest(t)
    decreases |events|
  {
    if |events| == 0 then s else Run(Step(s, events[0]), events[1..])
  }

  /** Loader `i` and all loaders nested in it are finished, and nothing is under way. */
  predicate Done(s: Forest, i: nat)
    requires i < |s|
    decreases |s| - i
  {
    s[i].finished && s[i].pending == 0 && forall j :: i < j < |s| && s[j].parent == Some(i) ==> Done(s, j)
  }

  lemma {:induction false} NothingOpen(s: Forest, i: nat, n: nat)
    requires n <= |s|
    ensures Open(s, i, n) == 0 <==> forall j :: 0 <= j < n && s[j].parent == Some(i) ==> s[j].fired != 0
  {
    if n > 0 {
      NothingOpen(s, i, n - 1);
    }
  }

  /** A settled loader has fired exactly when everything below it is done. */
  lemma {:induction false} FiredIsDone(s: Forest, i: nat)
    requires Inv(s) && i < |s|
    ensures s[i].fired <= 1 && (s[i].fired == 1 <==> Done(s, i))
    decreases |s| - i
  {
    hide Open;
    assert Settled(s, i);
    NothingOpen(s, i, |s|);
    forall j | i < j < |s| && s[j].parent == Some(i)
      ensures s[j].fired <= 1 && (s[j].fired == 1 <==> Done(s, j))
    {
      FiredIsDone(s, j);
    }
  }

  /** The barrier: after any orderly run from nothing, every count is what is outstanding,
      and every loader has fired once if everything below it is done, and never otherwise. */
  lemma {:induction false} Barrier(events: seq<Event>)
    requires OrderlyRun([], events)
    ensures var t := Run([], events);
      forall i :: 0 <= i < |t| ==> t[i].count == Outstanding(t, i) && t[i].fired == if Done(t, i) then 1 else 0
  {
    hide Open, Done;
    RunKeepsInv([], events);
    var t := Run([], events);
    forall i | 0 <= i < |t|
      ensures t[i].count == Outstanding(t, i) && t[i].fired == if Done(t, i) then 1 else 0
    {
      assert Settled(t, i);
      FiredIsDone(t, i);
    }
  }

  lemma {:induction false} RunKeepsInv(s: Forest, events: seq<Event>)
    requires Inv(s) && OrderlyRun(s, events)
    ensures Inv(Run(s, events))
    decreases |events|
  {
    hide Open, Settled;
    if |events| > 0 {
      StepKeepsInv(s, events[0]);
      RunKeepsInv(Step(s, events[0]), events[1..]);
    }
  }

  /** Firing is never taken back, and counting down fires at most the loader and its ancestors. */
  lemma {:induction false} CountDownFires(s: Forest, i: nat)
    requires i < |s| && IsForest(s)
    ensures var t := CountDown(s, i);
      && (forall k :: 0 <= k < |s| ==> s[k].fired <= t[k].fired <= s[k].fired + 1)
      && (forall k :: i < k < |s| ==> t[k] == s[k])
      && t[i].count == s[i].count - 1 && t[i].fired == s[i].fired + if s[i].count == 1 then 1 else 0
    decreases i
  {
    var l := s[i].(count := s[i].count - 1);
    if l.count == 0 && l.parent.Some? {
      CountDownFires(s[i := l.(fired := l.fired + 1)], l.parent.value);
    }
  }

  /** Starting one load and completing it fires a loader at most once exactly when the
      loader had not yet counted down to zero. */
  lemma RestartFiresTwice(s: Forest, i: nat)
    requires Inv(s) && i < |s|
    ensures var t := Step(Step(s, Start(i)), Complete(i)); t[i].fired <= 1 <==> s[i].count != 0
  {
    assert Settled(s, i);
    var t := Step(s, Start(i));
    CountDownFires(t[i := t[i].(pending := t[i].pending - 1)], i);
  }

  // ------------------------------------------------------------------------ the class

  class LoaderTree {
    var all: Forest

    constructor ()
      ensures all == []
    {
      all := [];
    }

    /** A loader of its own, or one that `parent` waits for. */
    method CreateLoader(parent: Option<nat>) returns (i: nat)
      requires IsForest(all) && (parent.Some? ==> parent.value < |all|)
      modifies this
      ensures i == |old(all)| && all == Step(old(all), if parent.Some? then Nest(parent.value) else Create)
    {
      if parent.Some? {
        all := all[parent.value := all[parent.value].(count := all[parent.value].count + 1)];
      }
      i := |all|;
      all := all + [NewLoader(parent)];
    }

    /** Starts a load of any kind: a texture, raw data, bitmaps, a scene or text. */
    method Load(i: nat)
      requires IsForest(all) && i < |all|
      modifies this
      ensures all == Step(old(all), Start(i))
    {
      all := all[i := all[i].(count := all[i].count + 1, pending := all[i].pending + 1)];
    }

    /** The callback of a load, successful or not. */
    method OnLoaded(i: nat)
      requires IsForest(all) && i < |all| && all[i].pending > 0
      modifies this
      ensures all == Step(old(all), Complete(i))
    {
      all := all[i := all[i].(pending := all[i].pending - 1)];
      CountDownFrom(i);
    }

    method FinishLoading(i: nat)
      requires IsForest(all) && i < |all| && !all[i].finished
      modifies this
      ensures all == Step(old(all), Finish(i))
    {
      all := all[i := all[i].(finished := true)];
      CountDownFrom(i);
    }

    method CountDownFrom(i: nat)
      requires IsForest(all) && i < |all|
      modifies this
      ensures all == CountDown(old(all), i)
      decreases i
    {
      ghost var was := all;
      var l := all[i].(count := all[i].count - 1);
      all := all[i := l];
      if all[i].count == 0 {
        assert was[i := l][i := l.(fired := l.fired + 1)] == was[i := l.(fired := l.fired + 1)];
        OnFinished(i);
      }
    }

    /** The callback of loader `i`; that of a nested loader counts the parent down as well. */
    method OnFinished(i: nat)
      requires IsForest(all) && i < |all|
      modifies this
      ensures var t := old(all)[i := old(all)[i].(fired := old(all)[i].fired + 1)];
        all == if t[i].parent.Some? then CountDown(t, t[i].parent.value) else t
      decreases i, 0
    {
      all := all[i := all[i].(fired := all[i].fired + 1)];
      if all[i].parent.Some? {
        CountDownFrom(all[i].parent.value);
      }
    }
  }
}
