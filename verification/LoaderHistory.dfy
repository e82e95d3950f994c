/** The loader barrier, told by what was asked of the loaders alone. */
module LoaderHistories {
  import opened Options
  import opened Loaders

  /** The parents of the loaders created, in order. */
  function Parents(events: seq<Event>): seq<Option<nat>> {
    if |events| == 0 then []
    else
      match events[0]
      case Create => [None] + Parents(events[1..])
      case Nest(i) => [Some(i)] + Parents(events[1..])
      case _ => Parents(events[1..])
  }

  function ParentsOf(s: Forest): (r: seq<Option<nat>>)
    ensures |r| == |s|
  {
    seq(|s|, i requires 0 <= i < |s| => s[i].parent)
  }

  /** Nothing but counts and firings differs. */
  predicate SameBooks(s: Forest, t: Forest) {
    |s| == |t| && forall k :: 0 <= k < |s| ==>
      s[k].parent == t[k].parent && s[k].pending == t[k].pending && s[k].finished == t[k].finished
  }

  lemma {:induction false} CountDownKeepsBooks(s: Forest, i: nat)
    requires i < |s| && IsForest(s)
    ensures SameBooks(s, CountDown(s, i))
    decreases i
  {
    var l := s[i].(count := s[i].count - 1);
    if l.count == 0 && l.parent.Some? {
      CountDownKeepsBooks(s[i := l.(fired := l.fired + 1)], l.parent.value);
    }
  }

  /** Loads of loader `i` started and not completed. */
  function UnderWay(events: seq<Event>, i: nat): int {
    multiset(events)[Start(i)] as int - multiset(events)[Complete(i)] as int
  }

  lemma UnderWayNext(events: seq<Event>, i: nat)
    requires |events| > 0
    ensures UnderWay(events, i)
         == UnderWay(events[1..], i) + (if events[0] == Start(i) then 1 else if events[0] == Complete(i) then -1 else 0)
    ensures Finish(i) in events <==> events[0] == Finish(i) || Finish(i) in events[1..]
  {
    assert events == [events[0]] + events[1..];
  }

  lemma StepBooks(s: Forest, e: Event)
    requires IsForest(s) && Possible(s, e)
    ensures var t := Step(s, e);
      && ParentsOf(t) == ParentsOf(s) + (if e.Create? then [None] else if e.Nest? then [Some(e.i)] else [])
      && |s| <= |t|
      && (forall k :: 0 <= k < |s| ==>
            && t[k].pending == s[k].pending + (if e == Start(k) then 1 else if e == Complete(k) then -1 else 0)
            && (t[k].finished <==> s[k].finished || e == Finish(k)))
      && (forall k :: |s| <= k < |t| ==> t[k].pending == 0 && !t[k].finished)
  {
    match e
    case Create =>
    case Start(i) =>
    case Nest(i) =>
    case Complete(i) =>
      CountDownKeepsBooks(s[i := s[i].(pending := s[i].pending - 1)], i);
    case Finish(i) =>
      CountDownKeepsBooks(s[i := s[i].(finished := true)], i);
  }

  /** Steps that concern loaders not created yet are not possible. */
  lemma {:induction false} NotBeforeItsTime(s: Forest, e: Event, k: nat)
    requires IsForest(s) && Possible(s, e) && k >= |s|
    ensures e != Start(k) && e != Complete(k) && e != Finish(k)
  {
  }

  /** The books after a run are those of the events. */
  lemma {:induction false} RunBooks(s: Forest, events: seq<Event>)
    requires IsForest(s) && OrderlyRun(s, events)
    ensures var t := Run(s, events);
      && ParentsOf(t) == ParentsOf(s) + Parents(events) && |s| <= |t|
      && (forall k :: 0 <= k < |s| ==>
            && t[k].pending == s[k].pending + UnderWay(events, k)
            && (t[k].finished <==> s[k].finished || Finish(k) in events))
      && (forall k :: |s| <= k < |t| ==>
            t[k].pending == UnderWay(events, k) && (t[k].finished <==> Finish(k) in events))
    decreases |events|
  {
    hide Step, UnderWay, Possible, Orderly, ParentsOf;
    if |events| == 0 {
      NothingUnderWay();
    } else {
      var e, rest := events[0], events[1..];
      var u, t := Step(s, e), Run(s, events);
      StepBooks(s, e);
      RunBooks(u, rest);
      forall k | 0 <= k < |s|
        ensures t[k].pending == s[k].pending + UnderWay(events, k)
        ensures t[k].finished <==> s[k].finished || Finish(k) in events
      {
        UnderWayNext(events, k);
      }
      forall k | |s| <= k < |t|
        ensures t[k].pending == UnderWay(events, k) && (t[k].finished <==> Finish(k) in events)
      {
        UnderWayNext(events, k);
        NotBeforeItsTime(s, e, k);
      }
    }
  }

  lemma NothingUnderWay()
    ensures forall k: nat :: UnderWay([], k) == 0
  {
  }

  /** Loader `i` was finished, all its loads completed, and so were all loaders nested in it. */
  ghost predicate AllDone(events: seq<Event>, i: nat)
    decreases |Parents(events)| - i
  {
    && Finish(i) in events && UnderWay(events, i) == 0
    && forall j :: i < j < |Parents(events)| && Parents(events)[j] == Some(i) ==> AllDone(events, j)
  }

  lemma {:induction false} DoneByBooks(events: seq<Event>, t: Forest, i: nat)
    requires ParentsOf(t) == Parents(events) && i < |t|
    requires forall k :: 0 <= k < |t| ==>
               t[k].pending == UnderWay(events, k) && (t[k].finished <==> Finish(k) in events)
    ensures Done(t, i) <==> AllDone(events, i)
    decreases |t| - i
  {
    hide UnderWay, Parents;
    forall j | i < j < |t| && t[j].parent == Some(i)
      ensures Done(t, j) <==> AllDone(events, j)
    {
      DoneByBooks(events, t, j);
    }
    assert forall j :: 0 <= j < |t| ==> ParentsOf(t)[j] == t[j].parent;
  }

  /** The barrier by the record: after any orderly run, `onFinished` of a loader was called once if it
      was finished, all its loads completed and all nested loaders likewise, and else never. */
  lemma BarrierByRecord(events: seq<Event>)
    requires OrderlyRun([], events)
    ensures var t := Run([], events);
      && |t| == |Parents(events)|
      && forall i :: 0 <= i < |t| ==> t[i].fired == if AllDone(events, i) then 1 else 0
  {
    hide UnderWay, Done, AllDone, Outstanding, Run, Parents;
    Barrier(events);
    RunBooks([], events);
    var t := Run([], events);
    assert ParentsOf([]) + Parents(events) == Parents(events);
    forall i | 0 <= i < |t|
      ensures t[i].fired == if AllDone(events, i) then 1 else 0
    {
      DoneByBooks(events, t, i);
    }
  }
}
