/** The manager that advances every running counter of a type. */
module CounterManagers {
  import opened Options
  import opened Callbacks
  import opened Counters

  datatype CounterType = SecondCounter | TickCounter | RenderFrameCounter

  // ---------------------------------------------------------------------- the lists

  /** The list without the first occurrence of `c`. */
  function Without(list: seq<Counter>, c: Counter): (r: seq<Counter>)
    ensures c !in list ==> r == list
  {
    if |list| == 0 then []
    else if list[0] == c then list[1..]
    else [list[0]] + Without(list[1..], c)
  }

  predicate Distinct(list: seq<Counter>) { forall i, j :: 0 <= i < j < |list| ==> list[i] != list[j] }

  lemma OneMoreDone(list: seq<Counter>, done: set<Counter>, i: nat)
    requires Distinct(list) && i < |list| && forall j :: 0 <= j < |list| ==> (list[j] in done <==> j < i)
    ensures forall j :: 0 <= j < |list| ==> (list[j] in done + {list[i]} <==> j < i + 1)
  {
  }

  lemma PrependDistinct(c: Counter, list: seq<Counter>)
    requires Distinct(list) && c !in list
    ensures Distinct([c] + list)
  {
  }

  lemma WithoutStep(list: seq<Counter>, c: Counter)
    requires |list| > 0
    ensures Without(list, c) == if list[0] == c then list[1..] else [list[0]] + Without(list[1..], c)
  {
  }

  lemma {:induction false} WithoutMembers(list: seq<Counter>, c: Counter)
    requires Distinct(list)
    ensures Distinct(Without(list, c))
    ensures forall d :: d in Without(list, c) <==> d in list && d != c
  {
    if |list| > 0 {
      WithoutStep(list, c);
      if list[0] == c {
        assert forall d :: d in list[1..] <==> exists i :: 1 <= i < |list| && list[i] == d;
      } else {
        WithoutMembers(list[1..], c);
        assert list == [list[0]] + list[1..];
        assert list[0] !in list[1..];
        hide Without;
        PrependDistinct(list[0], Without(list[1..], c));
      }
    }
  }

  lemma AddedMembers(list: seq<Counter>, c: Counter)
    requires Distinct(list) && c !in list
    ensures Distinct(list + [c]) && forall d :: d in list + [c] <==> d in list || d == c
  {
  }

  // ---------------------------------------------------------- counters and their states

  /** The states after the counters of type `t` that run have advanced. */
  ghost function Stepped(all: map<Counter, Snapshot>, types: map<Counter, CounterType>, t: CounterType, amount: real)
    : (r: map<Counter, Snapshot>)
    requires all.Keys == types.Keys
    ensures r.Keys == all.Keys
  {
    map c | c in all :: if types[c] == t && all[c].running then all[c].After(amount) else all[c]
  }

  /** The states after just the counters in `done` have. */
  ghost function SteppedOnly(all: map<Counter, Snapshot>, done: set<Counter>, amount: real): map<Counter, Snapshot> {
    map c | c in all :: if c in done then all[c].After(amount) else all[c]
  }

  lemma SteppedOneMore(all: map<Counter, Snapshot>, done: set<Counter>, c: Counter, amount: real)
    requires c in all
    ensures SteppedOnly(all, done + {c}, amount) == SteppedOnly(all, done, amount)[c := all[c].After(amount)]
  {
  }

  lemma SteppedByType(all: map<Counter, Snapshot>, types: map<Counter, CounterType>, t: CounterType, amount: real,
                      done: set<Counter>)
    requires all.Keys == types.Keys
    requires forall c :: c in all ==> (c in done <==> types[c] == t && all[c].running)
    ensures SteppedOnly(all, done, amount) == Stepped(all, types, t, amount)
  {
  }

  /** The callbacks that these counters call when they advance one after the other. */
  ghost function CalledInTurn(all: map<Counter, Snapshot>, list: seq<Counter>, amount: real): seq<Action>
    requires forall c :: c in list ==> c in all
  {
    if |list| == 0 then []
    else CalledInTurn(all, list[..|list| - 1], amount) + all[list[|list| - 1]].Fired(amount)
  }

  lemma NextInTurn(all: map<Counter, Snapshot>, list: seq<Counter>, i: nat, amount: real)
    requires i < |list| && forall c :: c in list ==> c in all
    ensures CalledInTurn(all, list[..i + 1], amount)
         == CalledInTurn(all, list[..i], amount) + all[list[i]].Fired(amount)
  {
    assert list[..i + 1][..i] == list[..i];
  }

  /** The callbacks called depend only on the states of the counters in the list. */
  lemma {:induction false} CalledFrom(all: map<Counter, Snapshot>, all': map<Counter, Snapshot>, list: seq<Counter>,
                                      amount: real)
    requires forall c :: c in list ==> c in all && c in all' && all[c] == all'[c]
    ensures CalledInTurn(all, list, amount) == CalledInTurn(all', list, amount)
  {
    if |list| > 0 {
      CalledFrom(all, all', list[..|list| - 1], amount);
    }
  }

  // -------------------------------------------------------------------- the manager

  class CounterManager {
    var counterMap: map<CounterType, seq<Counter>>
    var lastUpdated: Option<real>
    /** The counters attached to this manager, with their types. */
    ghost var types: map<Counter, CounterType>

    ghost function List(t: CounterType): seq<Counter>
      reads this`counterMap
    {
      if t in counterMap then counterMap[t] else []
    }

    /** The list of a type holds exactly its running counters, each once. */
    ghost predicate Listed(t: CounterType)
      reads this`counterMap, this`types, types.Keys
    {
      && Distinct(List(t))
      && (forall c :: c in List(t) ==> c in types && types[c] == t && c.running)
      && (forall c :: c in types && types[c] == t && c.running ==> c in List(t))
    }

    ghost predicate Valid()
      reads this`counterMap, this`types, types.Keys
    {
      (forall c :: c in types ==> c.Valid()) && forall t :: Listed(t)
    }

    /** The states of all counters attached to this manager. */
    ghost function All(): (r: map<Counter, Snapshot>)
      reads this`types, types.Keys
      ensures r.Keys == types.Keys
    {
      map c | c in types :: c.State()
    }

    constructor ()
      ensures Valid() && types == map[] && lastUpdated == None
    {
      counterMap, lastUpdated, types := map[], None, map[];
    }

    method Register(c: Counter, t: CounterType)
      requires Distinct(List(t)) && c !in List(t)
      modifies this`counterMap
      ensures Distinct(List(t)) && forall d :: d in List(t) <==> d in old(List(t)) || d == c
      ensures forall u :: u != t ==> List(u) == old(List(u))
    {
      AddedMembers(List(t), c);
      if t !in counterMap {
        counterMap := counterMap[t := []];
      }
      counterMap := counterMap[t := counterMap[t] + [c]];
    }

    method Unregister(c: Counter, t: CounterType)
      requires Distinct(List(t))
      modifies this`counterMap
      ensures Distinct(List(t)) && forall d :: d in List(t) <==> d in old(List(t)) && d != c
      ensures forall u :: u != t ==> List(u) == old(List(u))
    {
      WithoutMembers(List(t), c);
      if t in counterMap {
        counterMap := counterMap[t := Without(counterMap[t], c)];
      }
    }

    method Stop(c: Counter, t: CounterType)
      requires Valid() && c in types && types[c] == t && c.running
      modifies this`counterMap, c`running
      ensures Valid() && types == old(types)
      ensures c.State() == old(c.State()).(running := false)
    {
      hide Counter.Valid, Distinct;
      assert Listed(t);
      Unregister(c, t);
      c.running := false;
      assert Listed(t);
      forall u | u != t
        ensures Listed(u)
      {
        assert old(Listed(u));
      }
    }

    method Restart(c: Counter, t: CounterType)
      requires Valid() && c in types && types[c] == t && !c.running
      modifies this`counterMap, c`running
      ensures Valid() && types == old(types)
      ensures c.State() == old(c.State()).(running := true)
    {
      hide Counter.Valid, Distinct;
      assert Listed(t);
      Register(c, t);
      c.running := true;
      assert Listed(t);
      forall u | u != t
        ensures Listed(u)
      {
        assert old(Listed(u));
      }
    }

    /** The `running` setter of a counter attached to this manager. */
    method SetRunning(c: Counter, t: CounterType, newRunning: bool)
      requires Valid() && c in types && types[c] == t
      modifies this`counterMap, c`running
      ensures Valid() && types == old(types)
      ensures c.State() == old(c.State()).(running := newRunning)
    {
      hide CounterManager.Valid;
      if c.running != newRunning {
        if !newRunning {
          Stop(c, t);
        } else {
          Restart(c, t);
        }
      }
    }

    /** A counter that is paused leaves this manager's care. */
    ghost method Release(c: Counter)
      requires Valid() && c in types && !c.running
      modifies this`types
      ensures Valid() && types == old(types) - {c}
    {
      hide Counter.Valid, Distinct;
      var t := types[c];
      assert forall u :: Listed(u);
      types := types - {c};
      forall u
        ensures Listed(u)
      {
        assert old(Listed(u));
      }
    }

    /** A counter without a manager, paused, comes into this one's care. */
    ghost method Adopt(c: Counter, t: CounterType)
      requires Valid() && c !in types && c.Valid() && !c.running
      modifies this`types
      ensures Valid() && types == old(types)[c := t]
    {
      hide Counter.Valid, Distinct;
      assert forall u :: Listed(u);
      types := types[c := t];
      forall u
        ensures Listed(u)
      {
        assert old(Listed(u));
      }
    }

    /** The `gl` setter of a counter: it leaves the manager it had, if any, and joins this
        one, running as before. */
    method Attach(c: Counter, t: CounterType, from: CounterManager?)
      requires Valid() && c.Valid() && (c in types ==> from == this)
      requires from != null ==> from.Valid() && c in from.types && from.types[c] == t
      modifies this`counterMap, this`types, c`running
      modifies if from == null then {} else {from}`counterMap
      modifies if from == null then {} else {from}`types
      ensures Valid() && types == old(types)[c := t] && c.State() == old(c.State())
      ensures from != null && from != this ==> from.Valid() && from.types == old(from.types) - {c}
    {
      hide CounterManager.Valid, Counter.Valid;
      var oldRunning := c.running;
      if from != null {
        from.SetRunning(c, t, false);
        from.Release(c);
      } else {
        c.running := false;
      }
      Adopt(c, t);
      SetRunning(c, t, oldRunning);
    }

    lemma ListKnown(t: CounterType)
      requires Listed(t)
      ensures forall c :: c in List(t) ==> c in All()
      ensures forall c :: c in All() ==> (c in List(t) <==> types[c] == t && All()[c].running)
    {
    }

    /** A list of a type that may still hold `c`, although that has stopped. */
    ghost predicate ListedBut(t: CounterType, c: Counter)
      reads this`counterMap, this`types, types.Keys
    {
      && Distinct(List(t))
      && (forall d :: d in List(t) ==> d in types && types[d] == t && (d.running || d == c))
      && (forall d :: d in types && types[d] == t && d.running ==> d in List(t))
    }

    /** Takes a counter that has stopped off its list. */
    method TakeOff(c: Counter, t: CounterType)
      requires c in types && types[c] == t && ListedBut(t, c) && (c.running ==> c in List(t))
      requires forall u :: u != t ==> Listed(u)
      modifies this`counterMap
      ensures types == old(types) && (forall u :: Listed(u)) && forall u :: u != t ==> List(u) == old(List(u))
    {
      hide Distinct;
      if !c.running {
        Unregister(c, t);
      }
      assert Listed(t);
      forall u | u != t
        ensures Listed(u)
      {
        assert old(Listed(u));
      }
    }

    /** Advances one counter; one that stops itself leaves its list. */
    method AdvanceListed(c: Counter, t: CounterType, amount: real) returns (queue: seq<Action>)
      requires Valid() && c in types && types[c] == t && c.running
      modifies this`counterMap, c
      ensures Valid() && types == old(types)
      ensures c.State() == old(c.State()).After(amount) && queue == old(c.State()).Fired(amount)
      ensures forall u :: u != t ==> List(u) == old(List(u))
    {
      hide Counter.Valid, Counter.State, Snapshot.After, Snapshot.Fired, Snapshot.Trip, Distinct, CounterManager.All;
      assert Listed(t);
      queue := c.Advance(amount);
      assert ListedBut(t, c);
      forall u | u != t
        ensures Listed(u)
      {
        assert old(Listed(u));
      }
      TakeOff(c, t);
    }

    /** The same, seen from all counters. */
    method AdvanceOne(c: Counter, t: CounterType, amount: real) returns (queue: seq<Action>)
      requires Valid() && c in types && types[c] == t && c.running
      modifies this`counterMap, c
      ensures Valid() && types == old(types)
      ensures All() == old(All())[c := old(All())[c].After(amount)] && queue == old(All())[c].Fired(amount)
      ensures forall u :: u != t ==> List(u) == old(List(u))
    {
      hide CounterManager.Valid, Snapshot.After, Snapshot.Fired, Counter.State;
      queue := AdvanceListed(c, t, amount);
    }

    /** Every running counter of the type is advanced once, in the order of the list, and
        nothing else changes, even though counters leave the list while it is walked. The
        queue holds all callbacks called. */
    method AdvanceCounters(t: CounterType, amount: real) returns (queue: seq<Action>)
      requires Valid()
      modifies this`counterMap, types.Keys
      ensures Valid() && types == old(types)
      ensures All() == Stepped(old(All()), types, t, amount)
      ensures forall c :: c in old(List(t)) ==> c in old(All())
      ensures queue == CalledInTurn(old(All()), old(List(t)), amount)
      ensures forall u :: u != t ==> List(u) == old(List(u))
    {
      hide Counter.State, Counter.Valid, SteppedOnly, Stepped, CalledInTurn, Snapshot.After, Snapshot.Fired, Distinct;
      assert Listed(t);
      ListKnown(t);
      ghost var was, list := All(), List(t);
      queue := [];
      hide CounterManager.Valid, CounterManager.All, CounterManager.Listed;
      assert SteppedOnly(was, {}, amount) == was by { NothingStepped(was, amount); }
      NothingCalled(was, amount);
      if t !in counterMap {
        SteppedByType(was, types, t, amount, {});
        return;
      }
      var counterArray := counterMap[t];
      ghost var done: set<Counter> := {};
      for i := 0 to |counterArray|
        invariant Valid() && types == old(types)
        invariant forall j :: 0 <= j < |counterArray| ==> (counterArray[j] in done <==> j < i)
        invariant forall c :: c in done ==> c in counterArray
        invariant All() == SteppedOnly(was, done, amount)
        invariant queue == CalledInTurn(was, list[..i], amount)
        invariant forall u :: u != t ==> List(u) == old(List(u))
      {
        var c := counterArray[i];
        StillToStep(was, done, c, amount);
        NextInTurn(was, list, i, amount);
        SteppedOneMore(was, done, c, amount);
        StateIn(c);
        if c.running {
          var called := AdvanceOne(c, t, amount);
          queue := queue + called;
        }
        OneMoreDone(counterArray, done, i);
        done := done + {c};
      }
      assert list[..|list|] == list;
      SteppedByType(was, types, t, amount, done);
    }

    lemma StateIn(c: Counter)
      requires c in types
      ensures All()[c] == c.State() && All()[c].running == c.running
    {
    }

    /** One tick: tick counters by 1, second counters by the time since the last tick. */
    method Tick(now: real) returns (queue: seq<Action>)
      requires Valid()
      modifies this`counterMap, this`lastUpdated, types.Keys
      ensures Valid() && types == old(types) && lastUpdated == Some(now)
      ensures All() == Ticked(old(All()), types, SecondsSince(old(lastUpdated), now))
      ensures forall c :: c in old(List(TickCounter)) ==> c in old(All())
      ensures forall c :: c in old(List(SecondCounter)) ==> c in old(All())
      ensures queue == CalledInTurn(old(All()), old(List(TickCounter)), 1.0)
                    + CalledInTurn(old(All()), old(List(SecondCounter)), SecondsSince(old(lastUpdated), now))
    {
      assert Listed(SecondCounter);
      ListKnown(SecondCounter);
      ghost var was, list := All(), List(SecondCounter);
      hide CounterManager.Valid, CounterManager.All, CalledInTurn, Stepped, Ticked;
      queue := AdvanceCounters(TickCounter, 1.0);
      SteppedApart(was, types, TickCounter, 1.0, list);
      CalledFrom(was, All(), list, SecondsSince(lastUpdated, now));
      TickMeans(was, types, SecondsSince(lastUpdated, now));
      var called := TickSeconds(now);
      queue := queue + called;
    }

    /** The second half: second counters by the time since the last tick. */
    method TickSeconds(now: real) returns (queue: seq<Action>)
      requires Valid()
      modifies this`counterMap, this`lastUpdated, types.Keys
      ensures Valid() && types == old(types) && lastUpdated == Some(now)
      ensures All() == Stepped(old(All()), types, SecondCounter, SecondsSince(old(lastUpdated), now))
      ensures forall c :: c in old(List(SecondCounter)) ==> c in old(All())
      ensures queue == CalledInTurn(old(All()), old(List(SecondCounter)), SecondsSince(old(lastUpdated), now))
    {
      hide CounterManager.Valid, CounterManager.All, CalledInTurn, Stepped;
      var deltaSeconds := 0.0;
      if lastUpdated.Some? {
        deltaSeconds := (now - lastUpdated.value) / 1000.0;
      }
      lastUpdated := Some(now);
      queue := AdvanceCounters(SecondCounter, deltaSeconds);
    }
  }

  lemma NothingStepped(all: map<Counter, Snapshot>, amount: real)
    ensures SteppedOnly(all, {}, amount) == all
  {
  }

  lemma NothingCalled(all: map<Counter, Snapshot>, amount: real)
    ensures CalledInTurn(all, [], amount) == []
  {
  }

  lemma StillToStep(all: map<Counter, Snapshot>, done: set<Counter>, c: Counter, amount: real)
    requires c in all && c !in done
    ensures SteppedOnly(all, done, amount)[c] == all[c]
  {
  }

  lemma SteppedApart(all: map<Counter, Snapshot>, types: map<Counter, CounterType>, t: CounterType, amount: real,
                     list: seq<Counter>)
    requires all.Keys == types.Keys && forall c :: c in list ==> c in all && types[c] != t
    ensures forall c :: c in list ==> Stepped(all, types, t, amount)[c] == all[c]
  {
  }

  /** The states after a tick. */
  ghost function Ticked(all: map<Counter, Snapshot>, types: map<Counter, CounterType>, seconds: real)
    : map<Counter, Snapshot>
    requires all.Keys == types.Keys
  {
    map c | c in all ::
      if !all[c].running then all[c]
      else match types[c] {
        case TickCounter => all[c].After(1.0)
        case SecondCounter => all[c].After(seconds)
        case RenderFrameCounter => all[c]
      }
  }

  lemma TickMeans(all: map<Counter, Snapshot>, types: map<Counter, CounterType>, seconds: real)
    requires all.Keys == types.Keys
    ensures Stepped(all, types, TickCounter, 1.0).Keys == all.Keys
    ensures Stepped(Stepped(all, types, TickCounter, 1.0), types, SecondCounter, seconds) == Ticked(all, types, seconds)
  {
    hide Snapshot.After;
  }

  /** Seconds from the last tick, if there was one. */
  function SecondsSince(last: Option<real>, now: real): real {
    if last.Some? then (now - last.value) / 1000.0 else 0.0
  }

  /** The clock counts milliseconds. */
  lemma SecondsAreThousands(last: Option<real>, now: real)
    ensures last.Some? ==> SecondsSince(last, now) * 1000.0 == now - last.value
    ensures last.None? ==> SecondsSince(last, now) == 0.0
  {
  }
}
