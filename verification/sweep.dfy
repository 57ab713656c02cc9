/**
 * A whole sweep tick. The source ranges over the registry map in Go's
 * unspecified order; these facts show the order does not matter to the
 * registry, and that the actions are just each container's own.
 */
module Sweep {
  import opened Wrappers
  import opened Values
  import opened Registry
  import opened Effects
  import opened UpdateInfo
  import opened Health

  predicate Distinct(s: seq<string>) {
    forall i, j :: 0 <= i < j < |s| ==> s[i] != s[j]
  }

  /** `order` lists every key of the registry exactly once. */
  predicate Enumerates(order: seq<string>, keys: set<string>) {
    && Distinct(order)
    && (forall i :: 0 <= i < |order| ==> order[i] in keys)
    && (forall k :: k in keys ==> k in order)
  }

  /** The actions each listed container would cause if swept alone on `st`. */
  function PerContainerActions(st: State, order: seq<string>, now: int, inventory: Fetched<Inventory>, updateInfo: Fetched<Document>): seq<Action>
    decreases |order|
  {
    if |order| == 0 then []
    else
      (if order[0] in st.registry then SweepOne(st, order[0], now, inventory, updateInfo).actions else [])
      + PerContainerActions(st, order[1..], now, inventory, updateInfo)
  }

  /** SweepOne only reads the gate and the container's own record. */
  lemma SweepOneIsLocal(s1: State, s2: State, id: string, now: int, inventory: Fetched<Inventory>, updateInfo: Fetched<Document>)
    requires id in s1.registry && id in s2.registry
    requires s1.gate == s2.gate && s1.registry[id] == s2.registry[id]
    ensures SweepOne(s1, id, now, inventory, updateInfo).actions == SweepOne(s2, id, now, inventory, updateInfo).actions
    ensures SweepOne(s1, id, now, inventory, updateInfo).state.registry[id] == SweepOne(s2, id, now, inventory, updateInfo).state.registry[id]
  {
  }

  lemma HeadIsMember(o: seq<string>)
    ensures |o| > 0 ==> o[0] in o
  {
  }

  lemma DistinctTail(order: seq<string>)
    requires |order| > 0 && Distinct(order)
    ensures Distinct(order[1..]) && order[0] !in order[1..]
  {
  }

  lemma {:induction false} PerContainerActionsAgree(s1: State, s2: State, order: seq<string>, now: int, inventory: Fetched<Inventory>, updateInfo: Fetched<Document>)
    requires s1.gate == s2.gate && s1.registry.Keys == s2.registry.Keys
    requires forall i :: 0 <= i < |order| && order[i] in s1.registry ==> s1.registry[order[i]] == s2.registry[order[i]]
    ensures PerContainerActions(s1, order, now, inventory, updateInfo) == PerContainerActions(s2, order, now, inventory, updateInfo)
    decreases |order|
  {
    if |order| > 0 {
      if order[0] in s1.registry {
        SweepOneIsLocal(s1, s2, order[0], now, inventory, updateInfo);
      }
      var tail := order[1..];
      assert forall i :: 0 <= i < |tail| ==> tail[i] == order[i + 1];
      PerContainerActionsAgree(s1, s2, tail, now, inventory, updateInfo);
    }
  }

  /** Sweeping in order, each container on the state the earlier ones left,
      performs exactly the actions each container causes on its own. */
  lemma {:induction false} SweepActionsArePerContainer(st: State, order: seq<string>, now: int, inventory: Fetched<Inventory>, updateInfo: Fetched<Document>)
    requires Distinct(order)
    ensures SweepIds(st, order, now, inventory, updateInfo).actions == PerContainerActions(st, order, now, inventory, updateInfo)
    decreases |order|
  {
    if |order| > 0 {
      DistinctTail(order);
      var first := if order[0] in st.registry then SweepOne(st, order[0], now, inventory, updateInfo) else Step(st, []);
      var tail := order[1..];
      SweepActionsArePerContainer(first.state, tail, now, inventory, updateInfo);
      forall i | 0 <= i < |tail| && tail[i] in first.state.registry
        ensures first.state.registry[tail[i]] == st.registry[tail[i]]
      {
        assert tail[i] != order[0];
      }
      PerContainerActionsAgree(first.state, st, tail, now, inventory, updateInfo);
    }
  }

  /** Each swept container ends the tick with the record SweepOne gives it
      on the state the tick started from. */
  lemma {:induction false} SweepIsPointwise(st: State, order: seq<string>, now: int, inventory: Fetched<Inventory>, updateInfo: Fetched<Document>)
    requires Distinct(order)
    ensures forall id :: id in st.registry && id in order ==>
              SweepIds(st, order, now, inventory, updateInfo).state.registry[id] == SweepOne(st, id, now, inventory, updateInfo).state.registry[id]
    decreases |order|
  {
    if |order| > 0 {
      DistinctTail(order);
      var first := if order[0] in st.registry then SweepOne(st, order[0], now, inventory, updateInfo) else Step(st, []);
      var tail := order[1..];
      SweepIsPointwise(first.state, tail, now, inventory, updateInfo);
      forall id | id in st.registry && id in order
        ensures SweepIds(st, order, now, inventory, updateInfo).state.registry[id] == SweepOne(st, id, now, inventory, updateInfo).state.registry[id]
      {
        if id != order[0] {
          assert id in tail;
          SweepOneIsLocal(first.state, st, id, now, inventory, updateInfo);
        }
      }
    }
  }

  /** A sweep tick over the registry, in any enumeration order. */
  function Sweep(st: State, order: seq<string>, now: int, inventory: Fetched<Inventory>, updateInfo: Fetched<Document>): (r: Step)
    requires Enumerates(order, st.registry.Keys)
    ensures r.state.gate == st.gate && r.state.registry.Keys == st.registry.Keys
    ensures forall id :: id in st.registry ==> r.state.registry[id] == SweepOne(st, id, now, inventory, updateInfo).state.registry[id]
    ensures r.actions == PerContainerActions(st, order, now, inventory, updateInfo)
  {
    SweepIsPointwise(st, order, now, inventory, updateInfo);
    SweepActionsArePerContainer(st, order, now, inventory, updateInfo);
    SweepIds(st, order, now, inventory, updateInfo)
  }

  /** The registry after a tick does not depend on the enumeration order. */
  lemma SweepOrderIrrelevant(st: State, o1: seq<string>, o2: seq<string>, now: int, inventory: Fetched<Inventory>, updateInfo: Fetched<Document>)
    requires Enumerates(o1, st.registry.Keys) && Enumerates(o2, st.registry.Keys)
    ensures Sweep(st, o1, now, inventory, updateInfo).state == Sweep(st, o2, now, inventory, updateInfo).state
  {
  }

  lemma {:induction false} PerContainerActionsAppend(st: State, a: seq<string>, b: seq<string>, now: int, inventory: Fetched<Inventory>, updateInfo: Fetched<Document>)
    ensures PerContainerActions(st, a + b, now, inventory, updateInfo)
         == PerContainerActions(st, a, now, inventory, updateInfo) + PerContainerActions(st, b, now, inventory, updateInfo)
    decreases |a|
  {
    if |a| > 0 {
      assert (a + b)[0] == a[0];
      assert (a + b)[1..] == a[1..] + b;
      PerContainerActionsAppend(st, a[1..], b, now, inventory, updateInfo);
    } else {
      assert a + b == b;
    }
  }

  /** Dropping position `j` keeps a list duplicate-free and removes just that element. */
  lemma RemoveAt(o: seq<string>, j: int)
    requires Distinct(o) && 0 <= j < |o|
    ensures Distinct(o[..j] + o[j + 1..])
    ensures forall x :: x in o[..j] + o[j + 1..] <==> x in o && x != o[j]
  {
  }

  lemma PerContainerActionsRemoveAt(st: State, o: seq<string>, j: int, now: int, inventory: Fetched<Inventory>, updateInfo: Fetched<Document>)
    requires 0 <= j < |o|
    ensures multiset(PerContainerActions(st, o, now, inventory, updateInfo))
         == multiset(PerContainerActions(st, [o[j]], now, inventory, updateInfo))
          + multiset(PerContainerActions(st, o[..j] + o[j + 1..], now, inventory, updateInfo))
  {
    assert o == o[..j] + [o[j]] + o[j + 1..];
    PerContainerActionsAppend(st, o[..j] + [o[j]], o[j + 1..], now, inventory, updateInfo);
    PerContainerActionsAppend(st, o[..j], [o[j]], now, inventory, updateInfo);
    PerContainerActionsAppend(st, o[..j], o[j + 1..], now, inventory, updateInfo);
  }

  /** The actions of a tick, counted with multiplicity, do not depend on the
      enumeration order either. */
  lemma {:induction false} SweepActionsOrderIrrelevant(st: State, o1: seq<string>, o2: seq<string>, now: int, inventory: Fetched<Inventory>, updateInfo: Fetched<Document>)
    requires Distinct(o1) && Distinct(o2)
    requires forall x :: x in o1 <==> x in o2
    ensures multiset(PerContainerActions(st, o1, now, inventory, updateInfo)) == multiset(PerContainerActions(st, o2, now, inventory, updateInfo))
    decreases |o1|
  {
    if |o1| == 0 {
      HeadIsMember(o2);
    } else {
      DistinctTail(o1);
      var x := o1[0];
      assert x in o2;
      var j :| 0 <= j < |o2| && o2[j] == x;
      var rest := o2[..j] + o2[j + 1..];
      RemoveAt(o2, j);
      assert o1 == [x] + o1[1..];
      forall x' ensures x' in o1[1..] <==> x' in rest
      {
        assert x' in o1 <==> x' == x || x' in o1[1..];
      }
      SweepActionsOrderIrrelevant(st, o1[1..], rest, now, inventory, updateInfo);
      PerContainerActionsRemoveAt(st, o2, j, now, inventory, updateInfo);
      PerContainerActionsAppend(st, [x], o1[1..], now, inventory, updateInfo);
    }
  }

  /** While the gate suppresses, a whole tick does nothing at all. */
  lemma {:induction false} SuppressedTickIsSilent(st: State, order: seq<string>, now: int, inventory: Fetched<Inventory>, updateInfo: Fetched<Document>)
    requires Suppressed(st.gate, now)
    ensures SweepIds(st, order, now, inventory, updateInfo) == Step(st, [])
    decreases |order|
  {
    if |order| > 0 {
      SuppressedTickIsSilent(st, order[1..], now, inventory, updateInfo);
    }
  }
}
