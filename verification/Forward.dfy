/** The generic forward data flow engine (dolang-compile/src/flow.rs, `Flow`): a worklist
    over block states, with a bit per block that says it is queued already. */
module Forwarding {

  import opened Results
  import opened FlowGraphs
  import opened Analyses

  // ----- what a visit keeps -----

  ghost predicate Queued<S>(graph: seq<Block>, states: seq<S>, dirty: seq<bool>, queue: seq<nat>) {
    && |states| == |dirty| == |graph|
    && (forall q :: q in queue ==> q < |graph|)
    && (forall b :: 0 <= b < |dirty| && dirty[b] ==> b in queue)
  }

  ghost predicate Done<S(!new), E>(a: Analysis<S, E>, o: Order<S>, graph: seq<Block>, states: seq<S>,
                                   queue: seq<nat>, b: nat)
    requires |states| == |graph|
  {
    b < |graph| && (b in queue || Settled(a, o, graph, states, b))
  }

  /** Every block visited so far is settled or queued again. */
  ghost predicate Working<S(!new), E>(a: Analysis<S, E>, o: Order<S>, graph: seq<Block>, states: seq<S>,
                                      dirty: seq<bool>, queue: seq<nat>, visited: set<nat>) {
    && Queued(graph, states, dirty, queue)
    && forall b :: b in visited ==> Done(a, o, graph, states, queue, b)
  }

  /** The first `i` flows have arrived. */
  ghost predicate Arrived<S(!new)>(o: Order<S>, states: seq<S>, flows: seq<Arrival<S>>, i: nat) {
    i <= |flows| && forall j :: 0 <= j < i ==> flows[j].to < |states| && o.leq(flows[j].state, states[flows[j].to])
  }

  /** Amid a visit of block `b`: it is queued again, or its first `i` flows have arrived. */
  ghost predicate Visiting<S(!new), E(!new)>(a: Analysis<S, E>, o: Order<S>, graph: seq<Block>, states: seq<S>,
                                       dirty: seq<bool>, queue: seq<nat>, visited: set<nat>,
                                       b: nat, flows: seq<Arrival<S>>, i: nat) {
    && Queued(graph, states, dirty, queue)
    && b < |graph| && b in visited
    && (forall x :: x in visited && x != b ==> Done(a, o, graph, states, queue, x))
    && (b in queue || (Sends(a, graph, b, states[b]) == Ok(flows) && Arrived(o, states, flows, i)))
  }

  /** Only neutral states have not been visited or queued. */
  ghost predicate Noticed<S(!new), E>(a: Analysis<S, E>, states: seq<S>, queue: seq<nat>, visited: set<nat>) {
    forall b :: 0 <= b < |states| && states[b] != a.neutral ==> b in queue || b in visited
  }

  /** The states are above the initial ones, and below every solution. */
  ghost predicate Lowest<S(!new), E(!new)>(a: Analysis<S, E>, o: Order<S>, graph: seq<Block>, initial: seq<S>, states: seq<S>) {
    && Below(o, initial, states)
    && (Monotone(a, o) ==> forall t :: Solution(a, o, graph, initial, t) ==> Below(o, states, t))
  }

  /** In every solution the flow arrives. */
  ghost predicate Due<S(!new), E(!new)>(a: Analysis<S, E>, o: Order<S>, graph: seq<Block>, initial: seq<S>, flow: Arrival<S>) {
    Monotone(a, o) ==> forall t :: Solution(a, o, graph, initial, t) ==> flow.to < |t| && o.leq(flow.state, t[flow.to])
  }

  ghost predicate Unsolvable<S(!new), E(!new)>(a: Analysis<S, E>, o: Order<S>, graph: seq<Block>, initial: seq<S>) {
    forall t :: !Solution(a, o, graph, initial, t)
  }

  // Taking a block from the queue.
  lemma BeginVisit<S(!new), E(!new)>(a: Analysis<S, E>, o: Order<S>, graph: seq<Block>, states: seq<S>,
                               dirty: seq<bool>, queue: seq<nat>, visited: set<nat>, flows: seq<Arrival<S>>)
    requires Working(a, o, graph, states, dirty, queue, visited) && |queue| > 0
    requires var id := queue[|queue| - 1]; id in queue && Sends(a, graph, id, states[id]) == Ok(flows)
    ensures var id := queue[|queue| - 1];
            Visiting(a, o, graph, states, dirty[id := false], queue[..|queue| - 1], visited + {id}, id, flows, 0)
    ensures Noticed(a, states, queue, visited) ==>
              Noticed(a, states, queue[..|queue| - 1], visited + {queue[|queue| - 1]})
  {
    hide Settled, Sends;
    var id, rest, dirty' := queue[|queue| - 1], queue[..|queue| - 1], dirty[queue[|queue| - 1] := false];
    forall b | 0 <= b < |graph|
      ensures b in queue ==> b == id || b in rest
      ensures dirty'[b] ==> b in rest
    {
      if b in queue && b != id {
        var k :| 0 <= k < |queue| && queue[k] == b;
        assert rest[k] == b;
      }
    }
    assert forall b :: b in rest ==> b in queue;
    assert Queued(graph, states, dirty', rest);
    forall x | x in visited + {id} && x != id
      ensures Done(a, o, graph, states, rest, x)
    {
      assert Done(a, o, graph, states, queue, x);
    }
    assert Arrived(o, states, flows, 0);
  }

  lemma EndVisit<S(!new), E(!new)>(a: Analysis<S, E>, o: Order<S>, graph: seq<Block>, states: seq<S>,
                             dirty: seq<bool>, queue: seq<nat>, visited: set<nat>, b: nat, flows: seq<Arrival<S>>)
    requires Visiting(a, o, graph, states, dirty, queue, visited, b, flows, |flows|)
    ensures Working(a, o, graph, states, dirty, queue, visited)
  {
    hide Sends;
  }

  // States that have not changed stay settled as their successors grow.
  lemma SettledStays<S(!new), E>(a: Analysis<S, E>, o: Order<S>, graph: seq<Block>, states: seq<S>, d: nat, m: S, x: nat)
    requires Semilattice(a, o) && x < |graph| == |states| && d < |states| && o.leq(states[d], m)
    requires Settled(a, o, graph, states, x) && (x == d ==> m == states[d])
    ensures Settled(a, o, graph, states[d := m], x)
  {
    hide Sends;
  }

  lemma ArrivedStays<S(!new), E>(a: Analysis<S, E>, o: Order<S>, states: seq<S>, flows: seq<Arrival<S>>, i: nat, d: nat, m: S)
    requires Semilattice(a, o) && i < |flows| && flows[i].to == d < |states|
    requires Arrived(o, states, flows, i) && o.leq(states[d], m) && o.leq(flows[i].state, m)
    ensures Arrived(o, states[d := m], flows, i + 1)
  {
  }

  function Grown(dirty: seq<bool>, d: nat, changed: bool): seq<bool>
    requires d < |dirty|
  {
    if changed then dirty[d := true] else dirty
  }

  function Requeued(dirty: seq<bool>, queue: seq<nat>, d: nat, changed: bool): seq<nat>
    requires d < |dirty|
  {
    if changed && !dirty[d] then queue + [d] else queue
  }

  // Merging one flow of the block being visited.
  lemma MergeKeeps<S(!new), E(!new)>(a: Analysis<S, E>, o: Order<S>, graph: seq<Block>, states: seq<S>, dirty: seq<bool>,
                               queue: seq<nat>, visited: set<nat>, b: nat, flows: seq<Arrival<S>>, i: nat, m: S)
    requires Semilattice(a, o) && Visiting(a, o, graph, states, dirty, queue, visited, b, flows, i)
    requires i < |flows| && flows[i].to < |graph|
    requires a.merge(flows[i].state, b, states[flows[i].to], flows[i].to) == Ok(m)
    ensures var d := flows[i].to;
            var changed := m != states[d];
            && Visiting(a, o, graph, states[d := m], Grown(dirty, d, changed), Requeued(dirty, queue, d, changed),
                        visited, b, flows, i + 1)
            && (Noticed(a, states, queue, visited) ==>
                  Noticed(a, states[d := m], Requeued(dirty, queue, d, changed), visited))
  {
    hide Sends, Settled, Arrived;
    var d := flows[i].to;
    var changed := m != states[d];
    var queue' := Requeued(dirty, queue, d, changed);
    assert JoinsAt(a, o, flows[i].state, b, states[d], d, m);
    assert changed ==> d in queue';
    assert forall x :: x in queue ==> x in queue';
    forall x | x in visited && x != b
      ensures Done(a, o, graph, states[d := m], queue', x)
    {
      assert Done(a, o, graph, states, queue, x);
      if x !in queue' {
        SettledStays(a, o, graph, states, d, m, x);
      }
    }
    if b !in queue' {
      ArrivedStays(a, o, states, flows, i, d, m);
    }
  }

  // ----- what solutions force -----

  lemma SendsAreDue<S(!new), E(!new)>(a: Analysis<S, E>, o: Order<S>, graph: seq<Block>, initial: seq<S>, states: seq<S>, b: nat)
    requires IsOrder(o) && Lowest(a, o, graph, initial, states) && b < |graph| == |states|
    ensures Sends(a, graph, b, states[b]).Ok? ==>
              forall i :: 0 <= i < |Sends(a, graph, b, states[b]).value| ==>
                Due(a, o, graph, initial, Sends(a, graph, b, states[b]).value[i])
    ensures Sends(a, graph, b, states[b]).Err? && Monotone(a, o) ==> Unsolvable(a, o, graph, initial)
  {
    hide Sends, Monotone;
    if Monotone(a, o) {
      forall t | Solution(a, o, graph, initial, t)
        ensures Sends(a, graph, b, states[b]).Ok?
        ensures forall i :: 0 <= i < |Sends(a, graph, b, states[b]).value| ==>
                  var flow := Sends(a, graph, b, states[b]).value[i];
                  flow.to < |t| && o.leq(flow.state, t[flow.to])
      {
        SendsBelow(a, o, graph, initial, states, t, b);
      }
    }
  }

  lemma SendsBelow<S(!new), E(!new)>(a: Analysis<S, E>, o: Order<S>, graph: seq<Block>, initial: seq<S>, states: seq<S>,
                                     t: seq<S>, b: nat)
    requires IsOrder(o) && Monotone(a, o) && Below(o, states, t) && Solution(a, o, graph, initial, t)
    requires b < |graph| == |states|
    ensures Sends(a, graph, b, states[b]).Ok?
    ensures forall i :: 0 <= i < |Sends(a, graph, b, states[b]).value| ==>
              var flow := Sends(a, graph, b, states[b]).value[i];
              flow.to < |t| && o.leq(flow.state, t[flow.to])
  {
    hide Sends, Monotone;
    assert Settled(a, o, graph, t, b);
    SendsMonotone(a, o, graph, b, states[b], t[b]);
  }

  lemma MergeStaysLowest<S(!new), E(!new)>(a: Analysis<S, E>, o: Order<S>, graph: seq<Block>, initial: seq<S>, states: seq<S>,
                                           flow: Arrival<S>, from: nat)
    requires Semilattice(a, o) && Lowest(a, o, graph, initial, states) && |states| == |graph|
    requires flow.to < |states| && Due(a, o, graph, initial, flow)
    ensures match a.merge(flow.state, from, states[flow.to], flow.to)
            case Err(_) => Monotone(a, o) ==> Unsolvable(a, o, graph, initial)
            case Ok(m) => Lowest(a, o, graph, initial, states[flow.to := m]) && o.leq(states[flow.to], m)
  {
    hide Monotone, Solution;
    var d := flow.to;
    var merged := a.merge(flow.state, from, states[d], d);
    if merged.Ok? {
      assert JoinsAt(a, o, flow.state, from, states[d], d, merged.value);
    }
    if Monotone(a, o) {
      forall t | Solution(a, o, graph, initial, t)
        ensures merged.Ok? && Below(o, states[d := merged.value], t)
      {
        assert Below(o, states, t);
        assert JoinsAt(a, o, flow.state, from, states[d], d, t[d]);
      }
    }
  }

  // ----- termination -----

  function TotalRank<S>(o: Order<S>, states: seq<S>): nat {
    if states == [] then 0 else TotalRank(o, states[..|states| - 1]) + o.rank(states[|states| - 1])
  }

  lemma {:induction false} RankDrops<S>(o: Order<S>, states: seq<S>, d: nat, m: S)
    requires d < |states| && o.rank(m) < o.rank(states[d])
    ensures TotalRank(o, states[d := m]) < TotalRank(o, states)
  {
    var last := |states| - 1;
    if d < last {
      assert states[d := m][..last] == states[..last][d := m];
      RankDrops(o, states[..last], d, m);
    } else {
      assert states[d := m][..last] == states[..last];
    }
  }
}
