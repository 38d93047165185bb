/** The engine itself (dolang-compile/src/flow.rs, `Flow`), and what its runs end in. */
module FlowEngines {

  import opened Results
  import opened FlowGraphs
  import opened Analyses
  import opened Forwarding

  /** Merging what block `b` sends into each successor changes nothing. */
  ghost predicate FixedAt<S(!new), E(!new)>(a: Analysis<S, E>, graph: seq<Block>, states: seq<S>, b: nat)
    requires b < |graph| == |states|
  {
    && Sends(a, graph, b, states[b]).Ok?
    && forall i :: 0 <= i < |Sends(a, graph, b, states[b]).value| ==>
         var flow := Sends(a, graph, b, states[b]).value[i];
         flow.to < |states| && a.merge(flow.state, b, states[flow.to], flow.to) == Ok(states[flow.to])
  }

  lemma SettledIsFixed<S(!new), E(!new)>(a: Analysis<S, E>, o: Order<S>, graph: seq<Block>, states: seq<S>, b: nat)
    requires Semilattice(a, o) && b < |graph| == |states|
    ensures Settled(a, o, graph, states, b) <==> FixedAt(a, graph, states, b)
  {
    hide Sends, Semilattice;
    if Sends(a, graph, b, states[b]).Ok? {
      var flows := Sends(a, graph, b, states[b]).value;
      forall i | 0 <= i < |flows| && flows[i].to < |states|
        ensures a.merge(flows[i].state, b, states[flows[i].to], flows[i].to) == Ok(states[flows[i].to])
                <==> o.leq(flows[i].state, states[flows[i].to])
      {
        MergeUnchanged(a, o, flows[i].state, b, states[flows[i].to], flows[i].to);
      }
    }
  }

  /** Every block that was given a state or has come to differ from the neutral one has
      been visited, and no visited block has anything left to send. */
  ghost predicate FixedPoint<S(!new), E(!new)>(a: Analysis<S, E>, graph: seq<Block>, init: seq<(nat, S)>,
                                               states: seq<S>, visited: set<nat>) {
    && |states| == |graph|
    && (forall i :: 0 <= i < |init| ==> init[i].0 in visited)
    && (forall b :: 0 <= b < |states| && states[b] != a.neutral ==> b in visited)
    && (forall b :: b in visited ==> b < |graph| && FixedAt(a, graph, states, b))
  }

  function Blank<S>(neutral: S, n: nat): (r: seq<S>)
    ensures |r| == n && forall i :: 0 <= i < n ==> r[i] == neutral
  {
    seq(n, _ => neutral)
  }

  function Clean(n: nat): (r: seq<bool>)
    ensures |r| == n && forall i :: 0 <= i < n ==> !r[i]
  {
    seq(n, _ => false)
  }

  ghost predicate InRange<S>(graph: seq<Block>, init: seq<(nat, S)>) {
    forall i :: 0 <= i < |init| ==> init[i].0 < |graph|
  }

  lemma {:induction false} SeededNoticed<S(!new), E(!new)>(a: Analysis<S, E>, n: nat, init: seq<(nat, S)>, b: nat)
    requires forall i :: 0 <= i < |init| ==> init[i].0 < n
    requires b < n && Seeded(Blank(a.neutral, n), init)[b] != a.neutral
    ensures b in Listed(init)
  {
    var k := |init| - 1;
    if k >= 0 {
      if init[k].0 == b {
        assert Listed(init)[k] == b;
      } else {
        SeededNoticed(a, n, init[..k], b);
        var j :| 0 <= j < k && Listed(init[..k])[j] == b;
        assert Listed(init)[j] == b;
      }
    }
  }

  lemma {:induction false} BeginForward<S(!new), E(!new)>(a: Analysis<S, E>, o: Order<S>, graph: seq<Block>, init: seq<(nat, S)>)
    requires Semilattice(a, o) && InRange(graph, init)
    ensures var states := Seeded(Blank(a.neutral, |graph|), init);
            && Working(a, o, graph, states, Clean(|graph|), Listed(init), {})
            && Noticed(a, states, Listed(init), {})
            && Lowest(a, o, graph, states, states)
  {
    var states := Seeded(Blank(a.neutral, |graph|), init);
    forall b | 0 <= b < |states| && states[b] != a.neutral
      ensures b in Listed(init)
    {
      SeededNoticed(a, |graph|, init, b);
    }
    assert Below(o, states, states);
  }

  lemma EndForward<S(!new), E(!new)>(a: Analysis<S, E>, o: Order<S>, graph: seq<Block>, init: seq<(nat, S)>, states: seq<S>,
                                     dirty: seq<bool>, visited: set<nat>)
    requires Semilattice(a, o) && InRange(graph, init)
    requires Working(a, o, graph, states, dirty, [], visited) && Noticed(a, states, [], visited)
    requires forall i :: 0 <= i < |init| ==> init[i].0 in visited
    ensures FixedPoint(a, graph, init, states, visited)
  {
    hide Semilattice, Settled, FixedAt;
    forall b | b in visited
      ensures b < |graph| && FixedAt(a, graph, states, b)
    {
      assert Done(a, o, graph, states, [], b);
      SettledIsFixed(a, o, graph, states, b);
    }
  }

  /** If the neutral state sends only neutral states, what a run ends in solves every
      block's equations, and is the least that does. */
  lemma FixedPointIsLeast<S(!new), E(!new)>(a: Analysis<S, E>, o: Order<S>, graph: seq<Block>, init: seq<(nat, S)>,
                                            initial: seq<S>, states: seq<S>, visited: set<nat>)
    requires Semilattice(a, o) && Monotone(a, o) && WellFormed(graph)
    requires FixedPoint(a, graph, init, states, visited) && Lowest(a, o, graph, initial, states)
    requires forall b :: 0 <= b < |graph| ==>
               && Sends(a, graph, b, a.neutral).Ok?
               && forall i :: 0 <= i < |Sends(a, graph, b, a.neutral).value| ==>
                    Sends(a, graph, b, a.neutral).value[i].state == a.neutral
    ensures Solution(a, o, graph, initial, states)
    ensures forall t :: Solution(a, o, graph, initial, t) ==> Below(o, states, t)
  {
    hide Sends, Monotone;
    forall b | 0 <= b < |states|
      ensures Settled(a, o, graph, states, b)
    {
      if b in visited {
        SettledIsFixed(a, o, graph, states, b);
      } else if Sends(a, graph, b, states[b]).Ok? {
        var flows := Sends(a, graph, b, states[b]).value;
        forall i | 0 <= i < |flows|
          ensures flows[i].to < |states|
        {
          SendsWithin(a, graph, b, states[b], i);
        }
      }
    }
  }

  class FlowEngine<S(==,!new), E(!new)> {
    const graph: seq<Block>
    const analysis: Analysis<S, E>
    const states: array<S>
    const dirty: array<bool>

    constructor (graph: seq<Block>, analysis: Analysis<S, E>)
      ensures this.graph == graph && this.analysis == analysis && Valid()
      ensures fresh(states) && fresh(dirty)
      ensures states[..] == Blank(analysis.neutral, |graph|) && dirty[..] == Clean(|graph|)
    {
      this.graph, this.analysis := graph, analysis;
      states := new S[|graph|](_ => analysis.neutral);
      dirty := new bool[|graph|](_ => false);
      new;
      assert states[..] == Blank(analysis.neutral, |graph|);
      assert dirty[..] == Clean(|graph|);
    }

    ghost predicate Valid() {
      states.Length == dirty.Length == |graph| && (states as object) != (dirty as object)
    }

    // The state after a block's instructions and terminator.
    method StepBlock(id: nat, state: S) returns (r: Result<S, E>)
      requires Valid() && id < |graph|
      ensures r == AfterBlock(analysis, graph, id, state)
    {
      var s := state;
      for i := 0 to |graph[id].insts|
        invariant AfterInsts(analysis, id, i, state) == Ok(s)
      {
        var after := analysis.inst(s, id, i);
        if after.Err? {
          ErrorStays(analysis, id, i + 1, |graph[id].insts|, state);
          return after;
        }
        s := after.value;
      }
      r := analysis.term(s, id);
    }

    // Merges a state into that of a block; whether the block must be queued.
    method Merge(from: nat, to: nat, state: S) returns (r: Result<bool, E>)
      requires Valid() && to < |graph|
      modifies states, dirty
      ensures match analysis.merge(state, from, old(states[to]), to)
              case Err(e) => r == Err(e) && states[..] == old(states[..]) && dirty[..] == old(dirty[..])
              case Ok(m) =>
                var changed := m != old(states[to]);
                && r == Ok(changed && !old(dirty[to]))
                && states[..] == old(states[..])[to := m]
                && dirty[..] == Grown(old(dirty[..]), to, changed)
    {
      var merged := analysis.merge(state, from, states[to], to);
      match merged
      case Err(e) => return Err(e);
      case Ok(m) =>
        if m != states[to] {
          var was := dirty[to];
          states[to] := m;
          dirty[to] := true;
          return Ok(!was);
        }
        assert states[..] == states[..][to := m];
        return Ok(false);
    }

    /** A step of a visit: the state, bits and queue hold up, and either a state has grown
        or nothing has changed. */
    ghost predicate Progress(o: Order<S>, initial: seq<S>, queue: seq<nat>, visited: set<nat>)
      reads states, dirty
    {
      && Valid()
      && Noticed(analysis, states[..], queue, visited)
      && Lowest(analysis, o, graph, initial, states[..])
    }

    // Sends flow `i` of the block being visited.
    method Send(from: nat, flows: seq<Arrival<S>>, i: nat, queue: seq<nat>, ghost o: Order<S>,
                ghost initial: seq<S>, ghost visited: set<nat>) returns (r: Result<seq<nat>, E>)
      requires Semilattice(analysis, o) && Progress(o, initial, queue, visited)
      requires Visiting(analysis, o, graph, states[..], dirty[..], queue, visited, from, flows, i)
      requires i < |flows| && flows[i].to < |graph| && Due(analysis, o, graph, initial, flows[i])
      modifies states, dirty
      ensures r.Err? && Monotone(analysis, o) ==> Unsolvable(analysis, o, graph, initial)
      ensures r.Ok? ==>
                && Progress(o, initial, r.value, visited)
                && Visiting(analysis, o, graph, states[..], dirty[..], r.value, visited, from, flows, i + 1)
                && queue <= r.value
                && (|| TotalRank(o, states[..]) < TotalRank(o, old(states[..]))
                    || (states[..] == old(states[..]) && r.value == queue))
    {
      hide Semilattice, Monotone, Visiting, Lowest, Noticed, Due, Unsolvable;
      var to, state := flows[i].to, flows[i].state;
      ghost var s0, d0 := states[..], dirty[..];
      MergeStaysLowest(analysis, o, graph, initial, s0, flows[i], from);
      var queueIt := Merge(from, to, state);
      if queueIt.Err? {
        return Err(queueIt.error);
      }
      ghost var m := states[to];
      MergeKeeps(analysis, o, graph, s0, d0, queue, visited, from, flows, i, m);
      RankFalls(analysis, o, s0, to, m);
      r := Ok(if queueIt.value then queue + [to] else queue);
    }

    // Sends everything a block sends: nothing, one flow, or two.
    method SendAll(from: nat, flows: seq<Arrival<S>>, queue: seq<nat>, ghost o: Order<S>,
                   ghost initial: seq<S>, ghost visited: set<nat>) returns (r: Result<seq<nat>, E>)
      requires Semilattice(analysis, o) && Progress(o, initial, queue, visited)
      requires Visiting(analysis, o, graph, states[..], dirty[..], queue, visited, from, flows, 0)
      requires forall i :: 0 <= i < |flows| ==> flows[i].to < |graph| && Due(analysis, o, graph, initial, flows[i])
      modifies states, dirty
      ensures r.Err? && Monotone(analysis, o) ==> Unsolvable(analysis, o, graph, initial)
      ensures r.Ok? ==>
                && Progress(o, initial, r.value, visited)
                && Working(analysis, o, graph, states[..], dirty[..], r.value, visited)
                && (|| TotalRank(o, states[..]) < TotalRank(o, old(states[..]))
                    || (states[..] == old(states[..]) && r.value == queue))
                && queue <= r.value
    {
      hide Semilattice, Monotone, Visiting, Lowest, Noticed, Due, Unsolvable, Working, TotalRank;
      var rest := queue;
      for i := 0 to |flows|
        invariant Progress(o, initial, rest, visited)
        invariant Visiting(analysis, o, graph, states[..], dirty[..], rest, visited, from, flows, i)
        invariant queue <= rest
        invariant || TotalRank(o, states[..]) < TotalRank(o, old(states[..]))
                  || (states[..] == old(states[..]) && rest == queue)
      {
        var sent := Send(from, flows, i, rest, o, initial, visited);
        if sent.Err? {
          return sent;
        }
        rest := sent.value;
      }
      EndVisit(analysis, o, graph, states[..], dirty[..], rest, visited, from, flows);
      r := Ok(rest);
    }

    // What a block sends to its successors.
    method Outgoing(id: nat) returns (r: Result<seq<Arrival<S>>, E>)
      requires Valid() && id < |graph|
      ensures r == Sends(analysis, graph, id, states[id])
    {
      hide AfterBlock;
      var out := StepBlock(id, states[id]);
      if out.Err? {
        return Err(out.error);
      }
      match graph[id].term
      case Branch(to) => return Ok([Arrival(to, out.value)]);
      case If(yes, no) => r := ForkTo(id, yes, no, out.value);
      case UnpackIf(_, yes, no) => r := ForkTo(id, yes, no, out.value);
      case _ => return Ok([]);
    }

    method ForkTo(id: nat, yes: nat, no: nat, out: S) returns (r: Result<seq<Arrival<S>>, E>)
      ensures r == Forked(analysis, id, yes, no, out)
    {
      var forked := analysis.fork(out, id, yes, no);
      match forked
      case Err(e) => return Err(e);
      case Ok((s, t)) => return Ok([Arrival(yes, s), Arrival(no, t)]);
    }

    // Visits the block that was queued last.
    method VisitLast(queue: seq<nat>, ghost o: Order<S>, ghost initial: seq<S>, ghost visited: set<nat>)
      returns (r: Result<seq<nat>, E>)
      requires Semilattice(analysis, o) && WellFormed(graph) && Progress(o, initial, queue, visited) && |queue| > 0
      requires Working(analysis, o, graph, states[..], dirty[..], queue, visited)
      modifies states, dirty
      ensures r.Err? && Monotone(analysis, o) ==> Unsolvable(analysis, o, graph, initial)
      ensures r.Ok? ==>
                && Progress(o, initial, r.value, visited + {queue[|queue| - 1]})
                && Working(analysis, o, graph, states[..], dirty[..], r.value, visited + {queue[|queue| - 1]})
                && queue[..|queue| - 1] <= r.value
                && (|| TotalRank(o, states[..]) < TotalRank(o, old(states[..]))
                    || (states[..] == old(states[..]) && |r.value| < |queue|))
    {
      hide Monotone, Visiting, Lowest, Noticed, Due, Unsolvable, Sends, Settled, TotalRank, Joins;
      var id := queue[|queue| - 1];
      assert id in queue;
      ghost var s0, d0 := states[..], dirty[..];
      dirty[id] := false;
      assert dirty[..] == d0[id := false];
      SendsAreDue(analysis, o, graph, initial, s0, id);
      var flows := Outgoing(id);
      if flows.Err? {
        return Err(flows.error);
      }
      forall i | 0 <= i < |flows.value|
        ensures flows.value[i].to < |graph|
      {
        SendsWithin(analysis, graph, id, s0[id], i);
      }
      BeginVisit(analysis, o, graph, s0, d0, queue, visited, flows.value);
      r := SendAll(id, flows.value, queue[..|queue| - 1], o, initial, visited + {id});
    }

    // Gives blocks their initial states and queues them.
    method Seed(init: seq<(nat, S)>) returns (queue: seq<nat>)
      requires Valid() && InRange(graph, init)
      modifies states
      ensures states[..] == Seeded(old(states[..]), init) && queue == Listed(init)
    {
      queue := [];
      for i := 0 to |init|
        invariant states[..] == Seeded(old(states[..]), init[..i]) && queue == Listed(init[..i])
      {
        assert init[..i + 1][..i] == init[..i];
        states[init[i].0] := init[i].1;
        queue := queue + [init[i].0];
      }
      assert init[..|init|] == init;
    }

    /** Runs the analysis to a fixed point. For a monotone analysis, the fixed point is
        below every solution, and an error means that there is none. */
    method Forward(init: seq<(nat, S)>, ghost o: Order<S>) returns (error: Option<E>)
      requires Valid() && Semilattice(analysis, o) && WellFormed(graph) && InRange(graph, init)
      requires states[..] == Blank(analysis.neutral, |graph|) && dirty[..] == Clean(|graph|)
      modifies states, dirty
      ensures error == None ==>
                && Lowest(analysis, o, graph, Seeded(Blank(analysis.neutral, |graph|), init), states[..])
                && exists visited :: FixedPoint(analysis, graph, init, states[..], visited)
      ensures error.Some? && Monotone(analysis, o) ==>
                Unsolvable(analysis, o, graph, Seeded(Blank(analysis.neutral, |graph|), init))
    {
      hide Semilattice, Monotone, Lowest, Noticed, Unsolvable, Working, TotalRank, FixedPoint;
      ghost var initial := Seeded(Blank(analysis.neutral, |graph|), init);
      BeginForward(analysis, o, graph, init);
      var queue := Seed(init);
      ghost var visited: set<nat> := {};
      while |queue| > 0
        invariant Progress(o, initial, queue, visited)
        invariant Working(analysis, o, graph, states[..], dirty[..], queue, visited)
        invariant forall i :: 0 <= i < |init| ==> init[i].0 in visited || init[i].0 in queue
        decreases TotalRank(o, states[..]), |queue|
      {
        ghost var before := queue;
        var next := VisitLast(queue, o, initial, visited);
        if next.Err? {
          return Some(next.error);
        }
        visited := visited + {before[|before| - 1]};
        queue := next.value;
        QueueStays(before, queue, visited);
      }
      assert queue == [];
      EndForward(analysis, o, graph, init, states[..], dirty[..], visited);
      return None;
    }
  }

  lemma QueueStays(before: seq<nat>, queue: seq<nat>, visited: set<nat>)
    requires |before| > 0 && before[..|before| - 1] <= queue && before[|before| - 1] in visited
    ensures forall b :: b in before ==> b in visited || b in queue
  {
    forall b | b in before && b !in visited
      ensures b in queue
    {
      var k :| 0 <= k < |before| && before[k] == b;
      assert queue[k] == before[..|before| - 1][k];
    }
  }

  lemma {:induction false} ErrorStays<S, E>(a: Analysis<S, E>, id: nat, k: nat, n: nat, s: S)
    requires k <= n && AfterInsts(a, id, k, s).Err?
    ensures AfterInsts(a, id, n, s) == AfterInsts(a, id, k, s)
  {
    if k < n {
      ErrorStays(a, id, k, n - 1, s);
    }
  }

  // A merge that changes a state uses up some of its rank.
  lemma RankFalls<S(!new), E(!new)>(a: Analysis<S, E>, o: Order<S>, states: seq<S>, d: nat, m: S)
    requires Semilattice(a, o) && d < |states| && o.leq(states[d], m)
    ensures m == states[d] ==> states[d := m] == states
    ensures m != states[d] ==> TotalRank(o, states[d := m]) < TotalRank(o, states)
  {
    if m != states[d] {
      RankDrops(o, states, d, m);
    }
  }
}
