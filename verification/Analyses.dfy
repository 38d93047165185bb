/** Forward data flow analyses over the block graph (dolang-compile/src/flow.rs): what an
    analysis supplies, what is asked of it, and what its solutions are. */
module Analyses {

  import opened Results
  import B = Bytecode
  import opened FlowGraphs

  /** What an analysis supplies: the state nothing has reached, the effect of an
      instruction and of a terminator, the states sent to the two successors of a
      branch, and how a state is merged into that of a block. */
  datatype Analysis<!S, !E> = Analysis(
    neutral: S,
    inst: (S, nat, nat) -> Result<S, E>,
    term: (S, nat) -> Result<S, E>,
    fork: (S, nat, nat, nat) -> Result<(S, S), E>,
    merge: (S, nat, S, nat) -> Result<S, E>)

  /** An order on states, and a bound on how often a state can grow. */
  datatype Order<!S> = Order(leq: (S, S) -> bool, rank: S -> nat)

  datatype Arrival<S> = Arrival(to: nat, state: S)

  // ----- the transfer of a block -----

  /** The state after the first `k` instructions of a block. */
  function AfterInsts<S, E>(a: Analysis<S, E>, id: nat, k: nat, s: S): Result<S, E> {
    if k == 0 then Ok(s)
    else
      match AfterInsts(a, id, k - 1, s)
      case Err(e) => Err(e)
      case Ok(mid) => a.inst(mid, id, k - 1)
  }

  function AfterBlock<S, E>(a: Analysis<S, E>, graph: seq<Block>, id: nat, s: S): Result<S, E>
    requires id < |graph|
  {
    match AfterInsts(a, id, |graph[id].insts|, s)
    case Err(e) => Err(e)
    case Ok(mid) => a.term(mid, id)
  }

  function FlowsOf<S, E>(a: Analysis<S, E>, term: Term, id: nat, out: S): Result<seq<Arrival<S>>, E> {
    match term
    case Branch(to) => Ok([Arrival(to, out)])
    case If(yes, no) => Forked(a, id, yes, no, out)
    case UnpackIf(_, yes, no) => Forked(a, id, yes, no, out)
    case _ => Ok([])
  }

  function Forked<S, E>(a: Analysis<S, E>, id: nat, yes: nat, no: nat, out: S): Result<seq<Arrival<S>>, E> {
    match a.fork(out, id, yes, no)
    case Err(e) => Err(e)
    case Ok((s, t)) => Ok([Arrival(yes, s), Arrival(no, t)])
  }

  /** What a block in state `s` sends to its successors. */
  function Sends<S, E>(a: Analysis<S, E>, graph: seq<Block>, id: nat, s: S): Result<seq<Arrival<S>>, E>
    requires id < |graph|
  {
    match AfterBlock(a, graph, id, s)
    case Err(e) => Err(e)
    case Ok(out) => FlowsOf(a, graph[id].term, id, out)
  }

  lemma SendsWithin<S, E>(a: Analysis<S, E>, graph: seq<Block>, id: nat, s: S, i: nat)
    requires WellFormed(graph) && id < |graph| && Sends(a, graph, id, s).Ok? && i < |Sends(a, graph, id, s).value|
    ensures Sends(a, graph, id, s).value[i].to in Succs(graph[id].term)
    ensures Sends(a, graph, id, s).value[i].to < |graph|
  {
    var x, y := id, Sends(a, graph, id, s).value[i].to;
    assert y in Succs(graph[x].term);
  }

  // ----- what is asked of an analysis -----

  ghost predicate IsOrder<S(!new)>(o: Order<S>) {
    && (forall s :: o.leq(s, s))
    && (forall s, t, u :: o.leq(s, t) && o.leq(t, u) ==> o.leq(s, u))
    && (forall s, t :: o.leq(s, t) && o.leq(t, s) ==> s == t)
    && (forall s, t :: o.leq(s, t) && s != t ==> o.rank(t) < o.rank(s))
  }

  ghost predicate Bounds<S(!new)>(o: Order<S>, s: S, t: S, top: S) {
    o.leq(s, top) && o.leq(t, top)
  }

  /** Merging gives the least upper bound, and fails only if there is no upper bound. */
  ghost predicate JoinsAt<S(!new), E>(a: Analysis<S, E>, o: Order<S>, s: S, from: nat, t: S, to: nat, top: S) {
    match a.merge(s, from, t, to)
    case Err(_) => !Bounds(o, s, t, top)
    case Ok(m) => Bounds(o, s, t, m) && (Bounds(o, s, t, top) ==> o.leq(m, top))
  }

  ghost predicate Joins<S(!new), E>(a: Analysis<S, E>, o: Order<S>) {
    forall s, from, t, to, top :: JoinsAt(a, o, s, from, t, to, top)
  }

  /** A join-semilattice of finite height with the neutral state at the bottom. */
  ghost predicate Semilattice<S(!new), E>(a: Analysis<S, E>, o: Order<S>) {
    && IsOrder(o)
    && Joins(a, o)
    && forall s :: o.leq(a.neutral, s)
  }

  /** A lower state is accepted wherever a higher one is, with a lower result. */
  ghost predicate Monotone<S(!new), E(!new)>(a: Analysis<S, E>, o: Order<S>) {
    && (forall s, t, id, i :: o.leq(s, t) && a.inst(t, id, i).Ok? ==>
          a.inst(s, id, i).Ok? && o.leq(a.inst(s, id, i).value, a.inst(t, id, i).value))
    && (forall s, t, id :: o.leq(s, t) && a.term(t, id).Ok? ==>
          a.term(s, id).Ok? && o.leq(a.term(s, id).value, a.term(t, id).value))
    && (forall s, t, id, y, n :: o.leq(s, t) && a.fork(t, id, y, n).Ok? ==>
          && a.fork(s, id, y, n).Ok?
          && o.leq(a.fork(s, id, y, n).value.0, a.fork(t, id, y, n).value.0)
          && o.leq(a.fork(s, id, y, n).value.1, a.fork(t, id, y, n).value.1))
  }

  /** Merging leaves a state as it is exactly if the state is already above what is merged. */
  lemma MergeUnchanged<S(!new), E>(a: Analysis<S, E>, o: Order<S>, s: S, from: nat, t: S, to: nat)
    requires Semilattice(a, o)
    ensures a.merge(s, from, t, to) == Ok(t) <==> o.leq(s, t)
  {
    assert JoinsAt(a, o, s, from, t, to, t);
  }

  lemma {:induction false} InstsMonotone<S(!new), E(!new)>(a: Analysis<S, E>, o: Order<S>, id: nat, k: nat, s: S, t: S)
    requires Monotone(a, o) && o.leq(s, t) && AfterInsts(a, id, k, t).Ok?
    ensures AfterInsts(a, id, k, s).Ok? && o.leq(AfterInsts(a, id, k, s).value, AfterInsts(a, id, k, t).value)
  {
    if k > 0 {
      InstsMonotone(a, o, id, k - 1, s, t);
    }
  }

  lemma SendsMonotone<S(!new), E(!new)>(a: Analysis<S, E>, o: Order<S>, graph: seq<Block>, id: nat, s: S, t: S)
    requires Monotone(a, o) && id < |graph| && o.leq(s, t) && Sends(a, graph, id, t).Ok?
    ensures Sends(a, graph, id, s).Ok? && |Sends(a, graph, id, s).value| == |Sends(a, graph, id, t).value|
    ensures forall i :: 0 <= i < |Sends(a, graph, id, s).value| ==>
              && Sends(a, graph, id, s).value[i].to == Sends(a, graph, id, t).value[i].to
              && o.leq(Sends(a, graph, id, s).value[i].state, Sends(a, graph, id, t).value[i].state)
  {
    InstsMonotone(a, o, id, |graph[id].insts|, s, t);
  }

  // ----- solutions -----

  /** What block `b` sends is below the states of its successors. */
  ghost predicate Settled<S(!new), E>(a: Analysis<S, E>, o: Order<S>, graph: seq<Block>, states: seq<S>, b: nat)
    requires b < |graph| == |states|
  {
    && Sends(a, graph, b, states[b]).Ok?
    && forall i :: 0 <= i < |Sends(a, graph, b, states[b]).value| ==>
         var flow := Sends(a, graph, b, states[b]).value[i];
         flow.to < |states| && o.leq(flow.state, states[flow.to])
  }

  ghost predicate Below<S(!new)>(o: Order<S>, s: seq<S>, t: seq<S>) {
    |s| == |t| && forall b :: 0 <= b < |s| ==> o.leq(s[b], t[b])
  }

  /** States that are above the initial ones, and at which every block is settled. */
  ghost predicate Solution<S(!new), E>(a: Analysis<S, E>, o: Order<S>, graph: seq<Block>, initial: seq<S>, t: seq<S>) {
    && |t| == |graph|
    && Below(o, initial, t)
    && forall b :: 0 <= b < |t| ==> Settled(a, o, graph, t, b)
  }

  /** The states before the first block is visited: of a block listed twice, the last one given. */
  function Seeded<S>(states: seq<S>, init: seq<(nat, S)>): (r: seq<S>)
    requires forall i :: 0 <= i < |init| ==> init[i].0 < |states|
    ensures |r| == |states|
  {
    if init == [] then states
    else
      var last := init[|init| - 1];
      Seeded(states, init[..|init| - 1])[last.0 := last.1]
  }

  function Listed<S>(init: seq<(nat, S)>): (r: seq<nat>)
    ensures |r| == |init| && forall i :: 0 <= i < |r| ==> r[i] == init[i].0
  {
    seq(|init|, i requires 0 <= i < |init| => init[i].0)
  }
}
