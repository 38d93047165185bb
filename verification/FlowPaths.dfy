/** What a data flow solution says of control (dolang-compile/src/flow.rs): it is above what
    every path through the graph leads to, instruction by instruction. */
module FlowPaths {

  import opened Results
  import opened FlowGraphs
  import opened Analyses
  import opened FlowEngines
  import opened Forwarding

  /** How control leaves a block: by its only branch, or on success or failure of a condition. */
  datatype Way = Only | Yes | No

  datatype Place<S> = Place(block: nat, state: S)

  /** What instructions `i` to `n - 1` of a block make of a state, one after another. */
  function Through<S, E>(a: Analysis<S, E>, id: nat, i: nat, n: nat, s: S): Result<S, E>
    requires i <= n
    decreases n - i
  {
    if i == n then Ok(s)
    else
      match a.inst(s, id, i)
      case Err(e) => Err(e)
      case Ok(next) => Through(a, id, i + 1, n, next)
  }

  /** Where control gets to from a block, and with which state, unless the analysis fails or
      there is no such way. */
  function Leave<S, E>(a: Analysis<S, E>, graph: seq<Block>, id: nat, s: S, way: Way): Option<Place<S>>
    requires id < |graph|
  {
    match Through(a, id, 0, |graph[id].insts|, s)
    case Err(_) => None
    case Ok(mid) =>
      match a.term(mid, id)
      case Err(_) => None
      case Ok(out) =>
        match graph[id].term
        case Branch(to) => if way == Only then Some(Place(to, out)) else None
        case If(yes, no) => Fork(a, id, yes, no, out, way)
        case UnpackIf(_, yes, no) => Fork(a, id, yes, no, out, way)
        case _ => None
  }

  function Fork<S, E>(a: Analysis<S, E>, id: nat, yes: nat, no: nat, out: S, way: Way): Option<Place<S>> {
    match a.fork(out, id, yes, no)
    case Err(_) => None
    case Ok((onYes, onNo)) =>
      match way
      case Only => None
      case Yes => Some(Place(yes, onYes))
      case No => Some(Place(no, onNo))
  }

  /** Where a path leads, and what the analysis makes of a state along it. */
  function Walk<S, E>(a: Analysis<S, E>, graph: seq<Block>, id: nat, s: S, ways: seq<Way>): Option<Place<S>>
    decreases |ways|
  {
    if id >= |graph| then None
    else if ways == [] then Some(Place(id, s))
    else
      match Leave(a, graph, id, s, ways[0])
      case None => None
      case Some(next) => Walk(a, graph, next.block, next.state, ways[1..])
  }

  lemma {:induction false} ThroughFirst<S, E>(a: Analysis<S, E>, id: nat, i: nat, n: nat, s: S)
    requires i <= n && AfterInsts(a, id, i, s).Ok?
    ensures AfterInsts(a, id, n, s) == Through(a, id, i, n, AfterInsts(a, id, i, s).value)
    decreases n - i
  {
    if i < n {
      var mid := AfterInsts(a, id, i, s).value;
      assert AfterInsts(a, id, i + 1, s) == a.inst(mid, id, i);
      if a.inst(mid, id, i).Ok? {
        ThroughFirst(a, id, i + 1, n, s);
      } else {
        ErrorStays(a, id, i + 1, n, s);
      }
    }
  }

  // What leaves a block on some way is among what it sends.
  lemma LeaveIsSent<S, E>(a: Analysis<S, E>, graph: seq<Block>, id: nat, s: S, way: Way)
    requires id < |graph| && Leave(a, graph, id, s, way).Some?
    ensures var place := Leave(a, graph, id, s, way).value;
            && Sends(a, graph, id, s).Ok?
            && exists i :: 0 <= i < |Sends(a, graph, id, s).value|
                           && Sends(a, graph, id, s).value[i] == Arrival(place.block, place.state)
  {
    ThroughFirst(a, id, 0, |graph[id].insts|, s);
    var sent, place := Sends(a, graph, id, s).value, Leave(a, graph, id, s, way).value;
    assert sent[if way == No then 1 else 0] == Arrival(place.block, place.state);
  }

  // A solution is above what leaves a block from under it.
  lemma LeaveBelow<S(!new), E(!new)>(a: Analysis<S, E>, o: Order<S>, graph: seq<Block>, t: seq<S>, id: nat, s: S, way: Way)
    requires IsOrder(o) && Monotone(a, o) && id < |graph| == |t|
    requires Settled(a, o, graph, t, id) && o.leq(s, t[id]) && Leave(a, graph, id, s, way).Some?
    ensures var place := Leave(a, graph, id, s, way).value;
            place.block < |t| && o.leq(place.state, t[place.block])
  {
    hide Sends, Leave, Monotone;
    var place := Leave(a, graph, id, s, way).value;
    LeaveIsSent(a, graph, id, s, way);
    var i :| 0 <= i < |Sends(a, graph, id, s).value|
             && Sends(a, graph, id, s).value[i] == Arrival(place.block, place.state);
    SendsMonotone(a, o, graph, id, s, t[id]);
  }

  /** A solution is above what a state under it becomes along any path. */
  lemma {:induction false} PathsBelow<S(!new), E(!new)>(a: Analysis<S, E>, o: Order<S>, graph: seq<Block>,
                                                        initial: seq<S>, t: seq<S>, id: nat, s: S, ways: seq<Way>)
    requires IsOrder(o) && Monotone(a, o) && Solution(a, o, graph, initial, t)
    requires id < |t| && o.leq(s, t[id]) && Walk(a, graph, id, s, ways).Some?
    ensures var end := Walk(a, graph, id, s, ways).value;
            end.block < |t| && o.leq(end.state, t[end.block])
    decreases |ways|
  {
    hide Leave, Settled, Monotone;
    if ways != [] {
      var next := Leave(a, graph, id, s, ways[0]).value;
      LeaveBelow(a, o, graph, t, id, s, ways[0]);
      PathsBelow(a, o, graph, initial, t, next.block, next.state, ways[1..]);
    }
  }

  /** What the engine ends in is above what the analysis makes of the initial state of any
      block along any path from it, if the neutral state sends only neutral states. */
  lemma {:induction false} FinalAbovePaths<S(!new), E(!new)>(a: Analysis<S, E>, o: Order<S>, graph: seq<Block>,
                                                             init: seq<(nat, S)>, initial: seq<S>, states: seq<S>,
                                                             visited: set<nat>, id: nat, ways: seq<Way>)
    requires Semilattice(a, o) && Monotone(a, o) && WellFormed(graph)
    requires FixedPoint(a, graph, init, states, visited) && Lowest(a, o, graph, initial, states)
    requires forall b :: 0 <= b < |graph| ==>
               && Sends(a, graph, b, a.neutral).Ok?
               && forall i :: 0 <= i < |Sends(a, graph, b, a.neutral).value| ==>
                    Sends(a, graph, b, a.neutral).value[i].state == a.neutral
    requires id < |initial| && Walk(a, graph, id, initial[id], ways).Some?
    ensures var end := Walk(a, graph, id, initial[id], ways).value;
            end.block < |states| && o.leq(end.state, states[end.block])
  {
    hide Sends, Monotone, Walk;
    FixedPointIsLeast(a, o, graph, init, initial, states, visited);
    PathsBelow(a, o, graph, initial, states, id, initial[id], ways);
  }
}
