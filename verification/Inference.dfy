/** What the inference loop keeps true between merges, and why it stops. */
module Inference {

  import opened Results
  import opened Bytecode
  import opened Transfer
  import opened Graphs
  import opened Blocks
  import opened Solutions
  import opened Passes

  // ----- the invariant -----

  /** Live states list exactly the function's locals, sit on reachable blocks, and
      are below every solution. */
  ghost predicate States(ctx: Context, f: Func, states: seq<BlockState>) {
    && Contiguous(f.code) && |states| == |Starts(f)| && |states| > 0
    && states[0] == Entry(ctx, f)
    && (forall b :: 0 <= b < |states| ==>
          if states[b].Live? then |states[b].locals| == f.locals && Reachable(BlockGraph(f), 0, b)
          else states[b] == Neutral([], []))
    && BelowSolutions(ctx, f, states)
  }

  /** Queued blocks are live, marked ones are queued, and every other live block
      but `busy` is settled. */
  ghost predicate Queued(ctx: Context, f: Func, blocks: seq<Block>, queue: seq<nat>, busy: int)
    requires Contiguous(f.code) && |blocks| == |Starts(f)|
  {
    && (forall q :: q in queue ==> q < |blocks| && blocks[q].state.Live?)
    && (forall b :: 0 <= b < |blocks| && blocks[b].mark ==> b in queue)
    && (forall b :: 0 <= b < |blocks| && blocks[b].state.Live? && !blocks[b].mark && b != busy ==>
          Settled(ctx, f, StatesOf(blocks), b))
  }

  /** `seen` holds the state of each block's last visit; the recorded depth is the
      greatest that the entry or any of those visits saw. */
  ghost predicate Peaked(ctx: Context, f: Func, blocks: seq<Block>, seen: seq<BlockState>, peak: nat, busy: int)
    requires Contiguous(f.code) && |blocks| == |Starts(f)|
  {
    && |seen| == |blocks|
    && (forall b :: 0 <= b < |seen| ==>
          if seen[b].Live? then Leq(f.locals, seen[b], blocks[b].state) else seen[b] == Neutral([], []))
    && (forall b :: 0 <= b < |seen| && blocks[b].state.Live? && !blocks[b].mark && b != busy ==>
          seen[b] == blocks[b].state)
    && PeakIs(ctx, f, seen, peak)
  }

  ghost predicate Inferring(ctx: Context, f: Func, blocks: seq<Block>, queue: seq<nat>,
                            seen: seq<BlockState>, peak: nat, busy: int) {
    && BlocksPlaced(f, blocks)
    && States(ctx, f, StatesOf(blocks))
    && Queued(ctx, f, blocks, queue, busy)
    && Peaked(ctx, f, blocks, seen, peak, busy)
  }

  // ----- termination -----

  function ValueCount(locals: seq<LocalState>): nat {
    if locals == [] then 0
    else ValueCount(locals[..|locals| - 1]) + if locals[|locals| - 1] == Value then 1 else 0
  }

  lemma {:induction false} ValueCountBound(locals: seq<LocalState>)
    ensures ValueCount(locals) <= |locals|
  {
    if locals != [] {
      ValueCountBound(locals[..|locals| - 1]);
    }
  }

  // Turning values invalid lowers the count, unless nothing changes.
  lemma {:induction false} ValueCountDrops(a: seq<LocalState>, b: seq<LocalState>)
    requires |a| == |b|
    requires forall i :: 0 <= i < |a| && b[i] == Value ==> a[i] == Value
    ensures ValueCount(b) <= ValueCount(a)
    ensures a != b ==> ValueCount(b) < ValueCount(a)
  {
    if a != [] {
      var n := |a| - 1;
      ValueCountDrops(a[..n], b[..n]);
      assert a == a[..n] + [a[n]] && b == b[..n] + [b[n]];
    }
  }

  /** How far a state can still rise. */
  function Weight(n: nat, s: BlockState): nat {
    if s.Neutral? then n + 1 else ValueCount(s.locals)
  }

  function TotalWeight(n: nat, states: seq<BlockState>): nat {
    if states == [] then 0
    else TotalWeight(n, states[..|states| - 1]) + Weight(n, states[|states| - 1])
  }

  lemma {:induction false} TotalWeightUpdate(n: nat, states: seq<BlockState>, i: nat, s: BlockState)
    requires i < |states|
    ensures TotalWeight(n, states[i := s]) == TotalWeight(n, states) - Weight(n, states[i]) + Weight(n, s)
  {
    var last := |states| - 1;
    if i < last {
      assert states[i := s][..last] == states[..last][i := s];
      TotalWeightUpdate(n, states[..last], i, s);
    } else {
      assert states[i := s][..last] == states[..last];
    }
  }

  // A merge that changes a state makes a neutral one live or turns a value invalid.
  lemma MergeLowersWeight(n: nat, edge: BlockState, into: BlockState)
    requires edge.Live? && |edge.locals| == n && (into.Live? ==> |into.locals| == n)
    requires Merge(edge, into).Ok?
    ensures var m := Merge(edge, into).value;
            && m.Live? && |m.locals| == n
            && (into.Live? ==> Leq(n, into, m)) && Leq(n, edge, m)
            && Weight(n, m) <= Weight(n, into)
            && (m != into ==> Weight(n, m) < Weight(n, into))
  {
    var m := Merge(edge, into).value;
    ValueCountBound(m.locals);
    if into.Live? {
      MergeIsJoin(n, edge, into);
      ValueCountDrops(into.locals, m.locals);
    }
  }

  // ----- one merge -----

  /** The blocks after merging `edge` into block `to`, as inference does it: a
      changed block that is not marked becomes marked. */
  function Merged(blocks: seq<Block>, to: nat, m: BlockState): seq<Block>
    requires to < |blocks|
  {
    var prior := blocks[to];
    blocks[to := Block(prior.offset, prior.mark || m != prior.state, m)]
  }

  function Requeued(blocks: seq<Block>, queue: seq<nat>, to: nat, m: BlockState): seq<nat>
    requires to < |blocks|
  {
    if !blocks[to].mark && m != blocks[to].state then queue + [to] else queue
  }

  lemma MergedStates(blocks: seq<Block>, to: nat, m: BlockState)
    requires to < |blocks|
    ensures StatesOf(Merged(blocks, to, m)) == StatesOf(blocks)[to := m]
    ensures BlockKeys(Merged(blocks, to, m)) == BlockKeys(blocks)
  {
  }

  lemma EntryAbsorbs(ctx: Context, f: Func, edge: BlockState)
    requires edge.Live? && |edge.locals| == f.locals && Merge(edge, Entry(ctx, f)).Ok?
    ensures Merge(edge, Entry(ctx, f)).value == Entry(ctx, f)
  {
    var entry := Entry(ctx, f);
    assert MergeLocals(edge.locals, entry.locals) == entry.locals;
  }

  /** What a merge is given: a state every solution admits, arriving over an edge
      from a reachable block. */
  ghost predicate Arrives(ctx: Context, f: Func, to: nat, edge: BlockState)
    requires Contiguous(f.code)
  {
    && to < |Starts(f)| && edge.Live? && |edge.locals| == f.locals
    && Reachable(BlockGraph(f), 0, to)
    && Forced(ctx, f, to, edge)
  }

  lemma MergeKeepsStates(ctx: Context, f: Func, states: seq<BlockState>, to: nat, edge: BlockState)
    requires States(ctx, f, states) && Arrives(ctx, f, to, edge)
    ensures Merge(edge, states[to]).Err? ==> Unsolvable(ctx, f)
    ensures Merge(edge, states[to]).Ok? ==> States(ctx, f, states[to := Merge(edge, states[to]).value])
  {
    MergeForced(ctx, f, states, to, edge);
    if Merge(edge, states[to]).Ok? {
      MergeLowersWeight(f.locals, edge, states[to]);
      if to == 0 {
        EntryAbsorbs(ctx, f, edge);
      }
    }
  }

  lemma MergeKeepsQueue(ctx: Context, f: Func, blocks: seq<Block>, queue: seq<nat>, busy: int,
                        to: nat, edge: BlockState, m: BlockState)
    requires TargetsOk(f) && BlocksPlaced(f, blocks)
    requires States(ctx, f, StatesOf(blocks)) && Queued(ctx, f, blocks, queue, busy)
    requires Arrives(ctx, f, to, edge) && Merge(edge, blocks[to].state) == Ok(m)
    ensures Queued(ctx, f, Merged(blocks, to, m), Requeued(blocks, queue, to, m), busy)
  {
    hide Settled, States, Starts, Leq, Merge, Forced, Reachable, BlockGraph, TargetsOk;
    var after := Merged(blocks, to, m);
    MergedStates(blocks, to, m);
    MergedIsLive(f.locals, edge, blocks[to].state, m);
    var queue' := Requeued(blocks, queue, to, m);
    assert forall q :: q in queue' <==> q in queue || (q == to && !blocks[to].mark && m != blocks[to].state);
    forall b | 0 <= b < |after| && after[b].state.Live? && !after[b].mark && b != busy
      ensures Settled(ctx, f, StatesOf(after), b)
    {
      MergeKeepsSettled(ctx, f, blocks, to, edge, m, b);
    }
  }

  lemma MergedIsLive(n: nat, edge: BlockState, state: BlockState, m: BlockState)
    requires edge.Live? && Merge(edge, state) == Ok(m)
    ensures m.Live?
  {
  }

  // A state that does not change leaves its block settled, and one that rises leaves the others so.
  lemma MergeKeepsSettled(ctx: Context, f: Func, blocks: seq<Block>, to: nat, edge: BlockState, m: BlockState, b: nat)
    requires TargetsOk(f) && BlocksPlaced(f, blocks) && States(ctx, f, StatesOf(blocks))
    requires Arrives(ctx, f, to, edge) && Merge(edge, blocks[to].state) == Ok(m)
    requires b < |blocks| && (b == to ==> m == blocks[to].state)
    requires blocks[b].state.Live? && Settled(ctx, f, StatesOf(blocks), b)
    ensures Settled(ctx, f, StatesOf(blocks)[to := m], b)
  {
    hide Settled, Starts, BelowSolutions, Reachable, BlockGraph, Merge;
    var states := StatesOf(blocks);
    MergeLowersWeight(f.locals, edge, blocks[to].state);
    if b == to {
      assert states[to := m] == states;
    } else {
      SettledStays(ctx, f, states, to, m, b);
    }
  }

  lemma MergeKeepsPeak(ctx: Context, f: Func, blocks: seq<Block>, seen: seq<BlockState>, peak: nat, busy: int,
                       to: nat, edge: BlockState, m: BlockState)
    requires BlocksPlaced(f, blocks) && States(ctx, f, StatesOf(blocks))
    requires Peaked(ctx, f, blocks, seen, peak, busy)
    requires Arrives(ctx, f, to, edge) && Merge(edge, blocks[to].state) == Ok(m)
    ensures Peaked(ctx, f, Merged(blocks, to, m), seen, peak, busy)
  {
    assert StatesOf(blocks)[to] == blocks[to].state;
    MergeLowersWeight(f.locals, edge, blocks[to].state);
    if seen[to].Live? {
      LeqTransitive(f.locals, seen[to], blocks[to].state, m);
    }
  }

  // ----- one visit -----

  /** The first `i` flows out of the visited state `x` have been merged into the
      blocks they go to; the visited block is queued again if its own state rose. */
  ghost predicate Merging(f: Func, blocks: seq<Block>, bb: nat, x: BlockState, flows: seq<Flow>, i: nat) {
    && bb < |blocks| && i <= |flows|
    && (blocks[bb].mark || blocks[bb].state == x)
    && forall j :: 0 <= j < i ==>
         flows[j].to < |blocks| && Leq(f.locals, flows[j].state, blocks[flows[j].to].state)
  }

  lemma StartInferring(ctx: Context, f: Func, blocks: seq<Block>, start: seq<Block>, seen: seq<BlockState>)
    requires BlocksPlaced(f, blocks)
    requires forall b :: 0 <= b < |blocks| ==> !blocks[b].mark && blocks[b].state == Neutral([], [])
    requires start == blocks[0 := Block(blocks[0].offset, true, Entry(ctx, f))]
    requires seen == StatesOf(blocks)
    ensures Inferring(ctx, f, start, [0], seen, Entry(ctx, f).operands, -1)
  {
    var states := StatesOf(start);
    assert BlockKeys(start) == BlockKeys(blocks);
    ReachesItself(BlockGraph(f), 0);
    forall t | Solution(ctx, f, t)
      ensures Below(f.locals, states, t)
    {
      assert forall b :: 0 <= b < |states| && states[b].Live? ==> b == 0;
    }
  }

  // Taking the last block off the queue leaves it alone unaccounted for.
  lemma TakeBlock(ctx: Context, f: Func, blocks: seq<Block>, queue: seq<nat>, seen: seq<BlockState>, peak: nat)
    requires Inferring(ctx, f, blocks, queue, seen, peak, -1) && |queue| > 0
    ensures var bb := queue[|queue| - 1];
            && bb < |blocks| && blocks[bb].state.Live?
            && StatesOf(Unmark(blocks, bb)) == StatesOf(blocks)
            && Inferring(ctx, f, Unmark(blocks, bb), queue[..|queue| - 1], seen, peak, bb)
  {
    var bb := queue[|queue| - 1];
    assert bb in queue;
    assert StatesOf(Unmark(blocks, bb)) == StatesOf(blocks);
    assert BlockKeys(Unmark(blocks, bb)) == BlockKeys(blocks);
    TakeKeepsQueue(ctx, f, blocks, queue);
    TakeKeepsPeak(ctx, f, blocks, seen, peak, bb);
  }

  function Unmark(blocks: seq<Block>, bb: nat): seq<Block>
    requires bb < |blocks|
  {
    blocks[bb := Block(blocks[bb].offset, false, blocks[bb].state)]
  }

  lemma TakeKeepsQueue(ctx: Context, f: Func, blocks: seq<Block>, queue: seq<nat>)
    requires Contiguous(f.code) && |blocks| == |Starts(f)| && |queue| > 0
    requires Queued(ctx, f, blocks, queue, -1)
    ensures queue[|queue| - 1] < |blocks|
    ensures Queued(ctx, f, Unmark(blocks, queue[|queue| - 1]), queue[..|queue| - 1], queue[|queue| - 1])
  {
    var bb := queue[|queue| - 1];
    var rest := queue[..|queue| - 1];
    assert bb in queue;
    assert StatesOf(Unmark(blocks, bb)) == StatesOf(blocks);
    forall b | 0 <= b < |blocks| && Unmark(blocks, bb)[b].mark
      ensures b in rest
    {
      var k :| 0 <= k < |queue| && queue[k] == b;
      assert rest[k] == b;
    }
    forall q | q in rest
      ensures q in queue
    {
    }
  }

  lemma TakeKeepsPeak(ctx: Context, f: Func, blocks: seq<Block>, seen: seq<BlockState>, peak: nat, bb: nat)
    requires Contiguous(f.code) && |blocks| == |Starts(f)| && bb < |blocks|
    requires Peaked(ctx, f, blocks, seen, peak, -1)
    ensures Peaked(ctx, f, Unmark(blocks, bb), seen, peak, bb)
  {
  }

  // A visit that fails refutes every solution; one that succeeds sends on arriving states.
  lemma VisitArrives(ctx: Context, f: Func, blocks: seq<Block>, queue: seq<nat>, seen: seq<BlockState>,
                     peak: nat, bb: nat)
    requires SlotsOk(f) && TargetsOk(f) && Inferring(ctx, f, blocks, queue, seen, peak, bb)
    requires bb < |blocks| && blocks[bb].state.Live?
    ensures Visit(ctx, f, bb, blocks[bb].state).Err? ==> Unsolvable(ctx, f)
    ensures Visit(ctx, f, bb, blocks[bb].state).Ok? ==>
              var flows := FlowsFrom(ctx, f, bb, Visit(ctx, f, bb, blocks[bb].state).value);
              forall i :: 0 <= i < |flows| ==> Arrives(ctx, f, flows[i].to, flows[i].state)
  {
    var x := blocks[bb].state;
    assert StatesOf(blocks)[bb] == x;
    VisitForces(ctx, f, StatesOf(blocks), bb);
    if Visit(ctx, f, bb, x).Ok? {
      var out := Visit(ctx, f, bb, x).value;
      var flows := FlowsFrom(ctx, f, bb, out);
      FlowTargets(ctx, f, bb, out);
      forall i | 0 <= i < |flows|
        ensures Arrives(ctx, f, flows[i].to, flows[i].state)
      {
        assert BlockGraph(f)[bb] == Successors(f, bb);
        assert Edge(BlockGraph(f), bb, flows[i].to);
        ReachExtends(BlockGraph(f), 0, bb, flows[i].to);
      }
    }
  }

  lemma VisitKeepsPeak(ctx: Context, f: Func, blocks: seq<Block>, seen: seq<BlockState>, peak: nat, bb: nat)
    requires SlotsOk(f) && HasBlock(f, bb) && |blocks| == |Starts(f)|
    requires blocks[bb].state.Live? && f.locals <= |blocks[bb].state.locals|
    requires Peaked(ctx, f, blocks, seen, peak, bb)
    requires Visit(ctx, f, bb, blocks[bb].state).Ok?
    ensures Peaked(ctx, f, blocks, seen[bb := blocks[bb].state],
                   Max(peak, VisitPeak(ctx, f, bb, blocks[bb].state)), bb)
  {
    var x := blocks[bb].state;
    if seen[bb].Live? {
      VisitMonotone(ctx, f, bb, seen[bb], x);
    }
    PeakGrows(ctx, f, seen, peak, bb, x);
  }

  // Visiting a block again, or for the first time, updates the greatest depth.
  lemma PeakGrows(ctx: Context, f: Func, seen: seq<BlockState>, peak: nat, bb: nat, x: BlockState)
    requires HasBlock(f, bb) && |seen| == |Starts(f)| && x.Live?
    requires seen[bb].Live? ==> VisitPeak(ctx, f, bb, seen[bb]) == VisitPeak(ctx, f, bb, x)
    requires PeakIs(ctx, f, seen, peak)
    ensures PeakIs(ctx, f, seen[bb := x], Max(peak, VisitPeak(ctx, f, bb, x)))
  {
    var seen' := seen[bb := x];
    assert seen'[bb].Live?;
    if VisitPeak(ctx, f, bb, x) <= peak && peak != Entry(ctx, f).operands {
      var b :| 0 <= b < |seen| && seen[b].Live? && VisitPeak(ctx, f, b, seen[b]) == peak;
      assert seen'[b].Live? && VisitPeak(ctx, f, b, seen'[b]) == peak;
    }
  }

  lemma MergeKeepsMerging(f: Func, blocks: seq<Block>, bb: nat, x: BlockState,
                          flows: seq<Flow>, i: nat, m: BlockState)
    requires Merging(f, blocks, bb, x, flows, i) && i < |flows|
    requires flows[i].to < |blocks| && flows[i].state.Live? && |flows[i].state.locals| == f.locals
    requires blocks[flows[i].to].state.Live? ==> |blocks[flows[i].to].state.locals| == f.locals
    requires Merge(flows[i].state, blocks[flows[i].to].state) == Ok(m)
    ensures Merging(f, Merged(blocks, flows[i].to, m), bb, x, flows, i + 1)
  {
    var to := flows[i].to;
    MergeLowersWeight(f.locals, flows[i].state, blocks[to].state);
    var after := Merged(blocks, to, m);
    forall j | 0 <= j < i + 1
      ensures flows[j].to < |after| && Leq(f.locals, flows[j].state, after[flows[j].to].state)
    {
      if j < i && flows[j].to == to {
        LeqTransitive(f.locals, flows[j].state, blocks[to].state, m);
      }
    }
  }

  /** Either weight has been lost, or none has and the queue is as it was. */
  ghost predicate Progress(f: Func, blocks: seq<Block>, queue: seq<nat>, blocks': seq<Block>, queue': seq<nat>) {
    var before, after := TotalWeight(f.locals, StatesOf(blocks)), TotalWeight(f.locals, StatesOf(blocks'));
    after < before || (after == before && queue' == queue)
  }

  lemma VisitKeepsInferring(ctx: Context, f: Func, blocks: seq<Block>, queue: seq<nat>, seen: seq<BlockState>,
                            peak: nat, bb: nat)
    requires SlotsOk(f) && Inferring(ctx, f, blocks, queue, seen, peak, bb)
    requires bb < |blocks| && blocks[bb].state.Live?
    requires Visit(ctx, f, bb, blocks[bb].state).Ok?
    ensures Inferring(ctx, f, blocks, queue, seen[bb := blocks[bb].state],
                      Max(peak, VisitPeak(ctx, f, bb, blocks[bb].state)), bb)
  {
    assert StatesOf(blocks)[bb] == blocks[bb].state;
    VisitKeepsPeak(ctx, f, blocks, seen, peak, bb);
  }

  // One merge: a conflict refutes every solution; otherwise the invariant is kept,
  // and either weight is lost or nothing is queued.
  lemma MergeKeeps(ctx: Context, f: Func, blocks: seq<Block>, queue: seq<nat>, seen: seq<BlockState>, peak: nat,
                   bb: nat, x: BlockState, flows: seq<Flow>, i: nat)
    requires TargetsOk(f) && Inferring(ctx, f, blocks, queue, seen, peak, bb)
    requires Merging(f, blocks, bb, x, flows, i) && i < |flows|
    requires Arrives(ctx, f, flows[i].to, flows[i].state)
    ensures Merge(flows[i].state, blocks[flows[i].to].state).Err? ==> Unsolvable(ctx, f)
    ensures Merge(flows[i].state, blocks[flows[i].to].state).Ok? ==>
              var to := flows[i].to;
              var m := Merge(flows[i].state, blocks[to].state).value;
              && Inferring(ctx, f, Merged(blocks, to, m), Requeued(blocks, queue, to, m), seen, peak, bb)
              && Merging(f, Merged(blocks, to, m), bb, x, flows, i + 1)
              && Progress(f, blocks, queue, Merged(blocks, to, m), Requeued(blocks, queue, to, m))
  {
    var to, edge := flows[i].to, flows[i].state;
    var states := StatesOf(blocks);
    assert states[to] == blocks[to].state;
    MergeKeepsStates(ctx, f, states, to, edge);
    if Merge(edge, states[to]).Ok? {
      var m := Merge(edge, states[to]).value;
      MergedStates(blocks, to, m);
      MergeKeepsQueue(ctx, f, blocks, queue, bb, to, edge, m);
      MergeKeepsPeak(ctx, f, blocks, seen, peak, bb, to, edge, m);
      MergeKeepsMerging(f, blocks, bb, x, flows, i, m);
      MergeLowersWeight(f.locals, edge, blocks[to].state);
      TotalWeightUpdate(f.locals, states, to, m);
    }
  }

  // Once every flow is merged the visited block is accounted for again.
  lemma EndVisit(ctx: Context, f: Func, blocks: seq<Block>, queue: seq<nat>, seen: seq<BlockState>,
                 peak: nat, bb: nat, x: BlockState)
    requires TargetsOk(f) && Inferring(ctx, f, blocks, queue, seen, peak, bb)
    requires HasBlock(f, bb) && x.Live? && Visit(ctx, f, bb, x).Ok? && bb < |seen| && seen[bb] == x
    requires var flows := FlowsFrom(ctx, f, bb, Visit(ctx, f, bb, x).value);
             Merging(f, blocks, bb, x, flows, |flows|)
    ensures Inferring(ctx, f, blocks, queue, seen, peak, -1)
  {
    var states := StatesOf(blocks);
    if !blocks[bb].mark {
      var flows := FlowsFrom(ctx, f, bb, Visit(ctx, f, bb, x).value);
      forall i | 0 <= i < |flows|
        ensures Absorbed(flows[i].state, states[flows[i].to])
      {
        AbsorbedIsLeq(f.locals, flows[i].state, states[flows[i].to]);
      }
      assert Settled(ctx, f, states, bb);
    }
  }

  // With nothing queued, the states are the most precise solution.
  lemma EndInferring(ctx: Context, f: Func, blocks: seq<Block>, seen: seq<BlockState>, peak: nat)
    requires TargetsOk(f) && Inferring(ctx, f, blocks, [], seen, peak, -1)
    ensures Inferred(ctx, f, StatesOf(blocks))
    ensures PeakIs(ctx, f, StatesOf(blocks), peak)
  {
    var states := StatesOf(blocks);
    AllSettled(ctx, f, blocks);
    LiveIfReached(ctx, f, states);
    AllSeen(ctx, f, blocks, seen, peak);
  }

  lemma AllSettled(ctx: Context, f: Func, blocks: seq<Block>)
    requires States(ctx, f, StatesOf(blocks)) && Queued(ctx, f, blocks, [], -1)
    ensures Solution(ctx, f, StatesOf(blocks))
  {
    var states := StatesOf(blocks);
    forall b | 0 <= b < |states| && states[b].Live?
      ensures Settled(ctx, f, states, b)
    {
      assert !blocks[b].mark;
    }
  }

  lemma AllSeen(ctx: Context, f: Func, blocks: seq<Block>, seen: seq<BlockState>, peak: nat)
    requires States(ctx, f, StatesOf(blocks)) && Queued(ctx, f, blocks, [], -1)
    requires Peaked(ctx, f, blocks, seen, peak, -1)
    ensures seen == StatesOf(blocks)
  {
    forall b | 0 <= b < |seen|
      ensures seen[b] == StatesOf(blocks)[b]
    {
      assert !blocks[b].mark;
    }
  }

  lemma LiveIfReached(ctx: Context, f: Func, states: seq<BlockState>)
    requires TargetsOk(f) && Solution(ctx, f, states)
    ensures forall b :: 0 <= b < |states| && Reachable(BlockGraph(f), 0, b) ==> states[b].Live?
  {
    var g := BlockGraph(f);
    var live := set b: nat | b < |states| && states[b].Live?;
    forall a: nat, c: nat | a in live && Edge(g, a, c)
      ensures c in live
    {
      assert Settled(ctx, f, states, a);
      var out := Visit(ctx, f, a, states[a]).value;
      FlowTargets(ctx, f, a, out);
      assert c in Successors(f, a);
      var flows := FlowsFrom(ctx, f, a, out);
      var i :| 0 <= i < |flows| && flows[i].to == c;
      assert Absorbed(flows[i].state, states[c]);
    }
    forall b | 0 <= b < |states| && Reachable(g, 0, b)
      ensures states[b].Live?
    {
      ReachStays(g, 0, b, live);
    }
  }
}
