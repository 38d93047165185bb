/** What the certificate checking loop keeps true between blocks, and why it stops. */
module Checking {

  import opened Results
  import opened Bytecode
  import opened Transfer
  import opened Graphs
  import opened Blocks
  import opened Solutions
  import opened Passes
  import Inference

  /** The blocks hold the claimed states, and marked blocks are live and reachable. */
  ghost predicate Reached(ctx: Context, f: Func, blocks: seq<Block>, claims: seq<BlockState>) {
    && BlocksPlaced(f, blocks)
    && StatesOf(blocks) == claims && claims[0] == Entry(ctx, f) && blocks[0].mark
    && forall b :: 0 <= b < |blocks| && blocks[b].mark ==> claims[b].Live? && Reachable(BlockGraph(f), 0, b)
  }

  /** Marked blocks are queued, seen, or being visited; queued blocks are marked. */
  ghost predicate Pending(blocks: seq<Block>, queue: seq<nat>, seen: seq<BlockState>, busy: int) {
    && |seen| == |blocks|
    && (forall b :: 0 <= b < |blocks| && blocks[b].mark ==> b in queue || seen[b].Live? || b == busy)
    && (forall q :: q in queue ==> q < |blocks| && blocks[q].mark)
  }

  ghost predicate SuccessorsMarked(f: Func, blocks: seq<Block>, b: nat)
    requires HasBlock(f, b)
  {
    forall c :: c in Successors(f, b) ==> c < |blocks| && blocks[c].mark
  }

  /** Seen blocks are settled and have marked successors. */
  ghost predicate SeenOk(ctx: Context, f: Func, blocks: seq<Block>, claims: seq<BlockState>, seen: seq<BlockState>)
    requires Contiguous(f.code) && |blocks| == |claims| == |Starts(f)|
  {
    && |seen| == |blocks|
    && forall b :: 0 <= b < |seen| ==>
         if seen[b].Live? then
           blocks[b].mark && seen[b] == claims[b] && Settled(ctx, f, claims, b) && SuccessorsMarked(f, blocks, b)
         else seen[b] == Neutral([], [])
  }

  ghost predicate Claimed(ctx: Context, f: Func, blocks: seq<Block>, queue: seq<nat>,
                          claims: seq<BlockState>, seen: seq<BlockState>, busy: int) {
    && Reached(ctx, f, blocks, claims)
    && Pending(blocks, queue, seen, busy)
    && SeenOk(ctx, f, blocks, claims, seen)
  }

  ghost predicate Vetting(ctx: Context, f: Func, blocks: seq<Block>, queue: seq<nat>, claims: seq<BlockState>,
                          seen: seq<BlockState>, peak: nat, busy: int) {
    Claimed(ctx, f, blocks, queue, claims, seen, busy) && PeakIs(ctx, f, seen, peak)
  }

  /** The first `i` flows out of a block have been found absorbed, and their targets marked. */
  ghost predicate Vetted(blocks: seq<Block>, claims: seq<BlockState>, flows: seq<Flow>, i: nat) {
    && i <= |flows| && |claims| == |blocks|
    && forall j :: 0 <= j < i ==>
         && flows[j].to < |blocks| && blocks[flows[j].to].mark
         && flows[j].state.Live? && Absorbed(flows[j].state, claims[flows[j].to])
  }

  function Unmarked(blocks: seq<Block>): nat {
    if blocks == [] then 0
    else Unmarked(blocks[..|blocks| - 1]) + if blocks[|blocks| - 1].mark then 0 else 1
  }

  lemma {:induction false} MarkLowers(blocks: seq<Block>, b: nat)
    requires b < |blocks| && !blocks[b].mark
    ensures Unmarked(Marked(blocks, b)) < Unmarked(blocks)
  {
    var last := |blocks| - 1;
    if b < last {
      assert Marked(blocks, b)[..last] == Marked(blocks[..last], b);
      MarkLowers(blocks[..last], b);
    } else {
      assert Marked(blocks, b)[..last] == blocks[..last];
    }
  }

  function Marked(blocks: seq<Block>, b: nat): seq<Block>
    requires b < |blocks|
  {
    blocks[b := Block(blocks[b].offset, true, blocks[b].state)]
  }

  function Noted(blocks: seq<Block>, queue: seq<nat>, b: nat): seq<nat>
    requires b < |blocks|
  {
    if blocks[b].mark then queue else queue + [b]
  }

  ghost predicate Progress(blocks: seq<Block>, queue: seq<nat>, blocks': seq<Block>, queue': seq<nat>) {
    Unmarked(blocks') < Unmarked(blocks) || (blocks' == blocks && queue' == queue)
  }

  lemma StartVetting(ctx: Context, f: Func, blocks: seq<Block>, start: seq<Block>, claims: seq<BlockState>)
    requires BlocksPlaced(f, blocks)
    requires forall b :: 0 <= b < |blocks| ==> !blocks[b].mark
    requires start == blocks[0 := Block(blocks[0].offset, true, Entry(ctx, f))]
    requires claims == StatesOf(start)
    ensures Vetting(ctx, f, start, [0], claims, seq(|start|, _ => Neutral([], [])), Entry(ctx, f).operands, -1)
  {
    assert BlockKeys(start) == BlockKeys(blocks);
    ReachesItself(BlockGraph(f), 0);
  }

  lemma TakePending(blocks: seq<Block>, queue: seq<nat>, seen: seq<BlockState>)
    requires Pending(blocks, queue, seen, -1) && |queue| > 0
    ensures var bb := queue[|queue| - 1];
            bb < |blocks| && blocks[bb].mark && Pending(blocks, queue[..|queue| - 1], seen, bb)
  {
    var bb := queue[|queue| - 1];
    var rest := queue[..|queue| - 1];
    assert bb in queue;
    forall b | b in queue && b != bb
      ensures b in rest
    {
      var k :| 0 <= k < |queue| && queue[k] == b;
      assert rest[k] == b;
    }
    forall q | q in rest
      ensures q in queue
    {
    }
  }

  lemma TakeClaim(ctx: Context, f: Func, blocks: seq<Block>, queue: seq<nat>, claims: seq<BlockState>,
                  seen: seq<BlockState>)
    requires Claimed(ctx, f, blocks, queue, claims, seen, -1) && |queue| > 0
    ensures var bb := queue[|queue| - 1];
            && bb < |blocks| && blocks[bb].mark && blocks[bb].state.Live? && blocks[bb].state == claims[bb]
            && Claimed(ctx, f, blocks, queue[..|queue| - 1], claims, seen, bb)
  {
    TakePending(blocks, queue, seen);
    var bb := queue[|queue| - 1];
    assert StatesOf(blocks)[bb] == claims[bb];
  }

  lemma MarkPending(blocks: seq<Block>, queue: seq<nat>, seen: seq<BlockState>, busy: int, to: nat)
    requires Pending(blocks, queue, seen, busy) && to < |blocks|
    ensures Pending(Marked(blocks, to), Noted(blocks, queue, to), seen, busy)
    ensures Progress(blocks, queue, Marked(blocks, to), Noted(blocks, queue, to))
  {
    if !blocks[to].mark {
      MarkLowers(blocks, to);
    } else {
      assert Marked(blocks, to) == blocks;
    }
  }

  lemma MarkReached(ctx: Context, f: Func, blocks: seq<Block>, claims: seq<BlockState>, to: nat)
    requires Reached(ctx, f, blocks, claims)
    requires to < |blocks| && claims[to].Live? && Reachable(BlockGraph(f), 0, to)
    ensures Reached(ctx, f, Marked(blocks, to), claims)
  {
    assert StatesOf(Marked(blocks, to)) == StatesOf(blocks);
    assert BlockKeys(Marked(blocks, to)) == BlockKeys(blocks);
  }

  lemma MarkSeen(ctx: Context, f: Func, blocks: seq<Block>, claims: seq<BlockState>, seen: seq<BlockState>, to: nat)
    requires Contiguous(f.code) && |blocks| == |claims| == |Starts(f)| && to < |blocks|
    requires SeenOk(ctx, f, blocks, claims, seen)
    ensures SeenOk(ctx, f, Marked(blocks, to), claims, seen)
  {
    forall b | 0 <= b < |seen| && seen[b].Live?
      ensures SuccessorsMarked(f, Marked(blocks, to), b)
    {
    }
  }

  // Marking the target of a flow that its claim absorbs.
  lemma MarkKeeps(ctx: Context, f: Func, blocks: seq<Block>, queue: seq<nat>, claims: seq<BlockState>,
                  seen: seq<BlockState>, bb: nat, flows: seq<Flow>, i: nat)
    requires Claimed(ctx, f, blocks, queue, claims, seen, bb) && Vetted(blocks, claims, flows, i) && i < |flows|
    requires flows[i].to < |blocks| && flows[i].state.Live? && Reachable(BlockGraph(f), 0, flows[i].to)
    requires Absorbed(flows[i].state, claims[flows[i].to])
    ensures Claimed(ctx, f, Marked(blocks, flows[i].to), Noted(blocks, queue, flows[i].to), claims, seen, bb)
    ensures Vetted(Marked(blocks, flows[i].to), claims, flows, i + 1)
    ensures Progress(blocks, queue, Marked(blocks, flows[i].to), Noted(blocks, queue, flows[i].to))
  {
    var to := flows[i].to;
    MarkPending(blocks, queue, seen, bb, to);
    MarkReached(ctx, f, blocks, claims, to);
    MarkSeen(ctx, f, blocks, claims, seen, to);
  }

  lemma VisitReaches(ctx: Context, f: Func, blocks: seq<Block>, queue: seq<nat>, claims: seq<BlockState>,
                     seen: seq<BlockState>, bb: nat)
    requires TargetsOk(f) && Claimed(ctx, f, blocks, queue, claims, seen, bb)
    requires bb < |blocks| && blocks[bb].mark && blocks[bb].state.Live? && Visit(ctx, f, bb, blocks[bb].state).Ok?
    ensures var flows := FlowsFrom(ctx, f, bb, Visit(ctx, f, bb, blocks[bb].state).value);
            forall i :: 0 <= i < |flows| ==>
              flows[i].to < |blocks| && flows[i].state.Live? && Reachable(BlockGraph(f), 0, flows[i].to)
  {
    var out := Visit(ctx, f, bb, blocks[bb].state).value;
    var flows := FlowsFrom(ctx, f, bb, out);
    FlowTargets(ctx, f, bb, out);
    forall i | 0 <= i < |flows|
      ensures Reachable(BlockGraph(f), 0, flows[i].to)
    {
      assert BlockGraph(f)[bb] == Successors(f, bb);
      assert Edge(BlockGraph(f), bb, flows[i].to);
      ReachExtends(BlockGraph(f), 0, bb, flows[i].to);
    }
  }

  lemma VettedSettles(ctx: Context, f: Func, blocks: seq<Block>, claims: seq<BlockState>, bb: nat)
    requires TargetsOk(f) && HasBlock(f, bb) && |blocks| == |claims| == |Starts(f)|
    requires claims[bb].Live? && Visit(ctx, f, bb, claims[bb]).Ok?
    requires var flows := FlowsFrom(ctx, f, bb, Visit(ctx, f, bb, claims[bb]).value);
             Vetted(blocks, claims, flows, |flows|)
    ensures Settled(ctx, f, claims, bb) && SuccessorsMarked(f, blocks, bb)
  {
    FlowTargets(ctx, f, bb, Visit(ctx, f, bb, claims[bb]).value);
  }

  lemma EndClaim(ctx: Context, f: Func, blocks: seq<Block>, queue: seq<nat>, claims: seq<BlockState>,
                 seen: seq<BlockState>, bb: nat)
    requires Claimed(ctx, f, blocks, queue, claims, seen, bb)
    requires bb < |blocks| && blocks[bb].mark && claims[bb].Live?
    requires Settled(ctx, f, claims, bb) && SuccessorsMarked(f, blocks, bb)
    ensures Claimed(ctx, f, blocks, queue, claims, seen[bb := claims[bb]], -1)
  {
    EndSeen(ctx, f, blocks, claims, seen, bb);
    EndPending(blocks, queue, seen, bb, claims[bb]);
  }

  lemma EndPending(blocks: seq<Block>, queue: seq<nat>, seen: seq<BlockState>, bb: nat, s: BlockState)
    requires Pending(blocks, queue, seen, bb) && bb < |blocks| && s.Live?
    ensures Pending(blocks, queue, seen[bb := s], -1)
  {
  }

  lemma EndSeen(ctx: Context, f: Func, blocks: seq<Block>, claims: seq<BlockState>, seen: seq<BlockState>, bb: nat)
    requires HasBlock(f, bb) && |blocks| == |claims| == |Starts(f)|
    requires SeenOk(ctx, f, blocks, claims, seen)
    requires blocks[bb].mark && claims[bb].Live?
    requires Settled(ctx, f, claims, bb) && SuccessorsMarked(f, blocks, bb)
    ensures SeenOk(ctx, f, blocks, claims, seen[bb := claims[bb]])
  {
  }

  // With nothing queued and every block marked, the claims are settled throughout.
  lemma EndVetting(ctx: Context, f: Func, blocks: seq<Block>, claims: seq<BlockState>,
                   seen: seq<BlockState>, peak: nat)
    requires Vetting(ctx, f, blocks, [], claims, seen, peak, -1)
    requires forall b :: 0 <= b < |blocks| ==> blocks[b].mark
    ensures forall b :: 0 <= b < |claims| ==>
              claims[b].Live? && Settled(ctx, f, claims, b) && Reachable(BlockGraph(f), 0, b)
    ensures PeakIs(ctx, f, claims, peak)
  {
    hide Settled, Reachable, VisitPeak, Starts, BlockGraph, PeakIs;
    AllSeen(ctx, f, blocks, claims, seen);
  }

  lemma AllSeen(ctx: Context, f: Func, blocks: seq<Block>, claims: seq<BlockState>, seen: seq<BlockState>)
    requires Claimed(ctx, f, blocks, [], claims, seen, -1)
    requires forall b :: 0 <= b < |blocks| ==> blocks[b].mark
    ensures seen == claims && forall b :: 0 <= b < |claims| ==> claims[b].Live?
  {
    hide Settled, SuccessorsMarked, Reachable, Starts, BlockGraph;
    forall b | 0 <= b < |seen|
      ensures seen[b] == claims[b] && claims[b].Live?
    {
      assert blocks[b].mark;
    }
  }

  // A block left unmarked when nothing is queued cannot be reached.
  lemma UnmarkedUnreachable(ctx: Context, f: Func, blocks: seq<Block>, claims: seq<BlockState>,
                            seen: seq<BlockState>, b: nat)
    requires Claimed(ctx, f, blocks, [], claims, seen, -1)
    requires b < |blocks| && !blocks[b].mark
    ensures !Reachable(BlockGraph(f), 0, b)
  {
    var g := BlockGraph(f);
    var marked := set c: nat | c < |blocks| && blocks[c].mark;
    forall a: nat, c: nat | a in marked && Edge(g, a, c)
      ensures c in marked
    {
      assert seen[a].Live? && SuccessorsMarked(f, blocks, a);
    }
    if Reachable(g, 0, b) {
      ReachStays(g, 0, b, marked);
    }
  }
}
