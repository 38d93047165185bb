/** Solutions of a function's data flow equations. The certificate a check
    accepts is one; inference looks for the most precise one. */
module Solutions {

  import opened Results
  import opened Bytecode
  import opened Transfer
  import opened Graphs
  import opened Blocks

  /** One state per block, each live one listing every local. */
  ghost predicate Shaped(f: Func, states: seq<BlockState>) {
    && |states| == |Starts(f)|
    && forall b :: 0 <= b < |states| && states[b].Live? ==> f.locals <= |states[b].locals|
  }

  /** A visit of block `b` succeeds, and every state it sends on is absorbed. */
  ghost predicate Settled(ctx: Context, f: Func, states: seq<BlockState>, b: nat)
    requires HasBlock(f, b) && |states| == |Starts(f)| && states[b].Live?
  {
    && Visit(ctx, f, b, states[b]).Ok?
    && var flows := FlowsFrom(ctx, f, b, Visit(ctx, f, b, states[b]).value);
       forall i :: 0 <= i < |flows| ==> flows[i].to < |states| && Absorbed(flows[i].state, states[flows[i].to])
  }

  /** The entry block starts from the function's signature, and every live block is settled. */
  ghost predicate Solution(ctx: Context, f: Func, states: seq<BlockState>) {
    && Contiguous(f.code)
    && Shaped(f, states)
    && |states| > 0 && states[0] == Entry(ctx, f)
    && forall b :: 0 <= b < |states| && states[b].Live? ==> Settled(ctx, f, states, b)
  }

  /** Wherever `s` is live, `t` is live and no more precise. */
  ghost predicate Below(n: nat, s: seq<BlockState>, t: seq<BlockState>) {
    |s| == |t| && forall b :: 0 <= b < |s| && s[b].Live? ==> Leq(n, s[b], t[b])
  }

  ghost predicate BelowSolutions(ctx: Context, f: Func, states: seq<BlockState>) {
    forall t :: Solution(ctx, f, t) ==> Below(f.locals, states, t)
  }

  /** Every solution admits `state` at block `to`. */
  ghost predicate Forced(ctx: Context, f: Func, to: nat, state: BlockState) {
    forall t :: Solution(ctx, f, t) ==> to < |t| && Leq(f.locals, state, t[to])
  }

  ghost predicate Unsolvable(ctx: Context, f: Func) {
    forall t :: !Solution(ctx, f, t)
  }

  /** The greatest operand depth over all live blocks. */
  ghost predicate PeakIs(ctx: Context, f: Func, states: seq<BlockState>, peak: nat)
    requires Contiguous(f.code) && |states| == |Starts(f)|
  {
    && Entry(ctx, f).operands <= peak
    && (forall b :: 0 <= b < |states| && states[b].Live? ==> VisitPeak(ctx, f, b, states[b]) <= peak)
    && (|| peak == Entry(ctx, f).operands
        || exists b :: 0 <= b < |states| && states[b].Live? && VisitPeak(ctx, f, b, states[b]) == peak)
  }

  lemma FlowTargets(ctx: Context, f: Func, b: nat, out: BlockState)
    requires HasBlock(f, b) && TargetsOk(f) && out.Live?
    ensures forall i :: 0 <= i < |FlowsFrom(ctx, f, b, out)| ==>
              && FlowsFrom(ctx, f, b, out)[i].to < |Starts(f)|
              && FlowsFrom(ctx, f, b, out)[i].to in Successors(f, b)
              && FlowsFrom(ctx, f, b, out)[i].state.Live?
              && |FlowsFrom(ctx, f, b, out)[i].state.locals| == |out.locals|
    ensures forall c :: c in Successors(f, b) ==>
              exists i :: 0 <= i < |FlowsFrom(ctx, f, b, out)| && FlowsFrom(ctx, f, b, out)[i].to == c
  {
    BlockRange(f, b);
    var last := LastOf(f, b);
    var flows := FlowsFrom(ctx, f, b, out);
    if HasTarget(last.inst) {
      BlockAtTarget(f, Hi(f, b) - 1);
      assert flows[|flows| - 1].to == BlockAt(f, Target(last));
    }
    if !Terminal(last.inst) && b + 1 < |Starts(f)| {
      assert flows[0].to == b + 1;
    }
  }

  lemma VisitMonotone(ctx: Context, f: Func, b: nat, x: BlockState, y: BlockState)
    requires HasBlock(f, b) && SlotsOk(f) && Leq(f.locals, x, y)
    requires Visit(ctx, f, b, y).Ok?
    ensures Visit(ctx, f, b, x).Ok?
    ensures Leq(f.locals, Visit(ctx, f, b, x).value, Visit(ctx, f, b, y).value)
    ensures VisitPeak(ctx, f, b, x) == VisitPeak(ctx, f, b, y)
  {
    BlockRange(f, b);
    RunMonotone(ctx, f, Lo(f, b), Hi(f, b), x, y);
    FlowsMonotone(ctx, f, b, Visit(ctx, f, b, x).value, Visit(ctx, f, b, y).value);
  }

  // A state below a solution can be visited, and what it sends on stays below that solution.
  lemma FlowsStayBelow(ctx: Context, f: Func, b: nat, x: BlockState, t: seq<BlockState>)
    requires Solution(ctx, f, t) && SlotsOk(f) && TargetsOk(f)
    requires b < |t| && Leq(f.locals, x, t[b])
    ensures Visit(ctx, f, b, x).Ok?
    ensures var flows := FlowsFrom(ctx, f, b, Visit(ctx, f, b, x).value);
            forall i :: 0 <= i < |flows| ==> flows[i].to < |t| && Leq(f.locals, flows[i].state, t[flows[i].to])
  {
    assert Settled(ctx, f, t, b);
    VisitMonotone(ctx, f, b, x, t[b]);
    var low := Visit(ctx, f, b, x).value;
    var high := Visit(ctx, f, b, t[b]).value;
    FlowsMonotone(ctx, f, b, low, high);
    FlowTargets(ctx, f, b, high);
    var flows := FlowsFrom(ctx, f, b, low);
    var above := FlowsFrom(ctx, f, b, high);
    forall i | 0 <= i < |flows|
      ensures flows[i].to < |t| && Leq(f.locals, flows[i].state, t[flows[i].to])
    {
      assert Absorbed(above[i].state, t[above[i].to]);
      AbsorbedIsLeq(f.locals, above[i].state, t[above[i].to]);
      LeqTransitive(f.locals, flows[i].state, above[i].state, t[above[i].to]);
    }
  }

  lemma VisitForces(ctx: Context, f: Func, states: seq<BlockState>, b: nat)
    requires HasBlock(f, b) && SlotsOk(f) && TargetsOk(f)
    requires |states| == |Starts(f)| && states[b].Live? && BelowSolutions(ctx, f, states)
    ensures Visit(ctx, f, b, states[b]).Err? ==> Unsolvable(ctx, f)
    ensures Visit(ctx, f, b, states[b]).Ok? ==>
              var flows := FlowsFrom(ctx, f, b, Visit(ctx, f, b, states[b]).value);
              forall i :: 0 <= i < |flows| ==> Forced(ctx, f, flows[i].to, flows[i].state)
  {
    forall t | Solution(ctx, f, t)
      ensures Visit(ctx, f, b, states[b]).Ok?
      ensures var flows := FlowsFrom(ctx, f, b, Visit(ctx, f, b, states[b]).value);
              forall i :: 0 <= i < |flows| ==> flows[i].to < |t| && Leq(f.locals, flows[i].state, t[flows[i].to])
    {
      assert Below(f.locals, states, t);
      FlowsStayBelow(ctx, f, b, states[b], t);
    }
  }

  // Merging a forced state conflicts only if there is no solution, and stays below every solution.
  lemma MergeForced(ctx: Context, f: Func, states: seq<BlockState>, to: nat, edge: BlockState)
    requires |states| == |Starts(f)| && to < |states| && edge.Live? && |edge.locals| == f.locals
    requires states[to].Live? ==> |states[to].locals| == f.locals
    requires BelowSolutions(ctx, f, states) && Forced(ctx, f, to, edge)
    ensures Merge(edge, states[to]).Err? ==> Unsolvable(ctx, f)
    ensures Merge(edge, states[to]).Ok? ==> BelowSolutions(ctx, f, states[to := Merge(edge, states[to]).value])
  {
    forall t | Solution(ctx, f, t)
      ensures Merge(edge, states[to]).Ok?
      ensures Below(f.locals, states[to := Merge(edge, states[to]).value], t)
    {
      assert Below(f.locals, states, t);
      if states[to].Live? {
        assert Leq(f.locals, states[to], t[to]);
        MergeIsJoin(f.locals, edge, states[to]);
      }
      assert Leq(f.locals, Merge(edge, states[to]).value, t[to]);
    }
  }

  // Raising the state of one block keeps every other block settled.
  lemma SettledStays(ctx: Context, f: Func, states: seq<BlockState>, to: nat, m: BlockState, c: nat)
    requires HasBlock(f, c) && TargetsOk(f) && |states| == |Starts(f)| && to < |states| && c != to
    requires states[c].Live? && |states[c].locals| == f.locals && Settled(ctx, f, states, c)
    requires m.Live? && |m.locals| == f.locals
    requires states[to].Live? ==> |states[to].locals| == f.locals && Leq(f.locals, states[to], m)
    ensures Settled(ctx, f, states[to := m], c)
  {
    var out := Visit(ctx, f, c, states[c]).value;
    var flows := FlowsFrom(ctx, f, c, out);
    FlowTargets(ctx, f, c, out);
    forall i | 0 <= i < |flows|
      ensures Absorbed(flows[i].state, states[to := m][flows[i].to])
    {
      assert Absorbed(flows[i].state, states[flows[i].to]);
      if flows[i].to == to {
        AbsorbedIsLeq(f.locals, flows[i].state, states[to]);
        LeqTransitive(f.locals, flows[i].state, states[to], m);
        AbsorbedIsLeq(f.locals, flows[i].state, m);
      }
    }
  }

  lemma PeakUnique(ctx: Context, f: Func, s: seq<BlockState>, t: seq<BlockState>, p: nat, q: nat)
    requires Contiguous(f.code) && SlotsOk(f) && |s| == |Starts(f)|
    requires Below(f.locals, s, t) && Solution(ctx, f, t)
    requires forall b :: 0 <= b < |s| ==> s[b].Live?
    requires PeakIs(ctx, f, s, p) && PeakIs(ctx, f, t, q)
    ensures p == q
  {
    forall b | 0 <= b < |s|
      ensures VisitPeak(ctx, f, b, s[b]) == VisitPeak(ctx, f, b, t[b])
    {
      assert Leq(f.locals, s[b], t[b]);
      assert Settled(ctx, f, t, b);
      VisitMonotone(ctx, f, b, s[b], t[b]);
    }
  }
}
