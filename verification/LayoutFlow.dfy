/** Where control goes in laid-out bytecode, and that it is where the block graph says. */
module LayoutFlow {

  import opened Results
  import B = Bytecode
  import opened Varint
  import opened InstCodec
  import opened FlowGraphs
  import opened Layouts
  import opened BlockOrders
  import M = Machine

  /** The bytecode of a function: its blocks one after another. */
  function Code(blocks: seq<OutBlock>): seq<byte> {
    if blocks == [] then [] else Code(blocks[..|blocks| - 1]) + blocks[|blocks| - 1].bytecode
  }

  lemma {:induction false} CodeSplits(blocks: seq<OutBlock>)
    requires blocks != []
    ensures Code(blocks) == Code(blocks[..|blocks| - 1]) + blocks[|blocks| - 1].bytecode
  {
  }

  lemma {:induction false} CodeSlice(blocks: seq<OutBlock>, k: nat)
    requires Sequential(blocks) && k < |blocks|
    ensures blocks[k].offset + |blocks[k].bytecode| <= |Code(blocks)|
    ensures Code(blocks)[blocks[k].offset..blocks[k].offset + |blocks[k].bytecode|] == blocks[k].bytecode
    ensures |Code(blocks)| == blocks[|blocks| - 1].offset + |blocks[|blocks| - 1].bytecode|
  {
    var last := |blocks| - 1;
    var init := blocks[..last];
    CodeSplits(blocks);
    SequentialSplits(blocks);
    hide Sequential, Code;
    if last > 0 {
      CodeSlice(init, if k < last then k else last - 1);
    }
    assert blocks[last].offset == |Code(init)|;
    if k == last {
      SliceOfSuffix(Code(init), blocks[last].bytecode);
    } else {
      SliceOfPrefix(Code(init), blocks[last].bytecode, blocks[k].offset, blocks[k].offset + |blocks[k].bytecode|);
    }
  }

  lemma SliceOfPrefix(a: seq<byte>, b: seq<byte>, lo: nat, hi: nat)
    requires lo <= hi <= |a|
    ensures (a + b)[lo..hi] == a[lo..hi]
  {
  }

  lemma SliceOfSuffix(a: seq<byte>, b: seq<byte>)
    ensures (a + b)[|a|..|a| + |b|] == b
  {
  }

  lemma SequentialSplits(blocks: seq<OutBlock>)
    requires Sequential(blocks) && blocks != []
    ensures var last := |blocks| - 1;
            && Sequential(blocks[..last])
            && if last == 0 then blocks[last].offset == |Code(blocks[..last])| == 0
               else blocks[last].offset == blocks[last - 1].offset + |blocks[last - 1].bytecode|
  {
    var last := |blocks| - 1;
    assert last > 0 ==> blocks[(last - 1) + 1].offset == blocks[last - 1].offset + |blocks[last - 1].bytecode|;
  }

  /** Where a terminator takes control, by whether its condition (truth, or a match) holds. */
  function NextPc(at: B.Located, holds: bool): Option<int> {
    match at.inst
    case Branch(d) => Some(at.after + d)
    case BranchTrue(d) => Some(if holds then at.after + d else at.after)
    case BranchFalse(d) => Some(if holds then at.after else at.after + d)
    case UnpackBranch(_, d) => Some(if holds then at.after else at.after + d)
    case _ => None
  }

  /** The machine takes control there: the flag that decides a branch is whether its condition
      holds, and an instruction with no such place does not go on in its frame. */
  lemma NextPcIsReached(ctx: B.Context, fr: M.Frame, at: B.Located, made: set<M.Val>, values: seq<M.Val>, holds: bool)
    requires fr.func < |ctx.funcs|
    ensures var after := M.Within(ctx, fr, at, made, values, holds);
            NextPc(at, holds).Some? && after.Some? ==> after.value.pc == NextPc(at, holds).value
    ensures at.inst.Ret? || at.inst.NlBranch? || at.inst.ElseFallthrough? ==>
              M.Within(ctx, fr, at, made, values, holds) == None
  {
  }

  /** Where control goes in the bytecode once the instructions of block `k` are done. */
  function LeavesTo(plan: Plan, blocks: seq<OutBlock>, k: nat, holds: bool): Option<int>
    requires k < |plan.order| && k < |blocks|
  {
    var pc := blocks[k].offset + |Body(plan, k)|;
    if |blocks[k].bytecode| == |Body(plan, k)| then Some(pc)
    else
      match DecodeInst(Code(blocks), pc)
      case Some(Ok(at)) => NextPc(at, holds)
      case _ => None
  }

  /** Where control goes in the block graph. */
  function NextBlock(term: Term, holds: bool): Option<nat> {
    match term
    case Branch(to) => Some(to)
    case If(yes, no) => Some(if holds then yes else no)
    case UnpackIf(_, yes, no) => Some(if holds then yes else no)
    case _ => None
  }

  /** Block `k` stands among blocks laid end to end, its terminator is exact, and its
      operands fit machine words. */
  ghost predicate Ready(plan: Plan, blocks: seq<OutBlock>, k: nat) {
    && k < |blocks| == |plan.order| && Sequential(blocks)
    && Exact(plan, blocks, k)
    && Fits(Terminator(plan, blocks, k, blocks[k].offset + |blocks[k].bytecode|))
  }

  ghost predicate ReadyBelow(plan: Plan, blocks: seq<OutBlock>, n: nat) {
    forall k :: 0 <= k < n ==> Ready(plan, blocks, k)
  }

  ghost predicate Finished(plan: Plan, blocks: seq<OutBlock>) {
    |blocks| == |plan.order| && ReadyBelow(plan, blocks, |blocks|)
  }

  // The terminator of a block decodes to what was chosen for it.
  lemma {:induction false} TerminatorDecodes(plan: Plan, blocks: seq<OutBlock>, k: nat)
    requires Ready(plan, blocks, k)
    ensures var b := blocks[k];
            var inst := Terminator(plan, blocks, k, b.offset + |b.bytecode|);
            if inst.None? then |b.bytecode| == |Body(plan, k)|
            else
              && |b.bytecode| > |Body(plan, k)|
              && DecodeInst(Code(blocks), b.offset + |Body(plan, k)|)
                 == Some(Ok(B.Located(b.offset + |Body(plan, k)|, inst.value, b.offset + |b.bytecode|)))
  {
    hide Terminator, Body, EncodeInst, DecodeInst;
    var b := blocks[k];
    var inst := Terminator(plan, blocks, k, b.offset + |b.bytecode|);
    if inst.Some? {
      CodeSlice(blocks, k);
      var pc := b.offset + |Body(plan, k)|;
      var code := EncodeInst(inst.value);
      assert Code(blocks)[pc..pc + |code|] == b.bytecode[|Body(plan, k)|..] == code;
      InstRoundTrip(Code(blocks), pc, inst.value);
    }
  }

  // A fall-through reaches the block placed next.
  lemma NextOffset(plan: Plan, blocks: seq<OutBlock>, k: nat, to: nat)
    requires Layable(plan) && Ready(plan, blocks, k) && NextOf(plan, k) == Some(to)
    ensures blocks[k].offset + |blocks[k].bytecode| == OffsetOf(plan, blocks, to)
  {
    hide Terminator, Body;
    var j := Position(plan.order, to);
    assert plan.order[k + 1] == to && to in plan.order;
    assert j == k + 1;
  }

  /** Laid-out control goes where the laid-out graph says: from the end of a block's
      instructions to the offset of the successor, if it has one. */
  lemma LaidOutFlow(plan: Plan, blocks: seq<OutBlock>, k: nat, holds: bool)
    requires Layable(plan) && Ready(plan, blocks, k)
    ensures LeavesTo(plan, blocks, k, holds) ==
              match NextBlock(TermOf(plan, k), holds)
              case None => None
              case Some(to) => Some(OffsetOf(plan, blocks, to))
  {
    hide Ready, OffsetOf, DecodeInst, Code, Exact, Body, EncodeInst;
    ReadyInside(plan, blocks, k);
    var term, next := TermOf(plan, k), NextOf(plan, k);
    assert TermLayable(plan, k);
    TerminatorDecodes(plan, blocks, k);
    if next.Some? {
      NextOffset(plan, blocks, k, next.value);
    }
  }

  lemma ReadyInside(plan: Plan, blocks: seq<OutBlock>, k: nat)
    requires Ready(plan, blocks, k)
    ensures |blocks| == |plan.order| && k < |blocks|
  {
  }

  // ----- what a block holds -----

  /** The instruction behind a block's own, unless the block just runs on into the next. */
  function Behind(plan: Plan, blocks: seq<OutBlock>, k: nat): Option<B.Inst>
    requires k < |plan.order| && k < |blocks|
  {
    if |blocks[k].bytecode| == |Body(plan, k)| then None
    else
      match DecodeInst(Code(blocks), blocks[k].offset + |Body(plan, k)|)
      case Some(Ok(at)) => Some(at.inst)
      case _ => None
  }

  /** The instruction for how a block ends: what leaves the function or the closure stands as
      it is in the graph, and only a branch may need none. */
  predicate Closes(term: Term, inst: Option<B.Inst>) {
    match term
    case Ret => inst == Some(B.Ret)
    case NlBranch(depth, indicator) => inst == Some(B.NlBranch(depth, indicator))
    case ElseFallthrough(kind) => inst == Some(B.ElseFallthrough(kind))
    case UnpackIf(sig, _, _) => inst.Some? && inst.value.UnpackBranch? && inst.value.unpack == sig
    case If(_, _) => inst.Some? && (inst.value.BranchTrue? || inst.value.BranchFalse?)
    case Branch(_) => inst.None? || inst.value.Branch?
  }

  /** Behind a block's instructions the bytecode leaves exactly as the block does. */
  lemma ClosesExactly(term: Term, inst: Option<B.Inst>)
    requires Closes(term, inst)
    ensures inst == Some(B.Ret) <==> term == Ret
    ensures forall depth, indicator :: inst == Some(B.NlBranch(depth, indicator)) <==> term == NlBranch(depth, indicator)
    ensures forall kind :: inst == Some(B.ElseFallthrough(kind)) <==> term == ElseFallthrough(kind)
    ensures inst.Some? && inst.value.UnpackBranch? <==> term.UnpackIf?
    ensures term.UnpackIf? ==> inst.value.unpack == term.sig
  {
  }

  /** A ready block's bytecode closes as its term says. */
  lemma ReadyCloses(plan: Plan, blocks: seq<OutBlock>, k: nat)
    requires Ready(plan, blocks, k) && k < |plan.order|
    ensures k < |blocks| && Closes(TermOf(plan, k), Behind(plan, blocks, k))
  {
    hide OffsetOf, DecodeInst, Code, Exact, Body, EncodeInst, Sequential;
    TerminatorDecodes(plan, blocks, k);
  }

  /** The bytecode at a block's offset: its instructions, and an instruction for how it ends. */
  ghost predicate Carries(block: Block, plan: Plan, blocks: seq<OutBlock>, k: nat)
    requires k < |plan.order| == |blocks|
  {
    var lo, body := blocks[k].offset, EncodeAll(block.insts);
    && lo + |body| <= |Code(blocks)| && Code(blocks)[lo..lo + |body|] == body == Body(plan, k)
    && Closes(block.term, Behind(plan, blocks, k))
  }

  lemma {:induction false} BodyInPlace(plan: Plan, blocks: seq<OutBlock>, k: nat)
    requires Ready(plan, blocks, k)
    ensures var lo, body := blocks[k].offset, Body(plan, k);
            lo + |body| <= |Code(blocks)| && Code(blocks)[lo..lo + |body|] == body
  {
    hide Code, Body, Terminator, Sequential, Fits, TermBytes;
    CodeSlice(blocks, k);
    var lo, body := blocks[k].offset, Body(plan, k);
    assert Code(blocks)[lo..lo + |body|] == blocks[k].bytecode[..|body|];
  }

  // ----- the whole emitter -----

  /** The success block of every `UnpackIf` has no other predecessor. */
  ghost predicate SuccessOwned(base: seq<Block>, enter: nat) {
    forall x :: 0 <= x < |base| && base[x].term.UnpackIf? ==> OnlyFrom(base, enter, x, base[x].term.yes)
  }

  /** An ordered graph can be laid out: no terminator is left without a successor next to it. */
  lemma OrderedIsLayable(base: seq<Block>, graph: seq<Block>, enter: nat, order: seq<nat>)
    requires WellFormed(base) && Ordered(base, graph, enter, order) && SuccessOwned(base, enter)
    ensures Layable(Plan(graph, order))
  {
    var plan := Plan(graph, order);
    forall i | 0 <= i < |order|
      ensures order[i] < |graph| && TermLayable(plan, i)
    {
      assert Laid(base, graph, enter, order, i);
      var term := graph[order[i]].term;
      if term.UnpackIf? {
        var x := order[i];
        assert x < |base| && Collapse(graph, |base|, term) == base[x].term;
        assert OnlyFrom(base, enter, x, term.yes);
      }
    }
  }

  /** Control in the bytecode follows the original graph from block `k`: to the successor
      directly, or through an empty trampoline that goes on to it. */
  ghost predicate Follows(base: seq<Block>, plan: Plan, blocks: seq<OutBlock>, k: nat, holds: bool)
    requires k < |plan.order| == |blocks| && plan.order[k] < |base|
  {
    match NextBlock(base[plan.order[k]].term, holds)
    case None => LeavesTo(plan, blocks, k, holds) == None
    case Some(to) =>
      || LeavesTo(plan, blocks, k, holds) == Some(OffsetOf(plan, blocks, to))
      || exists t :: 0 <= t < |plan.order| && plan.order[t] >= |base| && Body(plan, t) == []
                     && LeavesTo(plan, blocks, k, holds) == Some(blocks[t].offset)
                     && LeavesTo(plan, blocks, t, holds) == Some(OffsetOf(plan, blocks, to))
  }

  /** From the instructions of an original block, control reaches the block the original
      graph goes to: directly, or through an empty trampoline that goes on to it. */
  lemma EmittedFlow(base: seq<Block>, graph: seq<Block>, enter: nat, order: seq<nat>, blocks: seq<OutBlock>,
                    k: nat, holds: bool)
    requires WellFormed(base) && Ordered(base, graph, enter, order) && SuccessOwned(base, enter)
    requires Finished(Plan(graph, order), blocks) && k < |order| == |blocks| && order[k] < |base|
    ensures Follows(base, Plan(graph, order), blocks, k, holds)
  {
    hide LeavesTo, Ready;
    var plan := Plan(graph, order);
    OrderedIsLayable(base, graph, enter, order);
    LaidOutFlow(plan, blocks, k, holds);
    var term := graph[order[k]].term;
    assert Collapse(graph, |base|, term) == base[order[k]].term;
    assert TermLayable(plan, k);
    if NextBlock(term, holds).Some? {
      var y := NextBlock(term, holds).value;
      assert y in Succs(term) && y in order;
      if y >= |base| {
        var t := Position(order, y);
        LaidOutFlow(plan, blocks, t, holds);
        assert order[t] >= |base| && Body(plan, t) == [];
      }
    }
  }

  /** An original block stands in the bytecode with its own instructions, and ends there as it
      does in the original graph. */
  lemma EmittedBlock(base: seq<Block>, graph: seq<Block>, enter: nat, order: seq<nat>, blocks: seq<OutBlock>, k: nat)
    requires Ordered(base, graph, enter, order)
    requires Finished(Plan(graph, order), blocks) && k < |order| == |blocks| && order[k] < |base|
    ensures Carries(base[order[k]], Plan(graph, order), blocks, k)
  {
    hide Ready, Code, EncodeAll, Behind;
    var plan := Plan(graph, order);
    assert Laid(base, graph, enter, order, k);
    assert Ready(plan, blocks, k);
    BodyInPlace(plan, blocks, k);
    ReadyCloses(plan, blocks, k);
    assert Collapse(graph, |base|, graph[order[k]].term) == base[order[k]].term;
  }

  // ----- when relaxation is done -----

  /** Every terminator relaxation leaves, counted from where its block last ended or
      really ends, has operands that fit machine words. */
  ghost predicate AllFit(plan: Plan, n: nat) {
    var last, done := Passes(plan, n), Passes(plan, n + 1);
    forall k :: 0 <= k < |plan.order| ==>
      && Fits(Terminator(plan, done, k, done[k].offset + |last[k].bytecode|))
      && Fits(Terminator(plan, done, k, done[k].offset + |done[k].bytecode|))
  }

  /** The last block's terminator has no displacement, or its length held in the last pass. */
  ghost predicate LastHeld(plan: Plan, n: nat)
    requires |plan.order| > 0
  {
    var last, done, k := Passes(plan, n), Passes(plan, n + 1), |plan.order| - 1;
    || !Displaced(Terminator(plan, done, k, done[k].offset + |done[k].bytecode|))
    || |last[k].bytecode| == |done[k].bytecode|
  }

  /** The graph tells beforehand when the last block holds: unless it ends in a branch back
      to another block, it returns or leaves the function, as nothing comes next. */
  lemma LastHoldsUnlessBranch(plan: Plan, n: nat)
    requires Layable(plan) && !TermOf(plan, |plan.order| - 1).Branch?
    ensures LastHeld(plan, n)
  {
    hide Passes;
    var last := |plan.order| - 1;
    assert TermLayable(plan, last) && NextOf(plan, last) == None;
  }

  lemma {:induction false} LastReadyWhen(plan: Plan, n: nat)
    requires Settles(plan, n) && |plan.order| > 0 && AllFit(plan, n)
    ensures Ready(plan, Passes(plan, n + 1), |plan.order| - 1) <==> LastHeld(plan, n)
  {
    hide Passes, Terminator, Fits, Displaced, Exact, Settles, Sequential;
    RelaxedIsSequential(plan, n);
    LastIsExactWhen(plan, n);
  }

  lemma {:induction false} OtherReady(plan: Plan, n: nat, k: nat)
    requires Settles(plan, n) && k < |plan.order| - 1 && AllFit(plan, n)
    ensures Ready(plan, Passes(plan, n + 1), k)
  {
    hide Passes, Terminator, Fits, Exact, Settles, Sequential;
    SettledIsExact(plan, n, k);
  }

  /** When the loop stops, every block but the last is ready, and all are if and only if
      the last block held. */
  lemma {:induction false} RelaxedIsFinished(plan: Plan, n: nat)
    requires Settles(plan, n) && |plan.order| > 0 && AllFit(plan, n)
    ensures ReadyBelow(plan, Passes(plan, n + 1), |plan.order| - 1)
    ensures Finished(plan, Passes(plan, n + 1)) <==> LastHeld(plan, n)
  {
    hide Passes, Settles, Ready, LastHeld, AllFit;
    var done := Passes(plan, n + 1);
    forall k | 0 <= k < |plan.order| - 1
      ensures Ready(plan, done, k)
    {
      OtherReady(plan, n, k);
    }
    LastReadyWhen(plan, n);
    PassesLength(plan, n + 1);
  }

  lemma {:induction false} PassesLength(plan: Plan, n: nat)
    ensures |Passes(plan, n)| == |plan.order|
  {
    assert Bodied(plan, Passes(plan, n));
  }

  lemma RelaxedIsSequential(plan: Plan, n: nat)
    ensures Sequential(Passes(plan, n + 1))
  {
    hide Passes, Pass, Sequential;
    PassesStep(plan, n);
    PassIsSequential(plan, Passes(plan, n));
  }

  /** What the emitter is for: whenever relaxation stops and the last block held, every
      original block placed stands in the bytecode with its instructions and its own way of
      ending, and control follows the original graph from it. */
  lemma {:induction false} EmissionPreservesFlow(base: seq<Block>, graph: seq<Block>, enter: nat, order: seq<nat>, n: nat,
                              k: nat, holds: bool)
    requires WellFormed(base) && Ordered(base, graph, enter, order) && SuccessOwned(base, enter)
    requires var plan := Plan(graph, order); Settles(plan, n) && AllFit(plan, n) && LastHeld(plan, n)
    requires k < |order| && order[k] < |base|
    ensures |Passes(Plan(graph, order), n + 1)| == |order|
    ensures Carries(base[order[k]], Plan(graph, order), Passes(Plan(graph, order), n + 1), k)
    ensures Follows(base, Plan(graph, order), Passes(Plan(graph, order), n + 1), k, holds)
  {
    hide Passes, Follows, Ready, Carries;
    var plan := Plan(graph, order);
    PassesLength(plan, n + 1);
    RelaxedIsFinished(plan, n);
    EmittedBlock(base, graph, enter, order, Passes(plan, n + 1), k);
    EmittedFlow(base, graph, enter, order, Passes(plan, n + 1), k, holds);
  }

  /** So the bytecode keeps the original graph whenever relaxation stops and the block placed
      last does not branch back. */
  lemma {:induction false} EmissionPreservesFlowUnlessBranch(base: seq<Block>, graph: seq<Block>, enter: nat,
                              order: seq<nat>, n: nat, k: nat, holds: bool)
    requires WellFormed(base) && Ordered(base, graph, enter, order) && SuccessOwned(base, enter)
    requires var plan := Plan(graph, order); Settles(plan, n) && AllFit(plan, n)
    requires order != [] && !TermOf(Plan(graph, order), |order| - 1).Branch?
    requires k < |order| && order[k] < |base|
    ensures |Passes(Plan(graph, order), n + 1)| == |order|
    ensures Carries(base[order[k]], Plan(graph, order), Passes(Plan(graph, order), n + 1), k)
    ensures Follows(base, Plan(graph, order), Passes(Plan(graph, order), n + 1), k, holds)
  {
    hide Passes, Follows, Carries, LastHeld, AllFit, Settles;
    OrderedIsLayable(base, graph, enter, order);
    LastHoldsUnlessBranch(Plan(graph, order), n);
    EmissionPreservesFlow(base, graph, enter, order, n, k, holds);
  }
}
