/** Where relaxation stops too early: it watches only where blocks start, so a last block
    that grows in the final pass goes unseen (dolang-compile/src/emit.rs, `emit`). */
module LastBlocks {

  import opened Results
  import B = Bytecode
  import opened Varint
  import opened InstCodec
  import opened FlowGraphs
  import opened Layouts
  import opened LayoutFlow

  /** A loop of blocks: every block but the last falls through, and the last branches back. */
  ghost predicate Chain(plan: Plan) {
    && Layable(plan)
    && (forall i :: 0 <= i < |plan.order| - 1 ==> Falls(plan, i))
    && TermOf(plan, |plan.order| - 1).Branch?
  }

  function Target(plan: Plan): nat
    requires |plan.order| > 0
  {
    var term := TermOf(plan, |plan.order| - 1);
    if term.Branch? then term.to else 0
  }

  /** The bytes of instructions before block `k`. */
  function Start(plan: Plan, k: nat): nat
    requires k <= |plan.order|
  {
    if k == 0 then 0 else Start(plan, k - 1) + |Body(plan, k - 1)|
  }

  /** The bytes of instructions from the last block's target to the end. */
  function Back(plan: Plan): int
    requires |plan.order| > 0
  {
    Start(plan, |plan.order|) - Start(plan, Position(plan.order, Target(plan)))
  }

  /** The bytes a displacement back over `n` bytes takes. */
  function BackLen(n: int): (r: nat)
    ensures 1 <= r <= 9
  {
    EncodedLen(Zag(-n))
  }

  lemma ChainTarget(plan: Plan)
    requires Chain(plan)
    ensures |plan.order| > 0
    ensures Position(plan.order, Target(plan)) < |plan.order|
  {
    assert TermLayable(plan, |plan.order| - 1);
    assert Target(plan) in Succs(TermOf(plan, |plan.order| - 1));
  }

  lemma {:induction false} StartMonotone(plan: Plan, j: nat, k: nat)
    requires j <= k <= |plan.order|
    ensures Start(plan, j) <= Start(plan, k)
  {
    hide Body;
    if j < k {
      StartMonotone(plan, j, k - 1);
    }
  }

  // ----- the terminators of a chain -----

  lemma FallsThrough(plan: Plan, blocks: seq<OutBlock>, k: nat, src: nat)
    requires k < |plan.order| && Falls(plan, k)
    ensures Terminator(plan, blocks, k, src) == None
    ensures TermBytes(Terminator(plan, blocks, k, src)) == []
  {
    hide OffsetOf;
  }

  lemma TurnsBack(plan: Plan, blocks: seq<OutBlock>, src: nat)
    requires Chain(plan)
    ensures Terminator(plan, blocks, |plan.order| - 1, src)
            == Some(B.Branch(OffsetOf(plan, blocks, Target(plan)) - src))
  {
    hide OffsetOf;
  }

  lemma BranchLength(d: int)
    ensures |EncodeInst(B.Branch(d))| == 1 + EncodedLen(Zag(d))
  {
    hide EncodeUvar;
    assert Operands(B.Branch(d)) == [Zag(d)];
    assert [Zag(d)][1..] == [];
    assert EncodeUvars([Zag(d)]) == EncodeUvar(Zag(d)) + EncodeUvars([]);
  }

  // ----- a chain never moves -----

  // A first guess counts from one byte past the instructions.
  lemma IntroduceEnds(plan: Plan, blocks: seq<OutBlock>, i: nat, offset: nat)
    requires i < |plan.order| && BodiedBelow(plan, blocks, i)
    ensures var next := Introduce(plan, blocks, i, offset);
            Ends(plan, next, next[i], i, next[i].offset + |Body(plan, i)| + 1)
  {
    hide Body, Terminator, TermBytes;
    var body := Body(plan, i);
    var placed := blocks[i := OutBlock(body, |body|, offset)];
    var next := Introduce(plan, blocks, i, offset);
    SameTerminator(plan, placed, next, i, offset + |body| + 1);
  }

  lemma {:induction false} InitialFalls(plan: Plan, blocks: seq<OutBlock>, i: nat, offset: nat, k: nat)
    requires i <= k < |plan.order| && BodiedBelow(plan, blocks, i) && Falls(plan, k)
    ensures |InitialFrom(plan, blocks, i, offset)| == |plan.order|
    ensures InitialFrom(plan, blocks, i, offset)[k].bytecode == Body(plan, k)
    decreases |plan.order| - i
  {
    hide Body, Terminator, Introduce, TermBytes;
    var next := Introduce(plan, blocks, i, offset);
    if i < k {
      InitialFalls(plan, next, i + 1, offset + |Body(plan, i)|, k);
    } else {
      InitialPrefix(plan, next, i + 1, offset + |Body(plan, i)|, k);
      IntroduceEnds(plan, blocks, i, offset);
      assert next[i].offset == offset;
      FallsThrough(plan, next, i, offset + |Body(plan, i)| + 1);
    }
  }

  lemma {:induction false} InitialLast(plan: Plan, blocks: seq<OutBlock>, i: nat, offset: nat)
    requires i < |plan.order| && BodiedBelow(plan, blocks, i)
    ensures var r, last := InitialFrom(plan, blocks, i, offset), |plan.order| - 1;
            |r| == |plan.order| && Ends(plan, r, r[last], last, r[last].offset + |Body(plan, last)| + 1)
    decreases |plan.order| - i
  {
    hide Body, Terminator, Introduce, BodiedBelow, TermBytes, Ends;
    var last := |plan.order| - 1;
    var next := Introduce(plan, blocks, i, offset);
    if i < last {
      InitialLast(plan, next, i + 1, offset + |Body(plan, i)|);
    } else {
      IntroduceEnds(plan, blocks, i, offset);
      InitialEnd(plan, next, offset + |Body(plan, i)|);
    }
  }

  lemma {:induction false} PassFalls(plan: Plan, blocks: seq<OutBlock>, i: nat, offset: nat, k: nat)
    requires i <= k < |plan.order| && Bodied(plan, blocks) && Falls(plan, k)
    ensures PassFrom(plan, blocks, i, offset)[k].bytecode == Body(plan, k)
    decreases |plan.order| - i
  {
    hide Body, Terminator, Advance, Falls, TermBytes;
    if i < k {
      var next := Advance(plan, blocks, i, offset);
      PassFalls(plan, next, i + 1, offset + |next[i].bytecode|, k);
    } else {
      PassFirst(plan, blocks, i, offset);
      AdvanceFalls(plan, blocks, i, offset);
    }
  }

  lemma AdvanceFalls(plan: Plan, blocks: seq<OutBlock>, i: nat, offset: nat)
    requires i < |plan.order| && Bodied(plan, blocks) && Falls(plan, i)
    ensures Advance(plan, blocks, i, offset)[i].bytecode == Body(plan, i)
  {
    hide Body, Terminator, TermBytes, Falls;
    var moved := blocks[i := blocks[i].(offset := offset)];
    FallsThrough(plan, moved, i, offset + |blocks[i].bytecode|);
  }

  // Where the blocks of a chain start, before and after the first pass.
  lemma {:induction false} ChainStarts(plan: Plan, k: nat)
    requires Chain(plan) && k < |plan.order|
    ensures |Passes(plan, 0)| == |Passes(plan, 1)| == |plan.order|
    ensures Passes(plan, 0)[k].offset == Passes(plan, 1)[k].offset == Start(plan, k)
  {
    hide Body, InitialFrom, PassFrom;
    var first := Initial(plan);
    PassesStep(plan, 0);
    assert Bodied(plan, first) && Bodied(plan, Pass(plan, first));
    InitialOffsets(plan, Blank(|plan.order|), 0, 0, 0);
    PassIsSequential(plan, first);
    if k > 0 {
      assert Falls(plan, k - 1);
      ChainStarts(plan, k - 1);
      InitialOffsets(plan, Blank(|plan.order|), 0, 0, k - 1);
      PassFalls(plan, first, 0, 0, k - 1);
    }
  }

  /** Relaxation of a chain stops after one pass. */
  lemma ChainSettles(plan: Plan)
    requires Chain(plan)
    ensures Settles(plan, 0)
  {
    hide Passes, Start, Body;
    forall k | 0 <= k < |plan.order|
      ensures Passes(plan, 0)[k].offset == Passes(plan, 1)[k].offset
    {
      ChainStarts(plan, k);
    }
    ChainStarts(plan, 0);
  }

  // ----- where the last block ends up -----

  lemma StartNext(plan: Plan, k: nat)
    requires k < |plan.order|
    ensures Start(plan, k + 1) == Start(plan, k) + |Body(plan, k)|
  {
  }

  lemma BackLenIs(n: int)
    ensures BackLen(n) == EncodedLen(Zag(-n))
  {
  }

  // In both placements the target starts after the instructions before it.
  lemma {:induction false} TargetStarts(plan: Plan, blocks: seq<OutBlock>)
    requires Chain(plan) && |plan.order| > 0
    requires blocks == Passes(plan, 0) || blocks == Passes(plan, 1)
    ensures Position(plan.order, Target(plan)) < |plan.order|
    ensures OffsetOf(plan, blocks, Target(plan)) == Start(plan, Position(plan.order, Target(plan)))
  {
    hide Passes, Start, Position, Chain, Target;
    ChainTarget(plan);
    ChainStarts(plan, Position(plan.order, Target(plan)));
  }

  lemma {:induction false} FirstGuess(plan: Plan)
    requires |plan.order| > 0
    ensures var first, last := Passes(plan, 0), |plan.order| - 1;
            |first| == |plan.order| && Ends(plan, first, first[last], last, first[last].offset + |Body(plan, last)| + 1)
  {
    hide Body, InitialFrom, Ends;
    InitialLast(plan, Blank(|plan.order|), 0, 0);
  }

  lemma EndsLength(plan: Plan, offsets: seq<OutBlock>, b: OutBlock, k: nat, src: nat)
    requires k < |plan.order| && Ends(plan, offsets, b, k, src)
    ensures |b.bytecode| == |Body(plan, k)| + |TermBytes(Terminator(plan, offsets, k, src))|
  {
    hide Body, Terminator, TermBytes;
  }

  lemma {:induction false} ChainGuess(plan: Plan)
    requires Chain(plan)
    ensures |Passes(plan, 0)| == |plan.order|
    ensures var last := |plan.order| - 1;
            |Passes(plan, 0)[last].bytecode| == |Body(plan, last)| + 1 + BackLen(Back(plan) + 1)
  {
    hide Body, Passes, EncodeInst, Terminator, Start, Target, BackLen, Position, Chain, Ends, OffsetOf;
    ChainTarget(plan);
    var last := |plan.order| - 1;
    var first := Passes(plan, 0);
    ChainStarts(plan, last);
    var src := Start(plan, last) + |Body(plan, last)| + 1;
    FirstGuess(plan);
    EndsLength(plan, first, first[last], last, src);
    TurnsBack(plan, first, src);
    TargetStarts(plan, first);
    StartNext(plan, last);
    BranchLength(OffsetOf(plan, first, Target(plan)) - src);
    assert OffsetOf(plan, first, Target(plan)) - src == -(Back(plan) + 1);
    BackLenIs(Back(plan) + 1);
  }

  lemma {:induction false} ChainFinal(plan: Plan)
    requires Chain(plan)
    ensures |Passes(plan, 1)| == |plan.order|
    ensures var last, d := |plan.order| - 1, -(Back(plan) + 1 + BackLen(Back(plan) + 1));
            Passes(plan, 1)[last].bytecode == Body(plan, last) + EncodeInst(B.Branch(d))
  {
    hide Body, Passes, EncodeInst, Terminator, BackLen, Chain, Settles, Start, Position, OffsetOf, Target;
    ChainTarget(plan);
    var last := |plan.order| - 1;
    var done := Passes(plan, 1);
    ChainStarts(plan, last);
    ChainGuess(plan);
    ChainSettles(plan);
    RefittedFrom(plan, 0, last);
    var src := Start(plan, last) + |Passes(plan, 0)[last].bytecode|;
    TurnsBack(plan, done, src);
    TargetStarts(plan, done);
    StartNext(plan, last);
    assert OffsetOf(plan, done, Target(plan)) - src == -(Back(plan) + 1 + BackLen(Back(plan) + 1));
    assert TermBytes(Terminator(plan, done, last, src)) == EncodeInst(B.Branch(OffsetOf(plan, done, Target(plan)) - src));
  }

  // A block that ends in a branch goes where the branch takes it.
  lemma BranchLands(plan: Plan, blocks: seq<OutBlock>, d: int, holds: bool)
    requires |blocks| == |plan.order| > 0 && Sequential(blocks) && Encodable(B.Branch(d))
    requires blocks[|blocks| - 1].bytecode == Body(plan, |blocks| - 1) + EncodeInst(B.Branch(d))
    ensures var last := blocks[|blocks| - 1];
            LeavesTo(plan, blocks, |blocks| - 1, holds) == Some(last.offset + |last.bytecode| + d)
  {
    hide Body, EncodeInst, DecodeInst, Code, Sequential, Encodable;
    ChainDecodes(plan, blocks, B.Branch(d));
  }

  lemma {:induction false} BackFits(plan: Plan, d: int)
    requires |plan.order| > 0 && Start(plan, |plan.order|) < I64_LIMIT - 10
    requires d == -(Back(plan) + 1 + BackLen(Back(plan) + 1))
    ensures Encodable(B.Branch(d))
  {
    hide Start, BackLen;
    StartMonotone(plan, Position(plan.order, Target(plan)), |plan.order|);
    assert Operands(B.Branch(d)) == [Zag(d)];
  }

  /** The last block of a chain does not branch to its target but as many bytes past it
      as its displacement grew in the only pass. */
  lemma {:induction false} ChainLands(plan: Plan, holds: bool)
    requires Chain(plan)
    requires Start(plan, |plan.order|) < I64_LIMIT - 10
    ensures Settles(plan, 0) && |Passes(plan, 1)| == |plan.order|
    ensures var b := Back(plan);
            LeavesTo(plan, Passes(plan, 1), |plan.order| - 1, holds)
            == Some(OffsetOf(plan, Passes(plan, 1), Target(plan)) + BackLen(b + 1 + BackLen(b + 1)) - BackLen(b + 1))
  {
    hide Body, Passes, EncodeInst, LeavesTo, Chain, Settles, Encodable, BackLen, Start, Position, OffsetOf;
    hide Sequential, Target;
    ChainTarget(plan);
    var last, blocks := |plan.order| - 1, Passes(plan, 1);
    var b := Back(plan);
    var d := -(b + 1 + BackLen(b + 1));
    ChainSettles(plan);
    ChainFinal(plan);
    ChainStarts(plan, last);
    TargetStarts(plan, blocks);
    StartNext(plan, last);
    BranchLength(d);
    BackLenIs(b + 1 + BackLen(b + 1));
    RelaxedIsSequential(plan, 0);
    BackFits(plan, d);
    BranchLands(plan, blocks, d, holds);
  }

  lemma ChainDecodes(plan: Plan, blocks: seq<OutBlock>, inst: B.Inst)
    requires |blocks| == |plan.order| > 0 && Sequential(blocks) && Encodable(inst)
    requires blocks[|blocks| - 1].bytecode == Body(plan, |blocks| - 1) + EncodeInst(inst)
    ensures var last := blocks[|blocks| - 1];
            var pc := last.offset + |Body(plan, |blocks| - 1)|;
            DecodeInst(Code(blocks), pc) == Some(Ok(B.Located(pc, inst, last.offset + |last.bytecode|)))
  {
    hide Body, EncodeInst, DecodeInst;
    var k := |blocks| - 1;
    CodeSlice(blocks, k);
    var pc := blocks[k].offset + |Body(plan, k)|;
    var code := EncodeInst(inst);
    assert Code(blocks)[pc..pc + |code|] == blocks[k].bytecode[|Body(plan, k)|..] == code;
    InstRoundTrip(Code(blocks), pc, inst);
  }

  /** A chain comes out right if and only if its displacement takes no more bytes counted
      from behind the first guess than it took in that guess. */
  lemma {:induction false} ChainIsRightWhen(plan: Plan, holds: bool)
    requires Chain(plan)
    requires Start(plan, |plan.order|) < I64_LIMIT - 10
    ensures |Passes(plan, 1)| == |plan.order|
    ensures var b := Back(plan);
            LeavesTo(plan, Passes(plan, 1), |plan.order| - 1, holds) == Some(OffsetOf(plan, Passes(plan, 1), Target(plan)))
            <==> BackLen(b + 1 + BackLen(b + 1)) == BackLen(b + 1)
  {
    hide Passes, LeavesTo, OffsetOf, BackLen, Back, Start;
    ChainLands(plan, holds);
  }
}
