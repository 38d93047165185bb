/** The records the verifier keeps for a function, what its passes compute, and
    the certificates that a check accepts and that inference yields
    (dolang-bytecode/src/verify.rs, `OffsetInfo`, `Block` and `FuncVerifier`). */
module Passes {

  import opened Results
  import opened Bytecode
  import opened Transfer
  import opened Graphs
  import opened Blocks
  import opened Solutions

  datatype OffsetInfo = OffsetInfo(offset: nat, startBlock: bool)

  datatype Block = Block(offset: nat, mark: bool, state: BlockState)

  datatype Used = Used(used: bool, uses: set<nat>)

  // ----- what the passes compute -----

  ghost predicate FirstFault(ctx: Context, f: Func, i: nat, e: InstError) {
    && i < |f.code|
    && SyntaxFault(ctx, f, f.code[i]) == Some(e)
    && forall j :: 0 <= j < i ==> SyntaxFault(ctx, f, f.code[j]) == None
  }

  ghost predicate SyntaxError(ctx: Context, f: Func, error: FuncError)
    requires Contiguous(f.code)
  {
    if Sum(f.upvars) > UPVAR_TOTAL then error == UpvarLimitExceeded
    else
      || (exists i: nat, e :: FirstFault(ctx, f, i, e) && error == AtInst(f.code[i].before, e))
      || (error == UnexpectedEnd && !Terminal(f.code[|f.code| - 1].inst)
          && forall i :: 0 <= i < |f.code| ==> SyntaxFault(ctx, f, f.code[i]) == None)
  }

  // The first instruction, or one after an instruction that ends a block.
  predicate Follows(f: Func, i: nat)
    requires i < |f.code|
  {
    i == 0 || EndsBlock(f.code[i - 1].inst)
  }

  // One of the first `k` instructions branches to instruction `i`.
  ghost predicate TargetedBelow(f: Func, k: nat, i: nat)
    requires i < |f.code|
  {
    exists j: nat :: j < k && Targets(f, j, f.code[i].before)
  }

  /** The first `n` instructions are recorded, each marked if it follows the end of a block. */
  ghost predicate OffsetsUpTo(f: Func, offsets: seq<OffsetInfo>, n: nat) {
    && n <= |f.code| && |offsets| == n
    && forall i :: 0 <= i < n ==> offsets[i] == OffsetInfo(f.code[i].before, Follows(f, i))
  }

  /** As above for all instructions, and those that the first `k` branch to are marked too. */
  ghost predicate MarkedBy(f: Func, offsets: seq<OffsetInfo>, k: nat) {
    && |offsets| == |f.code|
    && forall i :: 0 <= i < |f.code| ==>
         offsets[i] == OffsetInfo(f.code[i].before, Follows(f, i) || TargetedBelow(f, k, i))
  }

  // The search among recorded offsets finds exactly the instruction boundaries.
  lemma {:induction false} BoundaryFound(f: Func, offsets: seq<OffsetInfo>, k: nat, target: int)
    requires MarkedBy(f, offsets, k)
    ensures Find(OffsetKeys(offsets), target).Some? <==> IsBoundary(f, target)
    ensures Find(OffsetKeys(offsets), target).Some? ==>
              f.code[Find(OffsetKeys(offsets), target).value].before == target
  {
    assert forall i :: 0 <= i < |offsets| ==> OffsetKeys(offsets)[i] == f.code[i].before;
  }

  // Marking the target of branch `k` accounts for that branch.
  lemma MarkStep(f: Func, offsets: seq<OffsetInfo>, k: nat, t: nat)
    requires Contiguous(f.code) && k < |f.code| && t < |f.code|
    requires HasTarget(f.code[k].inst) && Target(f.code[k]) == f.code[t].before
    requires MarkedBy(f, offsets, k)
    ensures MarkedBy(f, offsets[t := offsets[t].(startBlock := true)], k + 1)
  {
    assert Targets(f, k, f.code[t].before);
    forall i | 0 <= i < |f.code| && i != t
      ensures TargetedBelow(f, k + 1, i) <==> TargetedBelow(f, k, i)
    {
      if i < t {
        OffsetsIncrease(f.code, i, t);
      } else {
        OffsetsIncrease(f.code, t, i);
      }
      assert !Targets(f, k, f.code[i].before);
    }
  }

  ghost predicate StartsUpTo(f: Func, starts: seq<nat>, n: nat) {
    && Contiguous(f.code) && n <= |f.code|
    && |starts| == |StartsBelow(f, n)|
    && forall b :: 0 <= b < |starts| ==> StartsBelow(f, n)[b] < |f.code| && starts[b] == f.code[StartsBelow(f, n)[b]].before
  }

  lemma MarkedIsStart(f: Func, i: nat)
    requires Contiguous(f.code) && i < |f.code|
    ensures Follows(f, i) || TargetedBelow(f, |f.code|, i) <==> IsStart(f, i)
  {
  }

  // One more offset is looked at: it is a start if it is marked.
  lemma StartsMore(f: Func, offsets: seq<OffsetInfo>, starts: seq<nat>, i: nat)
    requires Contiguous(f.code) && i < |f.code| && MarkedBy(f, offsets, |f.code|) && StartsUpTo(f, starts, i)
    ensures StartsUpTo(f, if offsets[i].startBlock then starts + [offsets[i].offset] else starts, i + 1)
  {
    hide IsStart, Follows, TargetedBelow;
    MarkedIsStart(f, i);
  }

  lemma AllStarts(f: Func, starts: seq<nat>)
    requires StartsUpTo(f, starts, |f.code|)
    ensures starts == StartOffsets(f)
  {
  }

  /** One block for each start, in order, at its offset. */
  ghost predicate BlocksPlaced(f: Func, blocks: seq<Block>) {
    && Contiguous(f.code) && |blocks| > 0
    && BlockKeys(blocks) == StartOffsets(f)
  }

  // Decoding from a block's offset to the next block's gives that block's instructions.
  lemma BlockCode(f: Func, blocks: seq<Block>, b: nat)
    requires BlocksPlaced(f, blocks) && b < |blocks|
    ensures b < |Starts(f)|
    ensures FirstAt(f.code, blocks[b].offset) == Lo(f, b)
    ensures (if b + 1 < |blocks| then FirstAt(f.code, blocks[b + 1].offset) else |f.code|) == Hi(f, b)
  {
    var starts := StartOffsets(f);
    assert blocks[b].offset == BlockKeys(blocks)[b] == starts[b];
    FirstAtStart(f.code, Lo(f, b));
    if b + 1 < |blocks| {
      assert blocks[b + 1].offset == BlockKeys(blocks)[b + 1] == starts[b + 1];
      FirstAtStart(f.code, Lo(f, b + 1));
    }
  }

  // The search for a branch target among the blocks finds the block there.
  lemma TargetBlockFound(f: Func, blocks: seq<Block>, i: nat)
    requires BlocksPlaced(f, blocks) && TargetsOk(f)
    requires i < |f.code| && HasTarget(f.code[i].inst)
    ensures Find(BlockKeys(blocks), Target(f.code[i])) == Some(BlockAt(f, Target(f.code[i])))
  {
    BlockAtTarget(f, i);
    StartsBelowOrdered(f, |f.code|);
    var b := BlockAt(f, Target(f.code[i]));
    var keys := BlockKeys(blocks);
    assert keys[b] == Target(f.code[i]);
    var found := Find(keys, Target(f.code[i])).value;
    if found < b {
      OffsetsIncrease(f.code, Lo(f, found), Lo(f, b));
    } else if b < found {
      OffsetsIncrease(f.code, Lo(f, b), Lo(f, found));
    }
  }

  /** A claimed certificate names every block start but the entry's. */
  predicate PlacementAgrees(starts: seq<nat>, cert: Certificate) {
    && |cert.blocks| == |starts| - 1
    && forall b :: 0 <= b < |cert.blocks| ==> cert.blocks[b].0 == starts[b + 1]
  }

  /** Blocks in the neutral state, or as claimed; the entry's state is set up later. */
  function InitialBlocks(starts: seq<nat>, cert: Option<Certificate>): (blocks: seq<Block>)
    requires |starts| > 0
    requires cert.Some? ==> |cert.value.blocks| == |starts| - 1
    ensures |blocks| == |starts|
    ensures forall b :: 0 <= b < |blocks| ==> !blocks[b].mark && blocks[b].offset == starts[b]
    ensures cert.None? ==> forall b :: 0 <= b < |blocks| ==> blocks[b].state == Neutral([], [])
    ensures cert.Some? ==> forall b :: 0 < b < |blocks| ==> blocks[b].state == cert.value.blocks[b - 1].1
  {
    seq(|starts|, b requires 0 <= b < |starts| =>
      Block(starts[b], false, if cert.None? || b == 0 then Neutral([], []) else cert.value.blocks[b - 1].1))
  }

  // Blocks set up at the marked offsets are where blocks are, in the states claimed.
  lemma InitialPlaced(ctx: Context, f: Func, cert: Option<Certificate>)
    requires Contiguous(f.code)
    ensures |StartOffsets(f)| > 0
    ensures cert.Some? ==> (PlacementAgrees(StartOffsets(f), cert.value) <==> BlocksMatch(f, cert.value))
    ensures (cert.Some? ==> PlacementAgrees(StartOffsets(f), cert.value)) ==>
              var blocks := InitialBlocks(StartOffsets(f), cert);
              && BlocksPlaced(f, blocks)
              && (cert.Some? ==>
                    forall b :: 0 < b < |blocks| ==> |Claims(ctx, f, cert.value)| == |blocks|
                                                     && blocks[b].state == Claims(ctx, f, cert.value)[b])
  {
    hide StartsBelow, Entry;
    StartsBelowOrdered(f, |f.code|);
    if cert.Some? ==> PlacementAgrees(StartOffsets(f), cert.value) {
      var blocks := InitialBlocks(StartOffsets(f), cert);
      assert BlockKeys(blocks) == StartOffsets(f);
      if cert.Some? {
        var claims := Claims(ctx, f, cert.value);
        forall b | 0 < b < |blocks|
          ensures blocks[b].state == claims[b]
        {
          assert claims[b] == cert.value.blocks[b - 1].1;
        }
      }
    }
  }

  lemma ClaimsAreStates(ctx: Context, f: Func, cert: Certificate, blocks: seq<Block>)
    requires BlocksPlaced(f, blocks) && BlocksMatch(f, cert)
    requires forall b :: 0 < b < |blocks| && b < |Claims(ctx, f, cert)| ==> blocks[b].state == Claims(ctx, f, cert)[b]
    ensures Claims(ctx, f, cert) == StatesOf(blocks)[0 := Entry(ctx, f)]
  {
    hide Entry;
  }

  // The immediate fall-through successor, if any, and then the branch target, each
  // with the state that reaches it.
  function Outgoing(ctx: Context, f: Func, blocks: seq<Block>, bb: nat, hi: nat, out: BlockState): seq<Flow>
    requires 0 < hi <= |f.code| && out.Live?
    requires HasTarget(f.code[hi - 1].inst) ==> Find(BlockKeys(blocks), Target(f.code[hi - 1])).Some?
  {
    var last := f.code[hi - 1];
    var next :=
      if !Terminal(last.inst) && bb + 1 < |blocks| then [Flow(bb + 1, EdgeState(ctx, last.inst, false, out))] else [];
    var taken :=
      if HasTarget(last.inst) then
        [Flow(Find(BlockKeys(blocks), Target(last)).value, EdgeState(ctx, last.inst, true, out))]
      else [];
    next + taken
  }

  lemma BlocksCounted(f: Func, blocks: seq<Block>)
    requires BlocksPlaced(f, blocks)
    ensures Contiguous(f.code) && |blocks| == |Starts(f)|
  {
    assert |BlockKeys(blocks)| == |StartOffsets(f)|;
  }

  lemma OutgoingIsFlows(ctx: Context, f: Func, blocks: seq<Block>, bb: nat, out: BlockState)
    requires BlocksPlaced(f, blocks) && TargetsOk(f) && bb < |blocks| && out.Live?
    ensures bb < |Starts(f)| && 0 < Hi(f, bb) <= |f.code|
    ensures HasTarget(f.code[Hi(f, bb) - 1].inst) ==> Find(BlockKeys(blocks), Target(f.code[Hi(f, bb) - 1])).Some?
    ensures Outgoing(ctx, f, blocks, bb, Hi(f, bb), out) == FlowsFrom(ctx, f, bb, out)
    ensures forall i :: 0 <= i < |FlowsFrom(ctx, f, bb, out)| ==> FlowsFrom(ctx, f, bb, out)[i].state.Live?
  {
    hide Starts, BlockAt, TargetsOk, BlocksPlaced, Find;
    BlocksCounted(f, blocks);
    BlockRange(f, bb);
    if HasTarget(f.code[Hi(f, bb) - 1].inst) {
      TargetBlockFound(f, blocks, Hi(f, bb) - 1);
    }
  }

  /** What a visit of a block reports, and the depth it records. */
  ghost predicate VisitAgrees(ctx: Context, f: Func, bb: nat, s: BlockState,
                              r: Result<seq<Flow>, FuncError>, before: nat, after: nat)
    requires HasBlock(f, bb) && s.Live?
  {
    match Visit(ctx, f, bb, s)
    case Err(e) => r == Err(e)
    case Ok(out) => r == Ok(FlowsFrom(ctx, f, bb, out)) && after == Max(before, VisitPeak(ctx, f, bb, s))
  }

  ghost predicate FaultFree(ctx: Context, f: Func, n: nat) {
    n <= |f.code| && forall j :: 0 <= j < n ==> SyntaxFault(ctx, f, f.code[j]) == None
  }

  lemma FaultIsError(ctx: Context, f: Func, i: nat, e: InstError)
    requires Contiguous(f.code) && i < |f.code| && FaultFree(ctx, f, i) && Sum(f.upvars) <= UPVAR_TOTAL
    requires SyntaxFault(ctx, f, f.code[i]) == Some(e)
    ensures SyntaxError(ctx, f, AtInst(f.code[i].before, e)) && !SyntaxOk(ctx, f)
  {
    assert FirstFault(ctx, f, i, e);
  }

  lemma NoOffsets(ctx: Context, f: Func)
    requires Contiguous(f.code)
    ensures OffsetsUpTo(f, [], 0) && FaultFree(ctx, f, 0) && Follows(f, 0)
    ensures Sum(f.upvars) > UPVAR_TOTAL ==> SyntaxError(ctx, f, UpvarLimitExceeded) && !SyntaxOk(ctx, f)
  {
  }

  lemma EndOfSyntax(ctx: Context, f: Func)
    requires Contiguous(f.code) && FaultFree(ctx, f, |f.code|) && Sum(f.upvars) <= UPVAR_TOTAL
    ensures SyntaxOk(ctx, f) <==> Terminal(f.code[|f.code| - 1].inst)
    ensures !Terminal(f.code[|f.code| - 1].inst) ==> SyntaxError(ctx, f, UnexpectedEnd)
  {
    hide SyntaxFault;
  }

  // The first instruction at or after an offset, from which a slice of the code is decoded.
  function FirstAt(code: seq<Located>, offset: int): (i: nat)
    ensures i <= |code|
  {
    if |code| == 0 || code[|code| - 1].before < offset then |code| else FirstAt(code[..|code| - 1], offset)
  }

  lemma {:induction false} FirstAtStart(code: seq<Located>, i: nat)
    requires Contiguous(code) && i < |code|
    ensures FirstAt(code, code[i].before) == i
  {
    if i < |code| - 1 {
      OffsetsIncrease(code, i, |code| - 1);
      FirstAtStart(code[..|code| - 1], i);
    } else {
      FirstAtBelow(code, i, code[i].before);
    }
  }

  lemma {:induction false} FirstAtBelow(code: seq<Located>, i: nat, offset: int)
    requires Contiguous(code) && i < |code| && code[i].before == offset && i == |code| - 1
    ensures FirstAt(code, offset) == i
  {
    if i > 0 {
      OffsetsIncrease(code, i - 1, i);
      assert code[..i][|code[..i]| - 1] == code[i - 1];
    }
  }

  // Where a key is among increasing offsets, as the binary search reports it.
  function Find(offsets: seq<nat>, key: int): (r: Option<nat>)
    ensures r.Some? ==> r.value < |offsets| && offsets[r.value] == key
    ensures r.None? ==> forall i :: 0 <= i < |offsets| ==> offsets[i] != key
  {
    if |offsets| == 0 then None
    else if offsets[|offsets| - 1] == key then Some(|offsets| - 1)
    else Find(offsets[..|offsets| - 1], key)
  }

  function OffsetKeys(infos: seq<OffsetInfo>): (r: seq<nat>)
    ensures |r| == |infos| && forall i :: 0 <= i < |r| ==> r[i] == infos[i].offset
  {
    seq(|infos|, i requires 0 <= i < |infos| => infos[i].offset)
  }

  function BlockKeys(blocks: seq<Block>): (r: seq<nat>)
    ensures |r| == |blocks| && forall i :: 0 <= i < |r| ==> r[i] == blocks[i].offset
  {
    seq(|blocks|, i requires 0 <= i < |blocks| => blocks[i].offset)
  }

  ghost function StatesOf(blocks: seq<Block>): (r: seq<BlockState>)
    ensures |r| == |blocks| && forall i :: 0 <= i < |r| ==> r[i] == blocks[i].state
  {
    seq(|blocks|, i requires 0 <= i < |blocks| => blocks[i].state)
  }

  /** The offsets at which blocks start. */
  ghost function StartOffsets(f: Func): (r: seq<nat>)
    requires Contiguous(f.code)
    ensures |r| == |Starts(f)|
    ensures forall b :: 0 <= b < |r| ==> Starts(f)[b] < |f.code| && r[b] == f.code[Starts(f)[b]].before
  {
    StartsBelowOrdered(f, |f.code|);
    seq(|Starts(f)|, b requires 0 <= b < |Starts(f)| => f.code[Starts(f)[b]].before)
  }

  /** The certificate names the start of every block but the entry. */
  ghost predicate BlocksMatch(f: Func, cert: Certificate)
    requires Contiguous(f.code)
  {
    && |cert.blocks| == |Starts(f)| - 1
    && forall b :: 0 <= b < |cert.blocks| ==> cert.blocks[b].0 == StartOffsets(f)[b + 1]
  }

  /** The state a certificate claims for each block. */
  ghost function Claims(ctx: Context, f: Func, cert: Certificate): (r: seq<BlockState>)
    ensures |r| == |cert.blocks| + 1
  {
    [Entry(ctx, f)] + seq(|cert.blocks|, b requires 0 <= b < |cert.blocks| => cert.blocks[b].1)
  }

  ghost predicate SettledAndReached(ctx: Context, f: Func, claims: seq<BlockState>)
    requires Contiguous(f.code) && |claims| == |Starts(f)|
  {
    && (forall b :: 0 <= b < |claims| ==> claims[b].Live? && Settled(ctx, f, claims, b))
    && (forall b :: 0 <= b < |claims| ==> Reachable(BlockGraph(f), 0, b))
  }

  lemma OnePeak(ctx: Context, f: Func, claims: seq<BlockState>, p: nat, q: nat)
    requires Contiguous(f.code) && |claims| == |Starts(f)|
    requires PeakIs(ctx, f, claims, p) && PeakIs(ctx, f, claims, q)
    ensures p == q
  {
  }

  /** The certificates a check must accept: they name the blocks, every block is
      reachable and settled, and the depth claimed is the depth attained. */
  ghost predicate Accepted(ctx: Context, f: Func, cert: Certificate) {
    && Contiguous(f.code) && SyntaxOk(ctx, f) && TargetsOk(f) && BlocksMatch(f, cert)
    && SettledAndReached(ctx, f, Claims(ctx, f, cert))
    && PeakIs(ctx, f, Claims(ctx, f, cert), cert.maxOperandDepth)
  }

  // ----- why a certificate is refused -----

  /** The claim of the block a flow goes to conflicts with the flow, or is not as it merges. */
  ghost predicate FlowRefused(f: Func, claims: seq<BlockState>, flow: Flow, error: FuncError)
    requires Contiguous(f.code) && |claims| == |Starts(f)|
  {
    && flow.to < |claims| && flow.state.Live?
    && match Merge(flow.state, claims[flow.to])
       case Err(e) => error == AtInst(StartOffsets(f)[flow.to], e)
       case Ok(m) => m != claims[flow.to] && error == AtInst(StartOffsets(f)[flow.to], NotAFixedPoint)
  }

  ghost predicate SomeFlowRefused(f: Func, claims: seq<BlockState>, flows: seq<Flow>, error: FuncError)
    requires Contiguous(f.code) && |claims| == |Starts(f)|
  {
    exists i :: 0 <= i < |flows| && FlowRefused(f, claims, flows[i], error)
  }

  /** A reachable block does not step through or sends on what its successor does not claim;
      or the block is not reachable. */
  ghost predicate BlockRefused(ctx: Context, f: Func, claims: seq<BlockState>, b: nat, error: FuncError)
    requires HasBlock(f, b) && |claims| == |Starts(f)|
  {
    if !Reachable(BlockGraph(f), 0, b) then error == AtInst(StartOffsets(f)[b], InstructionUnreachable)
    else
      && claims[b].Live?
      && match Visit(ctx, f, b, claims[b])
         case Err(e) => error == e
         case Ok(out) => SomeFlowRefused(f, claims, FlowsFrom(ctx, f, b, out), error)
  }

  ghost predicate ClaimsRefused(ctx: Context, f: Func, claims: seq<BlockState>, error: FuncError)
    requires Contiguous(f.code) && |claims| == |Starts(f)|
  {
    exists b :: 0 <= b < |claims| && BlockRefused(ctx, f, claims, b, error)
  }

  ghost predicate TargetRefused(f: Func, error: FuncError) {
    exists i ::
      && 0 <= i < |f.code| && HasTarget(f.code[i].inst) && !IsBoundary(f, Target(f.code[i]))
      && error == AtInst(f.code[i].before, BranchTargetInvalid)
  }

  /** What the error a check ends in means, pass by pass. */
  ghost predicate Refusal(ctx: Context, f: Func, cert: Certificate, error: FuncError)
    requires Contiguous(f.code)
  {
    if !SyntaxOk(ctx, f) then SyntaxError(ctx, f, error)
    else if !TargetsOk(f) then TargetRefused(f, error)
    else if !BlocksMatch(f, cert) then error == BasicBlockMismatch
    else
      var claims := Claims(ctx, f, cert);
      if !SettledAndReached(ctx, f, claims) then ClaimsRefused(ctx, f, claims, error)
      else error == OperandDepthMismatch && !PeakIs(ctx, f, claims, cert.maxOperandDepth)
  }

  lemma FlowRefusedIs(f: Func, blocks: seq<Block>, claims: seq<BlockState>, flow: Flow, error: FuncError)
    requires BlocksPlaced(f, blocks) && StatesOf(blocks) == claims && |claims| == |Starts(f)|
    requires flow.to < |blocks| && flow.state.Live? && !Absorbed(flow.state, blocks[flow.to].state)
    requires match Merge(flow.state, blocks[flow.to].state)
             case Err(e) => error == AtInst(blocks[flow.to].offset, e)
             case Ok(_) => error == AtInst(blocks[flow.to].offset, NotAFixedPoint)
    ensures FlowRefused(f, claims, flow, error)
  {
    hide Merge, StartOffsets;
    assert StatesOf(blocks)[flow.to] == claims[flow.to];
    assert BlockKeys(blocks)[flow.to] == StartOffsets(f)[flow.to];
  }

  lemma FlowRefusedFails(f: Func, claims: seq<BlockState>, flows: seq<Flow>, error: FuncError)
    requires Contiguous(f.code) && |claims| == |Starts(f)| && SomeFlowRefused(f, claims, flows, error)
    ensures exists i :: 0 <= i < |flows| && !AbsorbedAt(flows, claims, i)
  {
    hide Merge, StartOffsets;
    var i :| 0 <= i < |flows| && FlowRefused(f, claims, flows[i], error);
    assert !AbsorbedAt(flows, claims, i);
  }

  lemma RefusedFails(ctx: Context, f: Func, claims: seq<BlockState>, error: FuncError)
    requires Contiguous(f.code) && |claims| == |Starts(f)| && ClaimsRefused(ctx, f, claims, error)
    ensures !SettledAndReached(ctx, f, claims)
  {
    hide StartOffsets, FlowsFrom, Merge;
    var b: nat :| b < |claims| && BlockRefused(ctx, f, claims, b, error);
    if Reachable(BlockGraph(f), 0, b) && Visit(ctx, f, b, claims[b]).Ok? {
      FlowRefusedFails(f, claims, FlowsFrom(ctx, f, b, Visit(ctx, f, b, claims[b]).value), error);
    }
  }

  lemma UnreachableRefused(ctx: Context, f: Func, blocks: seq<Block>, claims: seq<BlockState>, b: nat)
    requires BlocksPlaced(f, blocks) && |claims| == |Starts(f)| && b < |blocks| == |claims|
    requires !Reachable(BlockGraph(f), 0, b)
    ensures ClaimsRefused(ctx, f, claims, AtInst(blocks[b].offset, InstructionUnreachable))
  {
    assert BlockKeys(blocks)[b] == StartOffsets(f)[b];
    assert BlockRefused(ctx, f, claims, b, AtInst(blocks[b].offset, InstructionUnreachable));
  }

  ghost predicate AbsorbedAt(flows: seq<Flow>, claims: seq<BlockState>, i: nat) {
    i < |flows| && flows[i].to < |claims| && flows[i].state.Live? && Absorbed(flows[i].state, claims[flows[i].to])
  }

  /** What inference yields: the most precise solution, live on the reachable blocks. */
  ghost predicate Inferred(ctx: Context, f: Func, states: seq<BlockState>) {
    && Solution(ctx, f, states)
    && BelowSolutions(ctx, f, states)
    && (forall b :: 0 <= b < |states| ==>
          if states[b].Live? then |states[b].locals| == f.locals else states[b] == Neutral([], []))
    && (forall b :: 0 <= b < |states| ==> (states[b].Live? <==> Reachable(BlockGraph(f), 0, b)))
  }

  ghost predicate InferredCert(ctx: Context, f: Func, cert: Certificate) {
    && Contiguous(f.code) && SyntaxOk(ctx, f) && TargetsOk(f) && BlocksMatch(f, cert)
    && Inferred(ctx, f, Claims(ctx, f, cert))
    && PeakIs(ctx, f, Claims(ctx, f, cert), cert.maxOperandDepth)
  }

  /** A pass refuses the function, or its data flow equations have no solution. */
  ghost predicate NothingInferable(ctx: Context, f: Func)
    requires Contiguous(f.code)
  {
    !SyntaxOk(ctx, f) || !TargetsOk(f) || Unsolvable(ctx, f)
  }

  /** The offset and state of every block but the entry. */
  function Listed(blocks: seq<Block>): (r: seq<(nat, BlockState)>)
    requires |blocks| > 0
    ensures |r| == |blocks| - 1
    ensures forall b :: 0 <= b < |r| ==> r[b] == (blocks[b + 1].offset, blocks[b + 1].state)
  {
    seq(|blocks| - 1, b requires 0 <= b < |blocks| - 1 => (blocks[b + 1].offset, blocks[b + 1].state))
  }

  // The certificate that lists every block but the entry claims the blocks' states.
  lemma ListedClaims(ctx: Context, f: Func, blocks: seq<Block>, cert: Certificate)
    requires BlocksPlaced(f, blocks) && blocks[0].state == Entry(ctx, f) && cert.blocks == Listed(blocks)
    ensures BlocksMatch(f, cert) && Claims(ctx, f, cert) == StatesOf(blocks)
  {
    forall b | 0 <= b < |cert.blocks|
      ensures cert.blocks[b].0 == StartOffsets(f)[b + 1]
    {
      assert BlockKeys(blocks)[b + 1] == StartOffsets(f)[b + 1];
    }
  }

  lemma ListedInferred(ctx: Context, f: Func, blocks: seq<Block>, cert: Certificate)
    requires BlocksPlaced(f, blocks) && SyntaxOk(ctx, f) && TargetsOk(f)
    requires Inferred(ctx, f, StatesOf(blocks)) && PeakIs(ctx, f, StatesOf(blocks), cert.maxOperandDepth)
    requires cert.blocks == Listed(blocks)
    ensures InferredCert(ctx, f, cert)
  {
    assert blocks[0].state == StatesOf(blocks)[0];
    ListedClaims(ctx, f, blocks, cert);
  }

  // An accepted certificate is one that both passes agree with and whose claims hold up.
  lemma AcceptedIs(ctx: Context, f: Func, cert: Certificate)
    requires Contiguous(f.code) && SyntaxOk(ctx, f) && TargetsOk(f) && BlocksMatch(f, cert)
    ensures |Claims(ctx, f, cert)| == |Starts(f)|
    ensures Accepted(ctx, f, cert) <==>
              && SettledAndReached(ctx, f, Claims(ctx, f, cert))
              && PeakIs(ctx, f, Claims(ctx, f, cert), cert.maxOperandDepth)
  {
  }
}
