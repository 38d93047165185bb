/** Verification of one function (dolang-bytecode/src/verify.rs, `FuncVerifier`):
    the syntax pass, the basic block pass and the data flow pass, which either
    infers a certificate or checks a claimed one. */
module FuncVerifiers {

  import opened Results
  import opened Bytecode
  import opened Transfer
  import opened Graphs
  import opened Blocks
  import opened Solutions
  import opened Passes
  import opened Inference
  import Checking
  import WorkStates

  class FuncVerifier {
    const ctx: Context
    const index: nat
    const f: Func
    const used: array<Used>
    var offsets: seq<OffsetInfo>
    var blocks: seq<Block>
    var queue: seq<nat>
    var maxOperandDepth: nat

    constructor (ctx: Context, index: nat, f: Func, used: array<Used>)
      ensures this.ctx == ctx && this.index == index && this.f == f && this.used == used
      ensures offsets == [] && blocks == [] && queue == [] && maxOperandDepth == 0
    {
      this.ctx, this.index, this.f, this.used := ctx, index, f, used;
      offsets, blocks, queue, maxOperandDepth := [], [], [], 0;
    }

    // The checks of an instruction that ends a basic block.
    method CheckEnd(at: Located) returns (fault: Option<InstError>)
      requires EndsBlock(at.inst)
      ensures fault == SyntaxFault(ctx, f, at)
    {
      hide TargetFault;
      match at.inst {
        case ElseFallthrough(kind) => fault := if kind > 1 then Some(InvalidElseKind) else None;
        case NlBranch(_, _) => fault := None;
        case UnpackBranch(unpack, _) =>
          if unpack >= |ctx.unpacks| {
            fault := Some(UnpackIndexOutOfBounds);
          } else {
            fault := CheckTarget(at);
          }
        case _ => fault := CheckTarget(at);
      }
    }

    // The checks of an instruction that makes no closure.
    method CheckInst(at: Located) returns (fault: Option<InstError>, needBlock: bool)
      requires !at.inst.Close? && !at.inst.NlGuard?
      ensures fault == SyntaxFault(ctx, f, at)
      ensures fault == None ==> needBlock == EndsBlock(at.inst)
    {
      hide TargetFault;
      fault, needBlock := None, false;
      match at.inst {
        case Swap(i, j) =>
          if i == j {
            fault := Some(NoOpSwap);
          }
        case Call(pack) => fault := CheckPack(pack);
        case MethodCall(sym, pack) =>
          if sym >= ctx.symbols {
            fault := Some(SymIndexOutOfBounds);
          } else {
            fault := CheckPack(pack);
          }
        case Builtin(id, pack) =>
          if id >= BUILTIN_COUNT {
            fault := Some(BuiltinIndexOutOfBounds);
          } else {
            fault := CheckPack(pack);
          }
        case LoadConst(id) =>
          if id >= ctx.constants {
            fault := Some(ConstIndexOutOfBounds);
          }
        case LoadLocal(slot) => fault := CheckSlot(slot);
        case StoreLocal(slot) => fault := CheckSlot(slot);
        case Get(sym) => fault := CheckSym(sym);
        case Set(sym) => fault := CheckSym(sym);
        case Branch(_) | BranchTrue(_) | BranchFalse(_) | ElseFallthrough(_) | NlBranch(_, _) | UnpackBranch(_, _) =>
          fault := CheckEnd(at);
          needBlock := true;
        case Reify(pack) => fault := CheckPack(pack);
        case Unpack(unpack) =>
          if unpack >= |ctx.unpacks| {
            fault := Some(UnpackIndexOutOfBounds);
          }
        case _ =>
      }
    }

    // Checks one instruction, records that this function uses another, and tells whether
    // the next instruction starts a block.
    method SyntaxInst(at: Located) returns (fault: Option<InstError>, needBlock: bool)
      requires index < used.Length
      modifies used
      ensures fault == SyntaxFault(ctx, f, at)
      ensures fault == None ==>
                && needBlock == EndsBlock(at.inst)
                && used[index] == Used(old(used[index].used), old(used[index].uses) + UseOf(at.inst))
      ensures forall i :: 0 <= i < used.Length && i != index ==> used[i] == old(used[i])
    {
      hide TargetFault;
      if at.inst.Close? || at.inst.NlGuard? {
        fault := CheckUse(at.inst.func);
        needBlock := false;
      } else {
        fault, needBlock := CheckInst(at);
      }
    }

    method CheckSlot(slot: nat) returns (fault: Option<InstError>)
      ensures fault == Refuse(slot >= f.locals, LocalIndexOutOfBounds)
    {
      return if slot < f.locals then None else Some(LocalIndexOutOfBounds);
    }

    method CheckSym(sym: nat) returns (fault: Option<InstError>)
      ensures fault == Refuse(sym >= ctx.symbols, SymIndexOutOfBounds)
    {
      return if sym < ctx.symbols then None else Some(SymIndexOutOfBounds);
    }

    method CheckPack(pack: nat) returns (fault: Option<InstError>)
      ensures fault == Refuse(pack >= |ctx.packs|, PackIndexOutOfBounds)
    {
      return if pack < |ctx.packs| then None else Some(PackIndexOutOfBounds);
    }

    // The branch must go inside the function's bytecode.
    method CheckTarget(at: Located) returns (fault: Option<InstError>)
      requires HasTarget(at.inst)
      ensures fault == TargetFault(f, at)
    {
      var length := CodeLength(f);
      return if 0 <= at.after + at.inst.offset < length then None else Some(BranchTargetOutOfBounds);
    }

    // The function must exist, and is then used.
    method CheckUse(func: nat) returns (fault: Option<InstError>)
      requires index < used.Length
      modifies used
      ensures fault == Refuse(func >= |ctx.funcs|, FuncIndexOutOfBounds)
      ensures fault == None ==> used[index] == Used(old(used[index].used), old(used[index].uses) + {func})
      ensures fault.Some? ==> used[index] == old(used[index])
      ensures forall i :: 0 <= i < used.Length && i != index ==> used[i] == old(used[i])
    {
      if func >= |ctx.funcs| {
        return Some(FuncIndexOutOfBounds);
      }
      used[index] := Used(used[index].used, used[index].uses + {func});
      return None;
    }

    /** Pass 0: static limits, well-formed immediates, branch targets in bounds. */
    method Syntax() returns (error: Option<FuncError>)
      requires FileChecked(ctx, f) && index < used.Length && offsets == []
      modifies this`offsets, used
      ensures error == None <==> SyntaxOk(ctx, f)
      ensures error.Some? ==> SyntaxError(ctx, f, error.value)
      ensures error == None ==> OffsetsUpTo(f, offsets, |f.code|)
      ensures error == None ==>
                used[index] == Used(old(used[index].used), old(used[index].uses) + UsesOf(f.code, |f.code|))
      ensures forall i :: 0 <= i < used.Length && i != index ==> used[i] == old(used[i])
    {
      hide SyntaxFault, Terminal, EndsBlock, UseOf, Sum, OffsetsUpTo, FaultFree, SyntaxError, SyntaxOk;
      NoOffsets(ctx, f);
      var total := WorkStates.SaturatingSum(f.upvars);
      if total > UPVAR_TOTAL {
        return Some(UpvarLimitExceeded);
      }
      var startBlock := true;
      for i := 0 to |f.code|
        invariant OffsetsUpTo(f, offsets, i) && FaultFree(ctx, f, i)
        invariant i < |f.code| ==> startBlock == Follows(f, i)
        invariant used[index] == Used(old(used[index].used), old(used[index].uses) + UsesOf(f.code, i))
        invariant forall j :: 0 <= j < used.Length && j != index ==> used[j] == old(used[j])
      {
        error, startBlock := SyntaxAt(i, startBlock);
        if error.Some? {
          return;
        }
      }
      EndOfSyntax(ctx, f);
      return if Terminal(f.code[|f.code| - 1].inst) then None else Some(UnexpectedEnd);
    }

    // Records and checks instruction `i`.
    method SyntaxAt(i: nat, startBlock: bool) returns (error: Option<FuncError>, needBlock: bool)
      requires FileChecked(ctx, f) && index < used.Length && i < |f.code|
      requires OffsetsUpTo(f, offsets, i) && FaultFree(ctx, f, i) && Sum(f.upvars) <= UPVAR_TOTAL
      requires startBlock == Follows(f, i)
      modifies this`offsets, used
      ensures error.Some? ==> SyntaxError(ctx, f, error.value) && !SyntaxOk(ctx, f)
      ensures error == None ==> OffsetsUpTo(f, offsets, i + 1) && FaultFree(ctx, f, i + 1)
      ensures error == None ==> needBlock == EndsBlock(f.code[i].inst)
      ensures error == None ==>
                used[index] == Used(old(used[index].used), old(used[index].uses) + UseOf(f.code[i].inst))
      ensures forall j :: 0 <= j < used.Length && j != index ==> used[j] == old(used[j])
    {
      hide SyntaxFault, EndsBlock, UseOf, Sum, SyntaxError, SyntaxOk, Follows;
      var at := f.code[i];
      offsets := offsets + [OffsetInfo(at.before, startBlock)];
      var fault;
      fault, needBlock := SyntaxInst(at);
      if fault.Some? {
        FaultIsError(ctx, f, i, fault.value);
        return Some(AtInst(at.before, fault.value)), needBlock;
      }
      return None, needBlock;
    }

    /** Pass 1, first half: branches go to instructions, which then start blocks. */
    method MarkTargets() returns (error: Option<FuncError>)
      requires FileChecked(ctx, f) && OffsetsUpTo(f, offsets, |f.code|)
      modifies this`offsets
      ensures error == None <==> TargetsOk(f)
      ensures error.Some? ==> TargetRefused(f, error.value)
      ensures error == None ==> MarkedBy(f, offsets, |f.code|)
    {
      for k := 0 to |f.code|
        invariant MarkedBy(f, offsets, k)
        invariant forall j :: 0 <= j < k && HasTarget(f.code[j].inst) ==> IsBoundary(f, Target(f.code[j]))
      {
        var at := f.code[k];
        if HasTarget(at.inst) {
          BoundaryFound(f, offsets, k, Target(at));
          var found := Find(OffsetKeys(offsets), Target(at));
          if found.None? {
            return Some(AtInst(at.before, BranchTargetInvalid));
          }
          var t := found.value;
          MarkStep(f, offsets, k, t);
          offsets := offsets[t := offsets[t].(startBlock := true)];
        }
      }
      return None;
    }

    // The offsets marked as block starts, in order.
    method MarkedOffsets() returns (starts: seq<nat>)
      requires FileChecked(ctx, f) && MarkedBy(f, offsets, |f.code|)
      ensures starts == StartOffsets(f)
    {
      starts := [];
      assert StartsUpTo(f, starts, 0);
      hide StartsUpTo, Follows, TargetedBelow;
      for i := 0 to |offsets|
        invariant StartsUpTo(f, starts, i)
      {
        StartsMore(f, offsets, starts, i);
        if offsets[i].startBlock {
          starts := starts + [offsets[i].offset];
        }
      }
      AllStarts(f, starts);
    }

    /** Pass 1: the blocks, whose placement a claimed certificate must agree with. */
    method BasicBlocks(cert: Option<Certificate>) returns (error: Option<FuncError>)
      requires FileChecked(ctx, f) && OffsetsUpTo(f, offsets, |f.code|) && blocks == []
      modifies this`offsets, this`blocks
      ensures error == None <==> TargetsOk(f) && (cert.Some? ==> BlocksMatch(f, cert.value))
      ensures error == None ==> BlocksPlaced(f, blocks)
      ensures error == None && cert.None? ==> forall b :: 0 <= b < |blocks| ==> blocks[b].state == Neutral([], [])
      ensures error == None && cert.Some? ==>
                forall b :: 0 < b < |blocks| ==> blocks[b].state == Claims(ctx, f, cert.value)[b]
      ensures forall b :: 0 <= b < |blocks| ==> !blocks[b].mark
      ensures error.Some? ==> if TargetsOk(f) then error == Some(BasicBlockMismatch) else TargetRefused(f, error.value)
    {
      hide TargetsOk, TargetRefused, OffsetsUpTo, MarkedBy, Entry, StartsBelow, BlocksMatch, BlocksPlaced, Claims;
      error := MarkTargets();
      if error.Some? {
        return;
      }
      var starts := MarkedOffsets();
      InitialPlaced(ctx, f, cert);
      if cert.Some? && !PlacementAgrees(starts, cert.value) {
        return Some(BasicBlockMismatch);
      }
      blocks := InitialBlocks(starts, cert);
    }

    /** Steps over every instruction of a block, and gives the state that reaches
        each successor. */
    method VisitBlock(bb: nat) returns (r: Result<seq<Flow>, FuncError>)
      requires FileChecked(ctx, f) && TargetsOk(f) && BlocksPlaced(f, blocks)
      requires bb < |blocks| && blocks[bb].state.Live?
      modifies this`maxOperandDepth
      ensures VisitAgrees(ctx, f, bb, blocks[bb].state, r, old(maxOperandDepth), maxOperandDepth)
    {
      hide Peak, Run, FirstAt, EdgeState;
      var stepped := StepBlock(bb);
      if stepped.Err? {
        return Err(stepped.error);
      }
      BlockCode(f, blocks, bb);
      OutgoingIsFlows(ctx, f, blocks, bb, stepped.value);
      var hi := if bb + 1 < |blocks| then FirstAt(f.code, blocks[bb + 1].offset) else |f.code|;
      var flows := Outgoing(ctx, f, blocks, bb, hi, stepped.value);
      RaisePeak(flows);
      return Ok(flows);
    }

    // The state after the last instruction of a block.
    method StepBlock(bb: nat) returns (r: Result<BlockState, FuncError>)
      requires FileChecked(ctx, f) && BlocksPlaced(f, blocks)
      requires bb < |blocks| && blocks[bb].state.Live?
      modifies this`maxOperandDepth
      ensures Lo(f, bb) <= Hi(f, bb) <= |f.code|
      ensures r == Visit(ctx, f, bb, blocks[bb].state)
      ensures r.Ok? ==>
                maxOperandDepth == Max(old(maxOperandDepth), Peak(ctx, f, Lo(f, bb), Hi(f, bb), blocks[bb].state))
    {
      BlockRange(f, bb);
      BlockCode(f, blocks, bb);
      var lo := FirstAt(f.code, blocks[bb].offset);
      var hi := if bb + 1 < |blocks| then FirstAt(f.code, blocks[bb + 1].offset) else |f.code|;
      var block := new WorkStates.WorkState(blocks[bb].state);
      var error := StepRange(block, lo, hi);
      return if error.Some? then Err(error.value) else Ok(block.Snapshot());
    }

    // Steps over instructions `lo` to `hi - 1`, recording the greatest depth.
    method StepRange(block: WorkStates.WorkState, lo: nat, hi: nat) returns (error: Option<FuncError>)
      requires lo <= hi <= |f.code|
      modifies this`maxOperandDepth, block
      ensures match Run(ctx, f, lo, hi, old(block.View()))
              case Err(e) => error == Some(e)
              case Ok(out) =>
                && error == None && block.View() == out
                && maxOperandDepth == Max(old(maxOperandDepth), Peak(ctx, f, lo, hi, old(block.View())))
    {
      hide Transfer.Step;
      ghost var s := block.View();
      for i := lo to hi
        invariant Run(ctx, f, lo, i, s) == Ok(block.View())
        invariant maxOperandDepth == Max(old(maxOperandDepth), Peak(ctx, f, lo, i, s))
      {
        var fault := block.Step(ctx, f, f.code[i].inst);
        if fault.Some? {
          RunPrefix(ctx, f, lo, i + 1, hi, s);
          return Some(AtInst(f.code[i].before, fault.value));
        }
        maxOperandDepth := Max(maxOperandDepth, block.operands);
      }
      return None;
    }

    // Accounts for what an edge pushes.
    method RaisePeak(flows: seq<Flow>)
      requires forall i :: 0 <= i < |flows| ==> flows[i].state.Live?
      modifies this`maxOperandDepth
      ensures maxOperandDepth == Max(old(maxOperandDepth), FlowPeak(flows))
    {
      for i := 0 to |flows|
        invariant maxOperandDepth == Max(old(maxOperandDepth), FlowPeak(flows[..i]))
      {
        assert flows[..i + 1][..i] == flows[..i];
        maxOperandDepth := Max(maxOperandDepth, flows[i].state.operands);
      }
      assert flows[..|flows|] == flows;
    }

    // Sets up the entry block and queues it.
    method EnterFunction()
      requires FileChecked(ctx, f) && BlocksPlaced(f, blocks)
      modifies this`blocks, this`queue, this`maxOperandDepth
      ensures |blocks| > 0 && blocks == old(blocks)[0 := Block(old(blocks)[0].offset, true, Entry(ctx, f))]
      ensures queue == [0] && maxOperandDepth == Entry(ctx, f).operands
    {
      var operands := UnpackArity(ctx, f.sig);
      blocks := blocks[0 := Block(blocks[0].offset, true, Live(operands, seq(f.locals, _ => Invalid), f.upvars))];
      maxOperandDepth := operands;
      queue := [0];
    }

    /** Merges the state that reaches a successor into it, marking and queueing the
        successor if that changes an unmarked one. */
    method MergeInferred(to: nat, edge: BlockState) returns (error: Option<FuncError>)
      requires to < |blocks| && edge.Live?
      modifies this`blocks, this`queue
      ensures match Merge(edge, old(blocks)[to].state)
              case Err(e) => error == Some(AtInst(old(blocks)[to].offset, e))
              case Ok(m) => error == None && blocks == Merged(old(blocks), to, m)
                            && queue == Requeued(old(blocks), old(queue), to, m)
    {
      var prev := blocks[to];
      match Merge(edge, prev.state)
      case Err(e) => return Some(AtInst(prev.offset, e));
      case Ok(m) =>
        if prev.mark {
          blocks := blocks[to := Block(prev.offset, true, m)];
        } else {
          blocks := blocks[to := Block(prev.offset, m != prev.state, m)];
          if m != prev.state {
            queue := queue + [to];
          }
        }
        return None;
    }

    // Merges the state that flow `i` of a visit carries into the block it goes to.
    method MergeFlow(bb: nat, flows: seq<Flow>, i: nat, ghost x: BlockState, ghost seen: seq<BlockState>)
      returns (error: Option<FuncError>)
      requires TargetsOk(f) && Inferring(ctx, f, blocks, queue, seen, maxOperandDepth, bb)
      requires Merging(f, blocks, bb, x, flows, i) && i < |flows|
      requires Arrives(ctx, f, flows[i].to, flows[i].state)
      modifies this`blocks, this`queue
      ensures error.Some? ==> Unsolvable(ctx, f)
      ensures error == None ==> Inferring(ctx, f, blocks, queue, seen, maxOperandDepth, bb)
      ensures error == None ==> Merging(f, blocks, bb, x, flows, i + 1)
      ensures error == None ==> Progress(f, old(blocks), old(queue), blocks, queue)
    {
      MergeKeeps(ctx, f, blocks, queue, seen, maxOperandDepth, bb, x, flows, i);
      error := MergeInferred(flows[i].to, flows[i].state);
    }

    // Merges every state a visit sends on into the block it goes to.
    method MergeFlows(bb: nat, flows: seq<Flow>, ghost x: BlockState, ghost seen: seq<BlockState>)
      returns (error: Option<FuncError>)
      requires TargetsOk(f) && Inferring(ctx, f, blocks, queue, seen, maxOperandDepth, bb)
      requires bb < |blocks| && blocks[bb].state == x
      requires forall i :: 0 <= i < |flows| ==> Arrives(ctx, f, flows[i].to, flows[i].state)
      modifies this`blocks, this`queue
      ensures error.Some? ==> Unsolvable(ctx, f)
      ensures error == None ==> Inferring(ctx, f, blocks, queue, seen, maxOperandDepth, bb)
      ensures error == None ==> Merging(f, blocks, bb, x, flows, |flows|)
      ensures error == None ==> Progress(f, old(blocks), old(queue), blocks, queue)
    {
      for i := 0 to |flows|
        invariant Inferring(ctx, f, blocks, queue, seen, maxOperandDepth, bb)
        invariant Merging(f, blocks, bb, x, flows, i)
        invariant Progress(f, old(blocks), old(queue), blocks, queue)
      {
        error := MergeFlow(bb, flows, i, x, seen);
        if error.Some? {
          return;
        }
      }
      return None;
    }

    // Visits the block last queued and merges what it sends on.
    method InferBlock(ghost seen: seq<BlockState>) returns (error: Option<FuncError>, ghost seen': seq<BlockState>)
      requires SlotsOk(f) && TargetsOk(f) && FileChecked(ctx, f) && |queue| > 0
      requires Inferring(ctx, f, blocks, queue, seen, maxOperandDepth, -1)
      modifies this`blocks, this`queue, this`maxOperandDepth
      ensures error.Some? ==> Unsolvable(ctx, f)
      ensures error == None ==> Inferring(ctx, f, blocks, queue, seen', maxOperandDepth, -1)
      ensures error == None ==> Progress(f, old(blocks), old(queue)[..|old(queue)| - 1], blocks, queue)
    {
      TakeBlock(ctx, f, blocks, queue, seen, maxOperandDepth);
      var bb := queue[|queue| - 1];
      queue := queue[..|queue| - 1];
      blocks := Unmark(blocks, bb);
      VisitArrives(ctx, f, blocks, queue, seen, maxOperandDepth, bb);
      ghost var x := blocks[bb].state;
      seen' := seen[bb := x];
      ghost var peak := maxOperandDepth;
      var visit := VisitBlock(bb);
      if visit.Err? {
        return Some(visit.error), seen';
      }
      VisitKeepsInferring(ctx, f, blocks, queue, seen, peak, bb);
      error := MergeFlows(bb, visit.value, x, seen');
      if error == None {
        EndVisit(ctx, f, blocks, queue, seen', maxOperandDepth, bb, x);
      }
    }

    /** Pass 2 without a certificate: revisits blocks until no state changes. */
    method Infer() returns (error: Option<FuncError>)
      requires FileChecked(ctx, f) && SlotsOk(f) && TargetsOk(f) && BlocksPlaced(f, blocks)
      requires forall b :: 0 <= b < |blocks| ==> !blocks[b].mark && blocks[b].state == Neutral([], [])
      requires queue == [] && maxOperandDepth == 0
      modifies this`blocks, this`queue, this`maxOperandDepth
      ensures error.Some? ==> Unsolvable(ctx, f)
      ensures error == None ==>
                && BlocksPlaced(f, blocks)
                && Inferred(ctx, f, StatesOf(blocks))
                && PeakIs(ctx, f, StatesOf(blocks), maxOperandDepth)
    {
      ghost var seen := StatesOf(blocks);
      StartInferring(ctx, f, blocks, blocks[0 := Block(blocks[0].offset, true, Entry(ctx, f))], seen);
      EnterFunction();
      while |queue| > 0
        invariant Inferring(ctx, f, blocks, queue, seen, maxOperandDepth, -1)
        decreases TotalWeight(f.locals, StatesOf(blocks)), |queue|
      {
        error, seen := InferBlock(seen);
        if error.Some? {
          return;
        }
      }
      EndInferring(ctx, f, blocks, seen, maxOperandDepth);
      return None;
    }

    /** Marks a successor as reached, and checks that the state it claims is
        unchanged by merging in the state that reaches it. */
    method CheckClaim(to: nat, edge: BlockState) returns (error: Option<FuncError>)
      requires to < |blocks| && edge.Live?
      modifies this`blocks, this`queue
      ensures error == None <==> Absorbed(edge, old(blocks)[to].state)
      ensures blocks == Checking.Marked(old(blocks), to) && queue == Checking.Noted(old(blocks), old(queue), to)
      ensures error.Some? ==>
                match Merge(edge, old(blocks)[to].state)
                case Err(e) => error == Some(AtInst(old(blocks)[to].offset, e))
                case Ok(_) => error == Some(AtInst(old(blocks)[to].offset, NotAFixedPoint))
    {
      var succ := blocks[to];
      if !succ.mark {
        queue := queue + [to];
      }
      blocks := blocks[to := Block(succ.offset, true, succ.state)];
      match Merge(edge, succ.state)
      case Err(e) => return Some(AtInst(succ.offset, e));
      case Ok(claimed) =>
        return if claimed != succ.state then Some(AtInst(succ.offset, NotAFixedPoint)) else None;
    }

    // Checks the state that flow `i` carries against the claim of the block it goes to.
    method CheckFlow(bb: nat, flows: seq<Flow>, i: nat, ghost claims: seq<BlockState>, ghost seen: seq<BlockState>)
      returns (error: Option<FuncError>)
      requires i < |flows| && flows[i].to < |blocks| && flows[i].state.Live?
      requires Checking.Claimed(ctx, f, blocks, queue, claims, seen, bb) && Checking.Vetted(blocks, claims, flows, i)
      requires Reachable(BlockGraph(f), 0, flows[i].to)
      modifies this`blocks, this`queue
      ensures error.Some? ==> |claims| == |Starts(f)| && FlowRefused(f, claims, flows[i], error.value)
      ensures error == None ==> Checking.Claimed(ctx, f, blocks, queue, claims, seen, bb)
      ensures error == None ==> Checking.Vetted(blocks, claims, flows, i + 1)
      ensures error == None ==> Checking.Progress(old(blocks), old(queue), blocks, queue)
      ensures |blocks| == |old(blocks)|
      ensures forall b :: 0 <= b < |old(blocks)| && old(blocks)[b].mark ==> blocks[b].mark
    {
      hide BlockGraph, FlowRefused, Merge;
      var flow := flows[i];
      assert blocks[flow.to].state == claims[flow.to] by {
        assert StatesOf(blocks)[flow.to] == claims[flow.to];
      }
      if Absorbed(flow.state, claims[flow.to]) {
        Checking.MarkKeeps(ctx, f, blocks, queue, claims, seen, bb, flows, i);
      }
      ghost var before := blocks;
      error := CheckClaim(flow.to, flow.state);
      if error.Some? {
        FlowRefusedIs(f, before, claims, flow, error.value);
      }
    }

    // Checks every state a visit sends on against the claim of the block it goes to.
    method CheckFlows(bb: nat, flows: seq<Flow>, ghost claims: seq<BlockState>, ghost seen: seq<BlockState>)
      returns (error: Option<FuncError>)
      requires Checking.Claimed(ctx, f, blocks, queue, claims, seen, bb)
      requires forall i :: 0 <= i < |flows| ==>
                 flows[i].to < |blocks| && flows[i].state.Live? && Reachable(BlockGraph(f), 0, flows[i].to)
      modifies this`blocks, this`queue
      ensures error.Some? ==> |claims| == |Starts(f)| && SomeFlowRefused(f, claims, flows, error.value)
      ensures error == None ==> Checking.Claimed(ctx, f, blocks, queue, claims, seen, bb)
      ensures error == None ==> Checking.Vetted(blocks, claims, flows, |flows|)
      ensures error == None ==> Checking.Progress(old(blocks), old(queue), blocks, queue)
      ensures forall b :: 0 <= b < |old(blocks)| && old(blocks)[b].mark ==> b < |blocks| && blocks[b].mark
    {
      hide BlockGraph, FlowRefused, Absorbed;
      for i := 0 to |flows|
        invariant Checking.Claimed(ctx, f, blocks, queue, claims, seen, bb)
        invariant |blocks| == |old(blocks)| && Checking.Vetted(blocks, claims, flows, i)
        invariant Checking.Progress(old(blocks), old(queue), blocks, queue)
        invariant forall b :: 0 <= b < |old(blocks)| && old(blocks)[b].mark ==> blocks[b].mark
      {
        error := CheckFlow(bb, flows, i, claims, seen);
        if error.Some? {
          return;
        }
      }
      return None;
    }

    // Visits the block last queued and checks what it sends on.
    method CheckBlock(ghost claims: seq<BlockState>, ghost seen: seq<BlockState>)
      returns (error: Option<FuncError>, ghost seen': seq<BlockState>)
      requires TargetsOk(f) && FileChecked(ctx, f) && |queue| > 0
      requires Checking.Vetting(ctx, f, blocks, queue, claims, seen, maxOperandDepth, -1)
      modifies this`blocks, this`queue, this`maxOperandDepth
      ensures error.Some? ==> |claims| == |Starts(f)| && ClaimsRefused(ctx, f, claims, error.value)
      ensures error == None ==> Checking.Vetting(ctx, f, blocks, queue, claims, seen', maxOperandDepth, -1)
      ensures error == None ==> Checking.Progress(old(blocks), old(queue)[..|old(queue)| - 1], blocks, queue)
    {
      Checking.TakeClaim(ctx, f, blocks, queue, claims, seen);
      var bb := queue[|queue| - 1];
      queue := queue[..|queue| - 1];
      ghost var peak := maxOperandDepth;
      seen' := seen[bb := claims[bb]];
      var visit := VisitBlock(bb);
      if visit.Err? {
        assert BlockRefused(ctx, f, claims, bb, visit.error);
        return Some(visit.error), seen';
      }
      Checking.VisitReaches(ctx, f, blocks, queue, claims, seen, bb);
      error := CheckFlows(bb, visit.value, claims, seen);
      if error.Some? {
        assert BlockRefused(ctx, f, claims, bb, error.value);
        return;
      }
      Checking.VettedSettles(ctx, f, blocks, claims, bb);
      Checking.EndClaim(ctx, f, blocks, queue, claims, seen, bb);
      PeakGrows(ctx, f, seen, peak, bb, claims[bb]);
    }

    // The first block that was never marked, if any.
    method FindUnmarked() returns (found: Option<nat>)
      ensures found == None ==> forall b :: 0 <= b < |blocks| ==> blocks[b].mark
      ensures found.Some? ==> found.value < |blocks| && !blocks[found.value].mark
    {
      for b := 0 to |blocks|
        invariant forall c :: 0 <= c < b ==> blocks[c].mark
      {
        if !blocks[b].mark {
          return Some(b);
        }
      }
      return None;
    }

    // Visits every block that is reached, once.
    method VetQueue(ghost claims: seq<BlockState>, ghost start: seq<BlockState>)
      returns (error: Option<FuncError>, ghost seen: seq<BlockState>)
      requires FileChecked(ctx, f) && TargetsOk(f)
      requires Checking.Vetting(ctx, f, blocks, queue, claims, start, maxOperandDepth, -1)
      modifies this`blocks, this`queue, this`maxOperandDepth
      ensures error.Some? ==> |claims| == |Starts(f)| && ClaimsRefused(ctx, f, claims, error.value)
      ensures error == None ==> Checking.Vetting(ctx, f, blocks, [], claims, seen, maxOperandDepth, -1)
    {
      seen := start;
      while |queue| > 0
        invariant Checking.Vetting(ctx, f, blocks, queue, claims, seen, maxOperandDepth, -1)
        decreases Checking.Unmarked(blocks), |queue|
      {
        error, seen := CheckBlock(claims, seen);
        if error.Some? {
          return;
        }
      }
      error := None;
      assert queue == [];
    }

    /** Pass 2 with a certificate: visits each block once, and accepts claims that
        are settled on blocks that are all reached. */
    method Vet(ghost claims: seq<BlockState>) returns (error: Option<FuncError>)
      requires FileChecked(ctx, f) && TargetsOk(f) && BlocksPlaced(f, blocks)
      requires forall b :: 0 <= b < |blocks| ==> !blocks[b].mark
      requires claims == StatesOf(blocks)[0 := Entry(ctx, f)]
      modifies this`blocks, this`queue, this`maxOperandDepth
      ensures error == None <==> SettledAndReached(ctx, f, claims)
      ensures error.Some? ==> ClaimsRefused(ctx, f, claims, error.value)
      ensures error == None ==> PeakIs(ctx, f, claims, maxOperandDepth)
    {
      ghost var start := blocks[0 := Block(blocks[0].offset, true, Entry(ctx, f))];
      Checking.StartVetting(ctx, f, blocks, start, claims);
      EnterFunction();
      ghost var seen;
      error, seen := VetQueue(claims, seq(|blocks|, _ => Neutral([], [])));
      if error.Some? {
        RefusedFails(ctx, f, claims, error.value);
        return;
      }
      var unmarked := FindUnmarked();
      if unmarked.Some? {
        Checking.UnmarkedUnreachable(ctx, f, blocks, claims, seen, unmarked.value);
        UnreachableRefused(ctx, f, blocks, claims, unmarked.value);
        return Some(AtInst(blocks[unmarked.value].offset, InstructionUnreachable));
      }
      Checking.EndVetting(ctx, f, blocks, claims, seen, maxOperandDepth);
      return None;
    }

    // The passes before data flow.
    method Prepare(cert: Option<Certificate>) returns (error: Option<FuncError>)
      requires FileChecked(ctx, f) && index < used.Length && offsets == [] && blocks == []
      modifies this`offsets, this`blocks, used
      ensures error == None <==> SyntaxOk(ctx, f) && TargetsOk(f) && (cert.Some? ==> BlocksMatch(f, cert.value))
      ensures error.Some? && cert.Some? ==> Refusal(ctx, f, cert.value, error.value)
      ensures error == None ==>
                && BlocksPlaced(f, blocks)
                && (forall b :: 0 <= b < |blocks| ==> !blocks[b].mark)
                && (cert.None? ==> forall b :: 0 <= b < |blocks| ==> blocks[b].state == Neutral([], []))
                && (cert.Some? ==> Claims(ctx, f, cert.value) == StatesOf(blocks)[0 := Entry(ctx, f)])
      ensures error == None ==>
                used[index] == Used(old(used[index].used), old(used[index].uses) + UsesOf(f.code, |f.code|))
      ensures forall i :: 0 <= i < used.Length && i != index ==> used[i] == old(used[i])
    {
      hide SyntaxOk, TargetsOk, TargetRefused, BlocksMatch, OffsetsUpTo, SyntaxError, UsesOf, Claims;
      error := Syntax();
      if error == None {
        error := BasicBlocks(cert);
        if error == None && cert.Some? {
          ClaimsAreStates(ctx, f, cert.value, blocks);
        }
      }
    }

    /** Checks a claimed certificate. */
    method Check(cert: Certificate) returns (error: Option<FuncError>)
      requires FileChecked(ctx, f) && index < used.Length
      requires offsets == [] && blocks == [] && queue == [] && maxOperandDepth == 0
      modifies this, used
      ensures error == None <==> Accepted(ctx, f, cert)
      ensures error.Some? ==> Refusal(ctx, f, cert, error.value)
      ensures error == None ==>
                used[index] == Used(old(used[index].used), old(used[index].uses) + UsesOf(f.code, |f.code|))
      ensures forall i :: 0 <= i < used.Length && i != index ==> used[i] == old(used[i])
    {
      error := Prepare(Some(cert));
      if error.Some? {
        return;
      }
      AcceptedIs(ctx, f, cert);
      ghost var claims := Claims(ctx, f, cert);
      error := Vet(claims);
      if error == None && cert.maxOperandDepth != maxOperandDepth {
        if Accepted(ctx, f, cert) {
          OnePeak(ctx, f, claims, maxOperandDepth, cert.maxOperandDepth);
        }
        return Some(OperandDepthMismatch);
      }
    }

    /** Computes a certificate from scratch. */
    method Compute() returns (r: Result<Certificate, FuncError>)
      requires FileChecked(ctx, f) && index < used.Length
      requires offsets == [] && blocks == [] && queue == [] && maxOperandDepth == 0
      modifies this, used
      ensures r.Ok? ==> InferredCert(ctx, f, r.value)
      ensures r.Err? ==> NothingInferable(ctx, f)
      ensures r.Ok? ==>
                used[index] == Used(old(used[index].used), old(used[index].uses) + UsesOf(f.code, |f.code|))
      ensures forall i :: 0 <= i < used.Length && i != index ==> used[i] == old(used[i])
    {
      var error := Prepare(None);
      if error.Some? {
        return Err(error.value);
      }
      SyntaxGivesSlots(ctx, f);
      error := Infer();
      if error.Some? {
        return Err(error.value);
      }
      var cert := Certificate(maxOperandDepth, Listed(blocks));
      ListedInferred(ctx, f, blocks, cert);
      return Ok(cert);
    }
  }
}
