/** Loops that keep the operand stack as it is, and what becomes of them: whether the emitter
    lays them out right or not, the verifier accepts the code it writes for them. */
module SpinLoops {

  import opened Results
  import opened Bytecode
  import opened Transfer
  import opened Graphs
  import opened Blocks
  import opened Solutions
  import opened Passes
  import opened Varint
  import opened InstCodec
  import FG = FlowGraphs
  import L = Layouts
  import LayoutFlow
  import LastBlocks
  import Certificates
  import Programs
  import ProgramSafety

  function Negs(n: nat): (r: seq<Inst>)
    ensures |r| == n && forall i :: 0 <= i < n ==> r[i] == Neg
  {
    seq(n, _ => Neg)
  }

  lemma NegLength()
    ensures |EncodeInst(Neg)| == 1 && Encodable(Neg)
  {
    assert Operands(Neg) == [];
  }

  lemma LoadLength()
    ensures |EncodeInst(LoadConst(0))| == 2 && Encodable(LoadConst(0))
  {
    assert Operands(LoadConst(0)) == [0] && [0][1..] == [];
    assert EncodeUvars([0]) == EncodeUvar(0) + EncodeUvars([]);
  }

  lemma {:induction false} NegsLength(n: nat)
    ensures |EncodeAll(Negs(n))| == n
  {
    hide EncodeInst;
    if n > 0 {
      NegsLength(n - 1);
      NegLength();
      assert Negs(n)[1..] == Negs(n - 1);
    }
  }

  /** An entry that loads a number and falls into a loop that negates it `n` times a turn. */
  function Spin(n: nat): L.Plan {
    L.Plan([FG.Block([LoadConst(0)], FG.Branch(1), {}), FG.Block(Negs(n), FG.Branch(1), {0, 1})], [0, 1])
  }

  lemma SpinIsChain(n: nat)
    ensures LastBlocks.Chain(Spin(n)) && FG.WellFormed(Spin(n).graph)
    ensures LastBlocks.Target(Spin(n)) == 1 && L.Position(Spin(n).order, 1) == 1
  {
    hide EncodeAll;
    var plan := Spin(n);
    assert L.Position(plan.order, 1) == 1;
    assert plan.order[0] == 0 && plan.order[1] == 1;
    assert FG.Succs(plan.graph[0].term) == {1} && FG.Succs(plan.graph[1].term) == {1};
    assert L.TermLayable(plan, 0) && L.TermLayable(plan, 1);
  }

  lemma SpinBodies(n: nat)
    ensures L.Body(Spin(n), 0) == EncodeInst(LoadConst(0)) && L.Body(Spin(n), 1) == EncodeAll(Negs(n))
    ensures LastBlocks.Start(Spin(n), 0) == 0 && LastBlocks.Start(Spin(n), 1) == 2
    ensures LastBlocks.Start(Spin(n), 2) == 2 + n && LastBlocks.Back(Spin(n)) == n
  {
    hide EncodeInst;
    LoadLength();
    NegsLength(n);
    SpinIsChain(n);
    var plan := Spin(n);
    assert plan.order[0] == 0 && plan.order[1] == 1;
    assert [LoadConst(0)][1..] == [] && EncodeInst(LoadConst(0)) + [] == EncodeInst(LoadConst(0));
    assert LastBlocks.Start(plan, 1) == LastBlocks.Start(plan, 0) + |L.Body(plan, 0)|;
    assert LastBlocks.Start(plan, 2) == LastBlocks.Start(plan, 1) + |L.Body(plan, 1)|;
  }

  // ----- the code the emitter writes -----

  /** How far back the emitter branches: its first guess took `BackLen(n + 1)` bytes. */
  function Leap(n: nat): (r: int)
    ensures r > n
  {
    n + 1 + LastBlocks.BackLen(n + 1)
  }

  /** How many instructions of the loop the branch then leaves out. */
  function Skipped(n: nat): int {
    LastBlocks.BackLen(Leap(n)) - LastBlocks.BackLen(n + 1)
  }

  function Insts(n: nat): seq<Inst> {
    [LoadConst(0)] + Negs(n) + [Branch(-Leap(n))]
  }

  lemma {:induction false} EncodeAllJoins(a: seq<Inst>, b: seq<Inst>)
    ensures EncodeAll(a + b) == EncodeAll(a) + EncodeAll(b)
  {
    hide EncodeInst;
    if a == [] {
      assert a + b == b;
    } else {
      EncodeAllJoins(a[1..], b);
      assert (a + b)[1..] == a[1..] + b;
    }
  }

  lemma {:induction false} EncodesInsts(n: nat)
    ensures EncodeAll(Insts(n)) == EncodeInst(LoadConst(0)) + EncodeAll(Negs(n)) + EncodeInst(Branch(-Leap(n)))
  {
    hide EncodeInst, Leap;
    var last := Branch(-Leap(n));
    EncodeAllJoins([LoadConst(0)] + Negs(n), [last]);
    EncodeAllJoins([LoadConst(0)], Negs(n));
    assert [LoadConst(0)][1..] == [] && [last][1..] == [];
  }

  /** Once relaxation stops, the code is that of those instructions. */
  lemma {:induction false} SpinCode(n: nat)
    ensures L.Settles(Spin(n), 0) && |L.Passes(Spin(n), 1)| == 2
    ensures LayoutFlow.Code(L.Passes(Spin(n), 1)) == EncodeAll(Insts(n))
  {
    hide L.Passes, L.Body, L.Settles, EncodeInst, EncodeAll, LastBlocks.Chain, LastBlocks.Start, LastBlocks.Back;
    hide LastBlocks.BackLen;
    var plan := Spin(n);
    SpinIsChain(n);
    SpinBodies(n);
    LastBlocks.ChainSettles(plan);
    LastBlocks.ChainFinal(plan);
    var blocks := L.Passes(plan, 1);
    SpinEntry(n);
    EncodesInsts(n);
    assert blocks == [blocks[0], blocks[1]];
    TwoBlocks(blocks);
  }

  lemma SpinEntry(n: nat)
    ensures |L.Passes(Spin(n), 1)| == 2 && L.Passes(Spin(n), 1)[0].bytecode == L.Body(Spin(n), 0)
  {
    hide L.Body, L.PassFrom;
    SpinIsChain(n);
    assert L.Falls(Spin(n), 0);
    L.PassesStep(Spin(n), 0);
    LastBlocks.PassFalls(Spin(n), L.Passes(Spin(n), 0), 0, 0, 0);
    LayoutFlow.PassesLength(Spin(n), 1);
  }

  lemma {:induction false} TwoBlocks(blocks: seq<L.OutBlock>)
    requires |blocks| == 2
    ensures LayoutFlow.Code(blocks) == blocks[0].bytecode + blocks[1].bytecode
  {
    assert blocks[..1] == [blocks[0]] && [blocks[0]][..0] == [];
    LayoutFlow.CodeSplits(blocks);
    LayoutFlow.CodeSplits(blocks[..1]);
    assert LayoutFlow.Code([]) == [];
  }

  lemma BranchOperand(n: nat)
    requires n < I64_LIMIT - 12
    ensures Encodable(Branch(-Leap(n))) && |EncodeInst(Branch(-Leap(n)))| == 1 + LastBlocks.BackLen(Leap(n))
  {
    hide EncodeInst;
    LastBlocks.BranchLength(-Leap(n));
    assert Operands(Branch(-Leap(n))) == [Zag(-Leap(n))];
  }

  // Where each instruction lies.
  lemma {:induction false} LocateNegs(n: nat, last: Inst, pos: nat, k: nat)
    requires k <= n
    ensures |Locate(Negs(n) + [last], pos)| == n + 1
    ensures Locate(Negs(n) + [last], pos)[k]
            == if k < n then Located(pos + k, Neg, pos + k + 1) else Located(pos + n, last, pos + n + |EncodeInst(last)|)
    decreases n
  {
    hide EncodeInst;
    NegLength();
    var insts := Negs(n) + [last];
    if n == 0 {
      assert insts == [last];
    } else {
      assert insts[1..] == Negs(n - 1) + [last];
      LocateNegs(n - 1, last, pos + 1, if k == 0 then 0 else k - 1);
    }
  }

  function SpinFunc(n: nat): Func {
    Func(0, 0, [], Locate(Insts(n), 0))
  }

  /** A program of that function alone, with the number it loads. */
  function SpinProgram(n: nat): Context {
    Context([SpinFunc(n)], [], [0], 0, 1)
  }

  lemma {:induction false} SpinAt(n: nat, i: nat)
    requires n < I64_LIMIT - 12 && i < n + 2
    ensures |SpinFunc(n).code| == n + 2
    ensures SpinFunc(n).code[i]
            == if i == 0 then Located(0, LoadConst(0), 2)
               else if i <= n then Located(1 + i, Neg, 2 + i)
               else Located(2 + n, Branch(-Leap(n)), 3 + n + LastBlocks.BackLen(Leap(n)))
  {
    hide EncodeInst, LastBlocks.BackLen;
    var insts := Insts(n);
    var last := Branch(-Leap(n));
    LoadLength();
    BranchOperand(n);
    assert insts == [LoadConst(0)] + (Negs(n) + [last]);
    assert insts[1..] == Negs(n) + [last];
    LocateNegs(n, last, 2, if i == 0 then 0 else i - 1);
  }

  // ----- the verifier accepts it -----

  // The branch goes into the loop.
  lemma SkippedFits(n: nat)
    requires n < I64_LIMIT - 12
    ensures 0 <= Skipped(n) <= n
  {
    BackLenGrows(n + 1, Leap(n));
    if n < 9 {
      BackLenSmall(n + 1);
      BackLenSmall(Leap(n));
    }
  }

  lemma BackLenGrows(a: nat, b: nat)
    requires a <= b
    ensures LastBlocks.BackLen(a) <= LastBlocks.BackLen(b)
  {
  }

  lemma BackLenSmall(n: nat)
    requires n <= 64
    ensures LastBlocks.BackLen(n) == 1
  {
  }

  lemma {:induction false} SpinSyntax(n: nat)
    requires n < I64_LIMIT - 12
    ensures var f := SpinFunc(n);
            && Contiguous(f.code) && Decodable(f.code) && |f.code| == n + 2 && FileChecked(SpinProgram(n), f)
            && SyntaxOk(SpinProgram(n), f) && TargetsOk(f)
            && HasTarget(f.code[n + 1].inst) && Target(f.code[n + 1]) == 2 + Skipped(n)
  {
    hide EncodeInst, Decodable, Contiguous, LastBlocks.BackLen, SpinFunc, IsBoundary;
    var ctx, f := SpinProgram(n), SpinFunc(n);
    SpinContiguous(n);
    SkippedFits(n);
    SpinAt(n, n + 1);
    forall i | 0 <= i < |f.code|
      ensures SyntaxFault(ctx, f, f.code[i]) == None
      ensures HasTarget(f.code[i].inst) ==> i == n + 1
    {
      SpinAt(n, i);
    }
    SpinAt(n, 1 + Skipped(n));
    assert IsBoundary(f, 2 + Skipped(n)) by {
      SpinBoundary(n);
    }
  }

  lemma SpinBoundary(n: nat)
    requires n < I64_LIMIT - 12
    ensures IsBoundary(SpinFunc(n), 2 + Skipped(n))
  {
    hide EncodeInst, LastBlocks.BackLen, SpinFunc;
    SkippedFits(n);
    SpinAt(n, 1 + Skipped(n));
    assert SpinFunc(n).code[1 + Skipped(n)].before == 2 + Skipped(n);
  }

  lemma {:induction false} SpinContiguous(n: nat)
    requires n < I64_LIMIT - 12
    ensures Contiguous(SpinFunc(n).code) && Decodable(SpinFunc(n).code) && SpinFunc(n).upvars == [] && SpinFunc(n).sig == 0
    ensures |SpinFunc(n).code| == n + 2
  {
    hide EncodeInst, Decodable, Contiguous, Locate, Encodable, Leap;
    LoadLength();
    NegLength();
    BranchOperand(n);
    LocatedDecodes(Insts(n));
  }

  // A block starts at the entry and where the branch goes.
  lemma {:induction false} SpinStartsBelow(n: nat, k: nat)
    requires n < I64_LIMIT - 12 && 0 < k <= n + 2
    ensures k <= |SpinFunc(n).code| && StartsBelow(SpinFunc(n), k) == if k <= 1 + Skipped(n) then [0] else [0, 1 + Skipped(n)]
    decreases k
  {
    hide EncodeInst, LastBlocks.BackLen, SpinFunc, Skipped, SyntaxOk, TargetsOk, Decodable, IsStart;
    var f := SpinFunc(n);
    SpinSyntax(n);
    SkippedFits(n);
    SpinStart(n, k - 1);
    if k > 1 {
      SpinStartsBelow(n, k - 1);
    } else {
      assert StartsBelow(f, 0) == [];
    }
  }

  lemma SpinStart(n: nat, i: nat)
    requires n < I64_LIMIT - 12 && i < n + 2
    ensures i < |SpinFunc(n).code| && (IsStart(SpinFunc(n), i) <==> i == 0 || i == 1 + Skipped(n))
  {
    hide EncodeInst, LastBlocks.BackLen, SpinFunc, Skipped, SyntaxOk, TargetsOk, Decodable;
    var f := SpinFunc(n);
    SpinSyntax(n);
    SkippedFits(n);
    SpinAt(n, i);
    if i > 0 {
      SpinAt(n, i - 1);
    }
    forall j: nat
      ensures Targets(f, j, f.code[i].before) <==> j == n + 1 && f.code[i].before == 2 + Skipped(n)
    {
      if j < n + 2 {
        SpinAt(n, j);
      }
    }
    if i == 1 + Skipped(n) {
      assert Targets(f, n + 1, f.code[i].before);
    } else if i > 0 {
      assert f.code[i].before == 1 + i && !EndsBlock(f.code[i - 1].inst);
      assert !exists j: nat :: Targets(f, j, f.code[i].before);
    }
  }

  lemma {:induction false} SpinBlocks(n: nat)
    requires n < I64_LIMIT - 12
    ensures var f := SpinFunc(n);
            && Starts(f) == [0, 1 + Skipped(n)] && HasBlock(f, 0) && HasBlock(f, 1)
            && Lo(f, 0) == 0 && Hi(f, 0) == Lo(f, 1) == 1 + Skipped(n) <= n + 1 && Hi(f, 1) == |f.code| == n + 2
            && BlockAt(f, 2 + Skipped(n)) == 1
  {
    hide EncodeInst, LastBlocks.BackLen, SpinFunc, Skipped, SyntaxOk, TargetsOk, Decodable, BlockAt, StartsBelow;
    var f := SpinFunc(n);
    SpinSyntax(n);
    SkippedFits(n);
    SpinStartsBelow(n, n + 2);
    BlockAtTarget(f, n + 1);
    SpinAt(n, 0);
  }

  lemma {:induction false} SpinFlows(n: nat, s: BlockState)
    requires n < I64_LIMIT - 12 && s.Live?
    ensures var ctx, f := SpinProgram(n), SpinFunc(n);
            && HasBlock(f, 0) && HasBlock(f, 1)
            && FlowsFrom(ctx, f, 0, s) == [Flow(1, s)] && FlowsFrom(ctx, f, 1, s) == [Flow(1, s)]
            && Successors(f, 0) == {1}
  {
    hide EncodeInst, LastBlocks.BackLen, SpinFunc, Skipped, SyntaxOk, TargetsOk, Decodable, BlockAt, Starts, Lo, Hi;
    SpinSyntax(n);
    SkippedFits(n);
    SpinBlocks(n);
    SpinAt(n, Skipped(n));
    SpinAt(n, n + 1);
  }

  // Every instruction steps, and from the first on there is one operand.
  lemma {:induction false} SpinRuns(n: nat, lo: nat, hi: nat, s: BlockState)
    requires n < I64_LIMIT - 12 && lo < hi <= n + 2
    requires s == Live(if lo == 0 then 0 else 1, [], [])
    ensures var ctx, f := SpinProgram(n), SpinFunc(n);
            && hi <= |f.code| && Run(ctx, f, lo, hi, s) == Ok(Live(1, [], [])) && Peak(ctx, f, lo, hi, s) == 1
    decreases hi
  {
    hide EncodeInst, LastBlocks.BackLen, SpinFunc, Step;
    var ctx, f := SpinProgram(n), SpinFunc(n);
    SpinAt(n, hi - 1);
    if lo < hi - 1 {
      SpinRuns(n, lo, hi - 1, s);
    }
    SpinSteps(ctx, f, f.code[hi - 1].inst);
  }

  lemma SpinSteps(ctx: Context, f: Func, inst: Inst)
    ensures inst == LoadConst(0) ==> Step(ctx, f, inst, Live(0, [], [])) == Ok(Live(1, [], []))
    ensures inst == Neg || inst.Branch? ==> Step(ctx, f, inst, Live(1, [], [])) == Ok(Live(1, [], []))
  {
  }

  function SpinCert(n: nat): Certificate
    requires n < I64_LIMIT - 12
  {
    SkippedFits(n);
    Certificate(1, [(2 + Skipped(n), Live(1, [], []))])
  }

  lemma {:induction false} SpinSettled(n: nat)
    requires n < I64_LIMIT - 12
    ensures var ctx, f := SpinProgram(n), SpinFunc(n);
            var claims := [Live(0, [], []), Live(1, [], [])];
            && Contiguous(f.code) && |Starts(f)| == 2 && SettledAndReached(ctx, f, claims) && PeakIs(ctx, f, claims, 1)
  {
    hide EncodeInst, LastBlocks.BackLen, SpinFunc, Skipped, SyntaxOk, TargetsOk, Decodable, BlockAt, StartsBelow;
    hide Run, Peak, FlowsFrom, Successors;
    var ctx, f := SpinProgram(n), SpinFunc(n);
    var s, t := Live(0, [], []), Live(1, [], []);
    var claims := [s, t];
    SpinSyntax(n);
    SpinBlocks(n);
    SkippedFits(n);
    SpinRuns(n, 0, 1 + Skipped(n), s);
    SpinRuns(n, 1 + Skipped(n), n + 2, t);
    SpinFlows(n, t);
    SpinContiguous(n);
    assert MergeLocals([], []) == [];
    assert Settled(ctx, f, claims, 0) && Settled(ctx, f, claims, 1);
    var g := BlockGraph(f);
    ReachesItself(g, 0);
    ReachExtends(g, 0, 0, 1);
    OneFlow(Flow(1, t));
    assert VisitPeak(ctx, f, 0, s) == 1 && VisitPeak(ctx, f, 1, t) == 1;
    SpinEntryState(n);
  }

  lemma SpinEntryState(n: nat)
    ensures Entry(SpinProgram(n), SpinFunc(n)) == Live(0, [], [])
  {
  }

  lemma OneFlow(flow: Flow)
    ensures FlowPeak([flow]) == if flow.state.Live? then flow.state.operands else 0
  {
    assert [flow][..0] == [];
    assert FlowPeak([flow]) == Max(FlowPeak([]), if flow.state.Live? then flow.state.operands else 0);
  }

  lemma {:induction false} SpinAccepted(n: nat)
    requires n < I64_LIMIT - 12
    ensures Accepted(SpinProgram(n), SpinFunc(n), SpinCert(n)) && Certificates.ListsLocals(SpinFunc(n), SpinCert(n))
  {
    hide EncodeInst, LastBlocks.BackLen, SpinFunc, Skipped, SyntaxOk, TargetsOk, Decodable, BlockAt, StartsBelow;
    hide SettledAndReached, PeakIs;
    var ctx, f := SpinProgram(n), SpinFunc(n);
    SpinSyntax(n);
    SpinBlocks(n);
    SkippedFits(n);
    SpinSettled(n);
    SpinEntryState(n);
    SpinAt(n, 1 + Skipped(n));
    assert Claims(ctx, f, SpinCert(n)) == [Live(0, [], []), Live(1, [], [])];
    assert StartOffsets(f)[1] == 2 + Skipped(n);
    SpinLocals(n);
  }

  lemma SpinLocals(n: nat)
    ensures SpinFunc(n).locals == 0
  {
  }

  /** The code the emitter writes for such a loop is verified, whether the branch goes where
      the loop starts or not; so inferring a certificate for it succeeds. */
  lemma {:induction false} SpinVerified(n: nat)
    requires n < I64_LIMIT - 12
    ensures DecodeFrom(LayoutFlow.Code(L.Passes(Spin(n), 1)), 0) == Ok(SpinFunc(n).code)
    ensures ProgramSafety.Verified(SpinProgram(n), [SpinCert(n)]) && ProgramSafety.Runnable(SpinProgram(n))
    ensures FileChecked(SpinProgram(n), SpinFunc(n)) && !NothingInferable(SpinProgram(n), SpinFunc(n))
  {
    hide EncodeInst, EncodeAll, DecodeFrom, Locate, Accepted, SyntaxOk, TargetsOk, Decodable, LayoutFlow.Code;
    hide L.Passes, Certificates.ListsLocals;
    SpinCode(n);
    SpinDecodes(n);
    SpinAccepted(n);
    SpinSyntax(n);
    var ctx, f := SpinProgram(n), SpinFunc(n);
    Certificates.AcceptedIsInferable(ctx, f, SpinCert(n));
    ReachesItself(Programs.ProgramUses(ctx), 0);
    assert Programs.AllUsed(ctx);
    SpinRunnable(n);
  }

  lemma {:induction false} SpinDecodes(n: nat)
    requires n < I64_LIMIT - 12
    ensures DecodeFrom(EncodeAll(Insts(n)), 0) == Ok(Locate(Insts(n), 0))
  {
    hide EncodeInst, EncodeAll, DecodeFrom, Locate, Encodable, Leap;
    LoadLength();
    NegLength();
    BranchOperand(n);
    StreamRoundTrip([], Insts(n));
    assert [] + EncodeAll(Insts(n)) == EncodeAll(Insts(n));
  }

  lemma {:induction false} SpinRunnable(n: nat)
    requires n < I64_LIMIT - 12
    ensures ProgramSafety.Runnable(SpinProgram(n))
  {
    hide EncodeInst, LastBlocks.BackLen, SpinFunc;
    SpinContiguous(n);
    forall i | 0 <= i < n + 2
      ensures !SpinFunc(n).code[i].inst.Reify?
    {
      SpinAt(n, i);
    }
  }

  /** Once laid out, the loop's branch leaves out its first instructions, as many as its
      displacement grew by; for 63 it leaves out one. */
  lemma {:induction false} SpinLands(n: nat, holds: bool)
    requires n < I64_LIMIT - 12
    ensures |L.Passes(Spin(n), 1)| == 2 && L.OffsetOf(Spin(n), L.Passes(Spin(n), 1), 1) == 2
    ensures LayoutFlow.LeavesTo(Spin(n), L.Passes(Spin(n), 1), 1, holds) == Some(2 + Skipped(n))
    ensures n == 63 ==> Skipped(n) == 1
  {
    hide L.Passes, L.Settles, LayoutFlow.LeavesTo, L.OffsetOf, LastBlocks.Start, LastBlocks.Chain, L.Body;
    hide LastBlocks.Back;
    hide LastBlocks.BackLen, Spin;
    SpinIsChain(n);
    SpinBodies(n);
    SpinOffset(n);
    LastBlocks.ChainLands(Spin(n), holds);
    if n == 63 {
      SixtyThree();
    }
  }

  lemma SpinOffset(n: nat)
    ensures |Spin(n).order| == 2 && |L.Passes(Spin(n), 1)| == 2 && L.OffsetOf(Spin(n), L.Passes(Spin(n), 1), 1) == 2
  {
    hide L.Passes, LastBlocks.Start, LastBlocks.Chain, L.Body, L.Position;
    SpinIsChain(n);
    SpinBodies(n);
    LastBlocks.ChainStarts(Spin(n), 1);
  }

  lemma SixtyThree()
    ensures Skipped(63) == 1
  {
  }
}
