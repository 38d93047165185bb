/** No run of a program that a check accepts faults, and every frame of every run
    stays within what its certificate and declaration allow. */
module Soundness {

  import opened Results
  import opened Bytecode
  import opened Transfer
  import opened Graphs
  import opened Blocks
  import opened Solutions
  import opened Passes
  import Inference
  import Certificates
  import Programs
  import M = Machine

  // ----- where a frame is, abstractly -----

  /** The certificate gives state `s` before the instruction at `pc`: it is instruction
      `i` of block `b`, and `s` is what the block's claim becomes by then. */
  ghost predicate At(ctx: Context, f: Func, cert: Certificate, b: nat, i: nat, s: BlockState) {
    && Accepted(ctx, f, cert) && b < |Starts(f)|
    && Lo(f, b) <= i < Hi(f, b) <= |f.code|
    && Claims(ctx, f, cert)[b].Live?
    && Run(ctx, f, Lo(f, b), i, Claims(ctx, f, cert)[b]) == Ok(s)
  }

  /** `s` is claimed for instruction `i` of the function, within the claimed depth. */
  ghost predicate Known(ctx: Context, f: Func, cert: Certificate, i: nat, s: BlockState) {
    && i < |f.code| && s.Live? && s.operands <= cert.maxOperandDepth
    && exists b :: At(ctx, f, cert, b, i, s)
  }

  /** Whatever state control reaches instruction `i` with, the certificate claims no
      more about it. */
  ghost predicate Covered(ctx: Context, f: Func, cert: Certificate, i: nat, s: BlockState) {
    exists t :: Known(ctx, f, cert, i, t) && Leq(f.locals, s, t)
  }

  lemma AcceptedBlock(ctx: Context, f: Func, cert: Certificate, b: nat)
    requires Accepted(ctx, f, cert) && b < |Starts(f)|
    ensures |Claims(ctx, f, cert)| == |Starts(f)|
    ensures Claims(ctx, f, cert)[b].Live? && Settled(ctx, f, Claims(ctx, f, cert), b)
    ensures VisitPeak(ctx, f, b, Claims(ctx, f, cert)[b]) <= cert.maxOperandDepth
    ensures Lo(f, b) < Hi(f, b) <= |f.code|
  {
    BlockRange(f, b);
  }

  // What a block does to its claim, instruction by instruction, stays within the claimed depth.
  lemma {:induction false} PeakBounds(ctx: Context, f: Func, lo: nat, i: nat, hi: nat, s: BlockState)
    requires lo < i <= hi <= |f.code| && s.Live? && Run(ctx, f, lo, i, s).Ok?
    ensures Run(ctx, f, lo, i, s).value.operands <= Peak(ctx, f, lo, hi, s)
    decreases hi
  {
    hide Step;
    if i < hi {
      PeakBounds(ctx, f, lo, i, hi - 1, s);
    }
  }

  // The instruction itself is accepted.
  lemma {:induction false} StepAccepted(ctx: Context, f: Func, cert: Certificate, b: nat, i: nat, s: BlockState)
    requires At(ctx, f, cert, b, i, s)
    ensures Step(ctx, f, f.code[i].inst, s).Ok?
    ensures Run(ctx, f, Lo(f, b), i + 1, Claims(ctx, f, cert)[b]) == Ok(Step(ctx, f, f.code[i].inst, s).value)
    ensures Step(ctx, f, f.code[i].inst, s).value.operands <= cert.maxOperandDepth
  {
    var claim := Claims(ctx, f, cert)[b];
    AcceptedBlock(ctx, f, cert, b);
    RunPrefix(ctx, f, Lo(f, b), i + 1, Hi(f, b), claim);
    PeakBounds(ctx, f, Lo(f, b), i + 1, Hi(f, b), claim);
  }

  lemma {:induction false} FlowPeakBounds(flows: seq<Flow>, i: nat)
    requires i < |flows| && flows[i].state.Live?
    ensures flows[i].state.operands <= FlowPeak(flows)
  {
    if i < |flows| - 1 {
      FlowPeakBounds(flows[..|flows| - 1], i);
    }
  }

  // What leaves a block over an edge is covered where it arrives.
  lemma FlowCovered(ctx: Context, f: Func, cert: Certificate, b: nat, k: nat)
    requires Accepted(ctx, f, cert) && Certificates.ListsLocals(f, cert) && b < |Starts(f)|
    requires Claims(ctx, f, cert)[b].Live? && Visit(ctx, f, b, Claims(ctx, f, cert)[b]).Ok?
    requires k < |FlowsFrom(ctx, f, b, Visit(ctx, f, b, Claims(ctx, f, cert)[b]).value)|
    ensures var flow := FlowsFrom(ctx, f, b, Visit(ctx, f, b, Claims(ctx, f, cert)[b]).value)[k];
            && flow.to < |Starts(f)| && flow.state.Live?
            && Lo(f, flow.to) < |f.code|
            && Covered(ctx, f, cert, Lo(f, flow.to), flow.state)
  {
    var claims := Claims(ctx, f, cert);
    AcceptedBlock(ctx, f, cert, b);
    var out := Visit(ctx, f, b, claims[b]).value;
    var flows := FlowsFrom(ctx, f, b, out);
    FlowTargets(ctx, f, b, out);
    var to := flows[k].to;
    AcceptedBlock(ctx, f, cert, to);
    Certificates.ListsLocalsClaims(ctx, f, cert);
    AbsorbedIsLeq(f.locals, flows[k].state, claims[to]);
    FlowPeakBounds(flows, k);
    assert At(ctx, f, cert, to, Lo(f, to), claims[to]);
    assert Known(ctx, f, cert, Lo(f, to), claims[to]);
  }

  // An instruction that does not end its block, and is not the last, is followed within the block.
  lemma LastOfBlock(f: Func, b: nat, i: nat)
    requires HasBlock(f, b) && Lo(f, b) <= i < Hi(f, b) <= |f.code|
    ensures EndsBlock(f.code[i].inst) ==> i + 1 == Hi(f, b)
    ensures i + 1 == Hi(f, b) && b + 1 == |Starts(f)| ==> i + 1 == |f.code|
    ensures b + 1 < |Starts(f)| ==> Lo(f, b + 1) == Hi(f, b)
  {
    BlockRange(f, b);
    if i + 1 < Hi(f, b) {
      assert !IsStart(f, i + 1);
    }
  }

  /** Control that falls through instruction `i` reaches an instruction whose claims cover it. */
  lemma FallThroughCovered(ctx: Context, f: Func, cert: Certificate, b: nat, i: nat, s: BlockState)
    requires At(ctx, f, cert, b, i, s) && Certificates.ListsLocals(f, cert)
    requires !Terminal(f.code[i].inst)
    ensures Step(ctx, f, f.code[i].inst, s).Ok?
    ensures i + 1 < |f.code|
    ensures Covered(ctx, f, cert, i + 1, EdgeState(ctx, f.code[i].inst, false, Step(ctx, f, f.code[i].inst, s).value))
  {
    StepAccepted(ctx, f, cert, b, i, s);
    LastOfBlock(f, b, i);
    if i + 1 < Hi(f, b) {
      NextCovered(ctx, f, cert, b, i, s);
    } else {
      EndCovered(ctx, f, cert, b, i, s);
    }
  }

  lemma NextCovered(ctx: Context, f: Func, cert: Certificate, b: nat, i: nat, s: BlockState)
    requires At(ctx, f, cert, b, i, s) && Certificates.ListsLocals(f, cert)
    requires !HasTarget(f.code[i].inst) && i + 1 < Hi(f, b) <= |f.code|
    ensures Step(ctx, f, f.code[i].inst, s).Ok?
    ensures Covered(ctx, f, cert, i + 1, Step(ctx, f, f.code[i].inst, s).value)
  {
    StepAccepted(ctx, f, cert, b, i, s);
    var next := Step(ctx, f, f.code[i].inst, s).value;
    assert At(ctx, f, cert, b, i + 1, next);
    assert Known(ctx, f, cert, i + 1, next);
    RunLocals(ctx, f, cert, b, i + 1, next);
  }

  lemma FallThroughFlow(ctx: Context, f: Func, b: nat, out: BlockState)
    requires HasBlock(f, b) && out.Live? && b + 1 < |Starts(f)| && !Terminal(LastOf(f, b).inst)
    ensures |FlowsFrom(ctx, f, b, out)| > 0
    ensures FlowsFrom(ctx, f, b, out)[0] == Flow(b + 1, EdgeState(ctx, LastOf(f, b).inst, false, out))
  {
    hide Starts, LastOf, EdgeState, BlockAt;
  }

  // At the end of a block, its visit is done.
  lemma VisitEnds(ctx: Context, f: Func, cert: Certificate, b: nat, i: nat, s: BlockState)
    requires At(ctx, f, cert, b, i, s) && i + 1 == Hi(f, b)
    ensures HasBlock(f, b) && LastOf(f, b) == f.code[i]
    ensures |Claims(ctx, f, cert)| == |Starts(f)| && Claims(ctx, f, cert)[b].Live?
    ensures Step(ctx, f, f.code[i].inst, s).Ok?
    ensures Visit(ctx, f, b, Claims(ctx, f, cert)[b]) == Ok(Step(ctx, f, f.code[i].inst, s).value)
  {
    hide Step, Starts, Peak, SettledAndReached, PeakIs;
    StepAccepted(ctx, f, cert, b, i, s);
  }

  lemma EndFollowed(ctx: Context, f: Func, cert: Certificate, b: nat, i: nat, s: BlockState)
    requires At(ctx, f, cert, b, i, s) && i + 1 == Hi(f, b) && !Terminal(f.code[i].inst)
    ensures i + 1 < |f.code| && b + 1 < |Starts(f)| && Lo(f, b + 1) == i + 1
  {
    hide Starts, Claims, SettledAndReached, PeakIs;
    LastOfBlock(f, b, i);
  }

  lemma EndCovered(ctx: Context, f: Func, cert: Certificate, b: nat, i: nat, s: BlockState)
    requires At(ctx, f, cert, b, i, s) && Certificates.ListsLocals(f, cert)
    requires !Terminal(f.code[i].inst) && i + 1 == Hi(f, b)
    ensures Step(ctx, f, f.code[i].inst, s).Ok?
    ensures i + 1 < |f.code|
    ensures Covered(ctx, f, cert, i + 1, EdgeState(ctx, f.code[i].inst, false, Step(ctx, f, f.code[i].inst, s).value))
  {
    hide Step, EdgeState, Covered, FlowsFrom, Visit, Claims, LastOf, Accepted, Starts, Terminal, Lo, Hi;
    VisitEnds(ctx, f, cert, b, i, s);
    EndFollowed(ctx, f, cert, b, i, s);
    FallThroughFlow(ctx, f, b, Step(ctx, f, f.code[i].inst, s).value);
    FlowCovered(ctx, f, cert, b, 0);
  }

  lemma RunLocals(ctx: Context, f: Func, cert: Certificate, b: nat, i: nat, s: BlockState)
    requires At(ctx, f, cert, b, i, s) && Certificates.ListsLocals(f, cert)
    ensures f.locals <= |s.locals|
    ensures Leq(f.locals, s, s)
  {
    Certificates.ListsLocalsClaims(ctx, f, cert);
  }

  /** Control that branches from instruction `i` reaches an instruction whose claims cover it. */
  lemma BranchCovered(ctx: Context, f: Func, cert: Certificate, b: nat, i: nat, s: BlockState)
    requires At(ctx, f, cert, b, i, s) && Certificates.ListsLocals(f, cert)
    requires HasTarget(f.code[i].inst)
    ensures Step(ctx, f, f.code[i].inst, s).Ok?
    ensures exists j :: 0 <= j < |f.code| && f.code[j].before == Target(f.code[i])
                        && Covered(ctx, f, cert, j, Step(ctx, f, f.code[i].inst, s).value)
  {
    StepAccepted(ctx, f, cert, b, i, s);
    LastOfBlock(f, b, i);
    var next := Step(ctx, f, f.code[i].inst, s).value;
    var claim := Claims(ctx, f, cert)[b];
    assert Visit(ctx, f, b, claim) == Ok(next);
    BlockAtTarget(f, i);
    var flows := FlowsFrom(ctx, f, b, next);
    assert flows[|flows| - 1] == Flow(BlockAt(f, Target(f.code[i])), next);
    FlowCovered(ctx, f, cert, b, |flows| - 1);
    assert f.code[Lo(f, BlockAt(f, Target(f.code[i])))].before == Target(f.code[i]);
  }

  // ----- the machine and the verifier read instructions alike -----

  /** The effect the verifier should give an instruction, by what the machine does for it. */
  function EffectFor(action: M.Action): Effect {
    match action
    case Compute(takes, gives) => Stack(takes, gives)
    case CopyTop => Stack(1, 2)
    case CopyOperand(n) => Peek(n)
    case SwapOperands(i, j) => Exchange(i, j)
    case ReadSlot(slot) => ReadLocal(slot)
    case WriteSlot(slot) => WriteLocal(slot)
    case ReadRecord(index, depth) => ReadUpvar(index, depth)
    case WriteRecord(index, depth) => WriteUpvar(index, depth)
    case PushRecord(count) => OpenRecord(count)
    case PopRecord => DropRecord
    case CaptureRecord(arity, _) => ReifyRecord(arity)
    case MakeClosure(func) => Effect.MakeClosure(func)
    case GuardCall(func) => RunGuarded(func)
    case Invoke(args) => Stack(args + 1, 1)
    case Jump => Stack(0, 0)
    case JumpIf(_) => Stack(1, 0)
    case Match(_) => Stack(1, 0)
    case Return => Leave
    case JumpOut(depth) => Effect.JumpOut(depth)
    case Complain => Stack(0, 0)
  }

  /** The verifier and the machine give every instruction the same effect. */
  lemma EffectsAgree(ctx: Context, inst: Inst)
    ensures EffectOf(ctx, inst) == EffectFor(M.ActionOf(ctx, inst))
  {
    hide PackArity, UnpackArity, PackSpreads;
  }

  lemma TargetsAgree(ctx: Context, inst: Inst)
    ensures HasTarget(inst) <==> M.ActionOf(ctx, inst).Jump? || M.ActionOf(ctx, inst).JumpIf? || M.ActionOf(ctx, inst).Match?
    ensures inst.UnpackBranch? <==> M.ActionOf(ctx, inst).Match?
    ensures inst.UnpackBranch? ==> M.ActionOf(ctx, inst).arity == UnpackArity(ctx, inst.unpack)
  {
    hide PackArity, UnpackArity, PackSpreads;
    JumpsAreBranches(ctx, inst);
    if HasTarget(inst) {
      match inst
      case Branch(_) | BranchTrue(_) | BranchFalse(_) =>
      case UnpackBranch(_, _) =>
    } else {
      hide M.ActionOf;
    }
  }

  lemma JumpsAreBranches(ctx: Context, inst: Inst)
    ensures M.ActionOf(ctx, inst).Jump? ==> inst.Branch?
    ensures M.ActionOf(ctx, inst).JumpIf? ==> inst.BranchTrue? || inst.BranchFalse?
    ensures M.ActionOf(ctx, inst).Match? ==> inst.UnpackBranch?
  {
    hide PackArity, UnpackArity, PackSpreads;
  }

  lemma TerminalsAgree(ctx: Context, inst: Inst)
    ensures Terminal(inst) <==>
              || M.ActionOf(ctx, inst).Jump? || M.ActionOf(ctx, inst).Return?
              || M.ActionOf(ctx, inst).JumpOut? || M.ActionOf(ctx, inst).Complain?
  {
    LeavingIsTerminal(ctx, inst);
    if Terminal(inst) {
      match inst case Ret => case Branch(_) => case NlBranch(_, _) => case ElseFallthrough(_) =>
    } else {
      hide M.ActionOf;
    }
  }

  lemma LeavingIsTerminal(ctx: Context, inst: Inst)
    ensures M.ActionOf(ctx, inst).Jump? ==> inst.Branch?
    ensures M.ActionOf(ctx, inst).Return? ==> inst.Ret?
    ensures M.ActionOf(ctx, inst).JumpOut? ==> inst.NlBranch?
    ensures M.ActionOf(ctx, inst).Complain? ==> inst.ElseFallthrough?
  {
    hide PackArity, UnpackArity, PackSpreads;
  }

  /** A block ends at each instruction after which the machine may be somewhere else than at the
      next, without having returned. */
  lemma BlockEndsAgree(ctx: Context, inst: Inst)
    ensures EndsBlock(inst) <==>
              || M.ActionOf(ctx, inst).Jump? || M.ActionOf(ctx, inst).JumpIf? || M.ActionOf(ctx, inst).Match?
              || M.ActionOf(ctx, inst).JumpOut? || M.ActionOf(ctx, inst).Complain?
  {
    TargetsAgree(ctx, inst);
    LeavingIsTerminal(ctx, inst);
    if inst.ElseFallthrough? || inst.NlBranch? {
      match inst case NlBranch(_, _) => case ElseFallthrough(_) =>
    } else {
      hide M.ActionOf;
    }
  }

  /** The instructions said to raise, which are those that need a span, are the ones that can. */
  lemma RaisesAgree(inst: Inst)
    ensures Raises(inst) <==> M.CanRaise(inst)
  {
  }

  lemma ReifiesAgree(ctx: Context, inst: Inst)
    ensures M.ActionOf(ctx, inst).CaptureRecord? ==>
              inst.Reify? && M.ActionOf(ctx, inst).spread == PackSpreads(ctx, inst.pack)
  {
  }

  lemma SlotsAgree(ctx: Context, n: nat, inst: Inst)
    requires SlotsInRange(n, inst)
    ensures M.ActionOf(ctx, inst).ReadSlot? || M.ActionOf(ctx, inst).WriteSlot? ==> M.ActionOf(ctx, inst).slot < n
  {
  }

  lemma ActionsCorrespond(ctx: Context, n: nat, inst: Inst)
    requires SlotsInRange(n, inst)
    ensures EffectOf(ctx, inst) == EffectFor(M.ActionOf(ctx, inst))
    ensures HasTarget(inst) <==> M.ActionOf(ctx, inst).Jump? || M.ActionOf(ctx, inst).JumpIf? || M.ActionOf(ctx, inst).Match?
    ensures inst.UnpackBranch? <==> M.ActionOf(ctx, inst).Match?
    ensures inst.UnpackBranch? ==> M.ActionOf(ctx, inst).arity == UnpackArity(ctx, inst.unpack)
    ensures Terminal(inst) <==>
              || M.ActionOf(ctx, inst).Jump? || M.ActionOf(ctx, inst).Return?
              || M.ActionOf(ctx, inst).JumpOut? || M.ActionOf(ctx, inst).Complain?
    ensures M.ActionOf(ctx, inst).ReadSlot? || M.ActionOf(ctx, inst).WriteSlot? ==> M.ActionOf(ctx, inst).slot < n
  {
    EffectsAgree(ctx, inst);
    TargetsAgree(ctx, inst);
    TerminalsAgree(ctx, inst);
    SlotsAgree(ctx, n, inst);
  }

  // ----- frames -----

  /** How many operands a waiting frame is owed. */
  function Owed(w: M.Waiting): nat {
    if w == M.OnCall then 1 else if w == M.OnGuard then 2 else 0
  }

  /** The records a frame has once it runs again: a guard's own record is dropped. */
  function Restored(fr: M.Frame): seq<nat> {
    if fr.waiting == M.OnGuard && |fr.records| > 0 then fr.records[..|fr.records| - 1] else fr.records
  }

  /** The frame, once it runs again, has the depth, records and initialised locals of `s`. */
  ghost predicate Fits(n: nat, fr: M.Frame, s: BlockState) {
    && s.Live?
    && s.operands == |fr.operands| + Owed(fr.waiting)
    && s.upvars == Restored(fr)
    && |fr.locals| == n <= |s.locals|
    && forall j :: 0 <= j < n && s.locals[j] == Value ==> fr.locals[j].Some?
  }

  ghost predicate KnownValues(made: set<M.Val>, fr: M.Frame) {
    && (forall j :: 0 <= j < |fr.operands| ==> M.Known(made, fr.operands[j]))
    && (forall j :: 0 <= j < |fr.locals| && fr.locals[j].Some? ==> M.Known(made, fr.locals[j].value))
  }

  /** The frame's records extend its function's declared ones and stay within the limit. */
  ghost predicate RecordsOk(f: Func, records: seq<nat>) {
    f.upvars <= records && Sum(records) <= UPVAR_TOTAL
  }

  ghost predicate Sits(f: Func, i: nat, pc: int) {
    i < |f.code| && f.code[i].before == pc
  }

  /** A frame that is where its function's certificate says it may be. */
  ghost predicate FrameOk(ctx: Context, certs: seq<Certificate>, made: set<M.Val>, fr: M.Frame) {
    && fr.func < |ctx.funcs| == |certs|
    && (fr.waiting == M.OnGuard ==> |fr.records| > 0 && fr.records[|fr.records| - 1] == 0)
    && RecordsOk(ctx.funcs[fr.func], Restored(fr))
    && KnownValues(made, fr)
    && exists i, s :: Sits(ctx.funcs[fr.func], i, fr.pc)
                      && Known(ctx, ctx.funcs[fr.func], certs[fr.func], i, s)
                      && Fits(ctx.funcs[fr.func].locals, fr, s)
  }

  // A frame that fits a covered state is where its certificate says it may be.
  lemma CoveredIsOk(ctx: Context, certs: seq<Certificate>, made: set<M.Val>, fr: M.Frame, i: nat, s: BlockState)
    requires fr.func < |ctx.funcs| == |certs|
    requires fr.waiting == M.OnGuard ==> |fr.records| > 0 && fr.records[|fr.records| - 1] == 0
    requires RecordsOk(ctx.funcs[fr.func], Restored(fr)) && KnownValues(made, fr)
    requires Sits(ctx.funcs[fr.func], i, fr.pc)
    requires Fits(ctx.funcs[fr.func].locals, fr, s)
    requires Covered(ctx, ctx.funcs[fr.func], certs[fr.func], i, s)
    ensures FrameOk(ctx, certs, made, fr)
  {
    var f := ctx.funcs[fr.func];
    var t :| Known(ctx, f, certs[fr.func], i, t) && Leq(f.locals, s, t);
    assert Fits(f.locals, fr, t);
  }

  lemma {:induction false} SumPrefix(a: seq<nat>)
    requires |a| > 0
    ensures Sum(a[..|a| - 1]) <= Sum(a)
  {
  }

  /** An accepted instruction that stays within its frame does not fault there, and
      leaves the frame fitting the state along the edge it takes. */
  ghost predicate WithinFits(ctx: Context, f: Func, at: Located, fr: M.Frame, made: set<M.Val>,
                             values: seq<M.Val>, flag: bool, s: BlockState)
    requires fr.func < |ctx.funcs| && s.Live?
  {
    && Step(ctx, f, at.inst, s).Ok?
    && var next := Step(ctx, f, at.inst, s).value;
       var after := M.Within(ctx, fr, at, made, values, flag);
       && after.Some?
       && after.value.func == fr.func && after.value.waiting == M.Running
       && KnownValues(made, after.value) && RecordsOk(f, after.value.records)
       && (|| (after.value.pc == at.after && !Terminal(at.inst)
               && Fits(f.locals, after.value, EdgeState(ctx, at.inst, false, next)))
           || (HasTarget(at.inst) && after.value.pc == Target(at)
               && Fits(f.locals, after.value, EdgeState(ctx, at.inst, true, next))))
  }

  ghost predicate Ready(ctx: Context, f: Func, at: Located, fr: M.Frame, made: set<M.Val>, s: BlockState) {
    && fr.func < |ctx.funcs| && ctx.funcs[fr.func] == f && fr.waiting == M.Running
    && Fits(f.locals, fr, s) && KnownValues(made, fr) && RecordsOk(f, fr.records)
    && SlotsInRange(f.locals, at.inst)
    && Step(ctx, f, at.inst, s).Ok?
    && (HasTarget(at.inst) ==> Target(at) >= 0)
    && !ReifiesSpread(ctx, at.inst)
  }

  /** The instruction makes a module of a record, with the names of a pack that spreads. */
  predicate ReifiesSpread(ctx: Context, inst: Inst) {
    inst.Reify? && PackSpreads(ctx, inst.pack)
  }

  lemma OperandsFit(ctx: Context, f: Func, at: Located, fr: M.Frame, made: set<M.Val>,
                    values: seq<M.Val>, flag: bool, s: BlockState)
    requires Ready(ctx, f, at, fr, made, s)
    requires var action := M.ActionOf(ctx, at.inst);
             action.Compute? || action.CopyTop? || action.CopyOperand? || action.SwapOperands?
    ensures WithinFits(ctx, f, at, fr, made, values, flag, s)
  {
    ActionsCorrespond(ctx, f.locals, at.inst);
  }

  lemma JumpsFit(ctx: Context, f: Func, at: Located, fr: M.Frame, made: set<M.Val>,
                 values: seq<M.Val>, flag: bool, s: BlockState)
    requires Ready(ctx, f, at, fr, made, s)
    requires var action := M.ActionOf(ctx, at.inst); action.Jump? || action.JumpIf? || action.Match?
    ensures WithinFits(ctx, f, at, fr, made, values, flag, s)
  {
    ActionsCorrespond(ctx, f.locals, at.inst);
  }

  lemma SlotsFit(ctx: Context, f: Func, at: Located, fr: M.Frame, made: set<M.Val>,
                 values: seq<M.Val>, flag: bool, s: BlockState)
    requires Ready(ctx, f, at, fr, made, s)
    requires var action := M.ActionOf(ctx, at.inst); action.ReadSlot? || action.WriteSlot?
    ensures WithinFits(ctx, f, at, fr, made, values, flag, s)
  {
    ActionsCorrespond(ctx, f.locals, at.inst);
  }

  lemma RecordAccessFits(ctx: Context, f: Func, at: Located, fr: M.Frame, made: set<M.Val>,
                         values: seq<M.Val>, flag: bool, s: BlockState)
    requires Ready(ctx, f, at, fr, made, s)
    requires var action := M.ActionOf(ctx, at.inst); action.ReadRecord? || action.WriteRecord?
    ensures WithinFits(ctx, f, at, fr, made, values, flag, s)
  {
    ActionsCorrespond(ctx, f.locals, at.inst);
  }

  lemma RecordPushFits(ctx: Context, f: Func, at: Located, fr: M.Frame, made: set<M.Val>,
                       values: seq<M.Val>, flag: bool, s: BlockState)
    requires Ready(ctx, f, at, fr, made, s) && M.ActionOf(ctx, at.inst).PushRecord?
    ensures WithinFits(ctx, f, at, fr, made, values, flag, s)
  {
    ActionsCorrespond(ctx, f.locals, at.inst);
  }

  lemma RecordPopFits(ctx: Context, f: Func, at: Located, fr: M.Frame, made: set<M.Val>,
                      values: seq<M.Val>, flag: bool, s: BlockState)
    requires Ready(ctx, f, at, fr, made, s)
    requires M.ActionOf(ctx, at.inst).PopRecord?
    ensures WithinFits(ctx, f, at, fr, made, values, flag, s)
  {
    ActionsCorrespond(ctx, f.locals, at.inst);
    hide M.ActionOf, EffectOf, ReifiesSpread;
    SumPrefix(fr.records);
    assert f.upvars <= fr.records[..|fr.records| - 1];
  }

  lemma RecordCaptureFits(ctx: Context, f: Func, at: Located, fr: M.Frame, made: set<M.Val>,
                          values: seq<M.Val>, flag: bool, s: BlockState)
    requires Ready(ctx, f, at, fr, made, s)
    requires M.ActionOf(ctx, at.inst).CaptureRecord?
    ensures WithinFits(ctx, f, at, fr, made, values, flag, s)
  {
    ReifiesAgree(ctx, at.inst);
    ActionsCorrespond(ctx, f.locals, at.inst);
    hide M.ActionOf, EffectOf;
    SumPrefix(fr.records);
    assert f.upvars <= fr.records[..|fr.records| - 1];
  }

  // ----- instructions that make or run closures, or leave the frame -----

  lemma ClosureFits(ctx: Context, f: Func, at: Located, fr: M.Frame, made: set<M.Val>, s: BlockState)
    requires Ready(ctx, f, at, fr, made, s) && M.ActionOf(ctx, at.inst).MakeClosure?
    ensures var closure := M.Closure(M.ActionOf(ctx, at.inst).func, fr.records);
            var after := fr.(pc := at.after, operands := fr.operands + [closure]);
            && M.WellShaped(ctx, closure) && !Terminal(at.inst)
            && Fits(f.locals, after, EdgeState(ctx, at.inst, false, Step(ctx, f, at.inst, s).value))
            && RecordsOk(f, Restored(after)) && KnownValues(made + {closure}, after)
  {
    ActionsCorrespond(ctx, f.locals, at.inst);
  }

  lemma GuardFits(ctx: Context, f: Func, at: Located, fr: M.Frame, made: set<M.Val>, s: BlockState)
    requires Ready(ctx, f, at, fr, made, s) && M.ActionOf(ctx, at.inst).GuardCall?
    ensures var closure := M.Closure(M.ActionOf(ctx, at.inst).func, fr.records + [0]);
            var after := fr.(pc := at.after, records := fr.records + [0], waiting := M.OnGuard);
            && M.WellShaped(ctx, closure) && !Terminal(at.inst)
            && Fits(f.locals, after, EdgeState(ctx, at.inst, false, Step(ctx, f, at.inst, s).value))
            && RecordsOk(f, Restored(after)) && KnownValues(made + {closure}, after)
  {
    ActionsCorrespond(ctx, f.locals, at.inst);
    assert (fr.records + [0])[..|fr.records|] == fr.records;
  }

  lemma InvokeFits(ctx: Context, f: Func, at: Located, fr: M.Frame, made: set<M.Val>, values: seq<M.Val>, s: BlockState)
    requires Ready(ctx, f, at, fr, made, s) && M.ActionOf(ctx, at.inst).Invoke?
    ensures var args := M.ActionOf(ctx, at.inst).args;
            && args < |fr.operands| && !Terminal(at.inst)
            && M.Known(made, fr.operands[|fr.operands| - 1 - args])
            && var next := EdgeState(ctx, at.inst, false, Step(ctx, f, at.inst, s).value);
               var called := fr.(pc := at.after, operands := M.Top(fr, args + 1), waiting := M.OnCall);
               var native := fr.(pc := at.after, operands := M.Top(fr, args + 1) + M.Admit(made, values, 1));
               && Fits(f.locals, called, next) && RecordsOk(f, Restored(called)) && KnownValues(made, called)
               && Fits(f.locals, native, next) && RecordsOk(f, Restored(native)) && KnownValues(made, native)
  {
    ActionsCorrespond(ctx, f.locals, at.inst);
  }

  lemma LeaveFits(ctx: Context, f: Func, at: Located, fr: M.Frame, made: set<M.Val>, s: BlockState)
    requires Ready(ctx, f, at, fr, made, s)
    ensures M.ActionOf(ctx, at.inst).Return? ==>
              |fr.operands| == 1 && M.Known(made, fr.operands[0]) && fr.records == f.upvars
    ensures M.ActionOf(ctx, at.inst).JumpOut? ==> M.ActionOf(ctx, at.inst).depth < |fr.records|
  {
    ActionsCorrespond(ctx, f.locals, at.inst);
    if M.ActionOf(ctx, at.inst).Return? {
      assert fr.records == f.upvars;
    }
  }
}
