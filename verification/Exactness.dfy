/** The verifier's step is exact (dolang-bytecode/src/verify.rs, `step`): on a frame that is
    just as a state describes it, an instruction is refused if and only if the machine would
    fault on it, and what is claimed of the frame afterwards is all there is to say. */
module Exactness {

  import opened Results
  import opened Bytecode
  import opened Transfer
  import opened Blocks
  import opened Soundness
  import opened SyntaxChecks
  import opened ProgramSafety
  import opened Passes
  import opened Solutions
  import M = Machine

  /** The frame, once it runs again, is just what `s` says: of that depth, over those
      records, and with exactly those locals set. */
  ghost predicate FitsExactly(n: nat, fr: M.Frame, s: BlockState) {
    Fits(n, fr, s) && forall j :: 0 <= j < n && fr.locals[j].Some? ==> s.locals[j] == Value
  }

  /** A running frame of a function, about to perform an instruction that passes the syntax
      pass, of which `s` says all there is to say. */
  ghost predicate Poised(ctx: Context, f: Func, at: Located, fr: M.Frame, made: set<M.Val>, s: BlockState) {
    && fr.func < |ctx.funcs| && ctx.funcs[fr.func] == f && fr.waiting == M.Running
    && FitsExactly(f.locals, fr, s) && KnownValues(made, fr) && RecordsOk(f, fr.records)
    && SlotsInRange(f.locals, at.inst)
    && (HasTarget(at.inst) ==> Target(at) >= 0)
    && !ReifiesSpread(ctx, at.inst)
  }

  /** Whether an instruction takes its branch, by the flag that decides it. */
  predicate Takes(inst: Inst, flag: bool) {
    inst.Branch? || (inst.BranchTrue? && flag) || (inst.BranchFalse? && !flag) || (inst.UnpackBranch? && !flag)
  }

  /** The one thing the verifier refuses that the machine would do: a record too many. */
  ghost predicate TooManyUpvars(inst: Inst, fr: M.Frame) {
    inst.PushUpvars? && Sum(fr.records + [inst.count]) > UPVAR_TOTAL
  }

  // ----- instructions that stay within their frame -----

  /** The instruction is refused if and only if the machine faults on it, and otherwise
      the frame goes on along the edge it takes, just as the state there says. */
  ghost predicate ExactWithin(ctx: Context, f: Func, at: Located, fr: M.Frame, made: set<M.Val>,
                              values: seq<M.Val>, flag: bool, s: BlockState)
    requires fr.func < |ctx.funcs| && s.Live?
  {
    var result, after := Step(ctx, f, at.inst, s), M.Within(ctx, fr, at, made, values, flag);
    && (result.Err? <==> after.None? || TooManyUpvars(at.inst, fr))
    && (result.Ok? ==>
          var taken := Takes(at.inst, flag);
          && after.value.pc == (if taken && HasTarget(at.inst) then Target(at) else at.after)
          && FitsExactly(f.locals, after.value, EdgeState(ctx, at.inst, taken, result.value)))
  }

  lemma OperandsExact(ctx: Context, f: Func, at: Located, fr: M.Frame, made: set<M.Val>,
                      values: seq<M.Val>, flag: bool, s: BlockState)
    requires Poised(ctx, f, at, fr, made, s)
    requires var action := M.ActionOf(ctx, at.inst);
             action.Compute? || action.CopyTop? || action.CopyOperand? || action.SwapOperands?
    ensures ExactWithin(ctx, f, at, fr, made, values, flag, s)
  {
    ActionsCorrespond(ctx, f.locals, at.inst);
  }

  lemma JumpsExact(ctx: Context, f: Func, at: Located, fr: M.Frame, made: set<M.Val>,
                   values: seq<M.Val>, flag: bool, s: BlockState)
    requires Poised(ctx, f, at, fr, made, s)
    requires var action := M.ActionOf(ctx, at.inst); action.Jump? || action.JumpIf? || action.Match?
    ensures ExactWithin(ctx, f, at, fr, made, values, flag, s)
  {
    ActionsCorrespond(ctx, f.locals, at.inst);
  }

  lemma SlotsExact(ctx: Context, f: Func, at: Located, fr: M.Frame, made: set<M.Val>,
                   values: seq<M.Val>, flag: bool, s: BlockState)
    requires Poised(ctx, f, at, fr, made, s)
    requires var action := M.ActionOf(ctx, at.inst); action.ReadSlot? || action.WriteSlot?
    ensures ExactWithin(ctx, f, at, fr, made, values, flag, s)
  {
    ActionsCorrespond(ctx, f.locals, at.inst);
  }

  lemma AccessExact(ctx: Context, f: Func, at: Located, fr: M.Frame, made: set<M.Val>,
                    values: seq<M.Val>, flag: bool, s: BlockState)
    requires Poised(ctx, f, at, fr, made, s)
    requires var action := M.ActionOf(ctx, at.inst); action.ReadRecord? || action.WriteRecord?
    ensures ExactWithin(ctx, f, at, fr, made, values, flag, s)
  {
    ActionsCorrespond(ctx, f.locals, at.inst);
  }

  lemma RecordsExact(ctx: Context, f: Func, at: Located, fr: M.Frame, made: set<M.Val>,
                     values: seq<M.Val>, flag: bool, s: BlockState)
    requires Poised(ctx, f, at, fr, made, s)
    requires var action := M.ActionOf(ctx, at.inst); action.PushRecord? || action.PopRecord?
    ensures ExactWithin(ctx, f, at, fr, made, values, flag, s)
  {
    ActionsCorrespond(ctx, f.locals, at.inst);
  }

  lemma CaptureExact(ctx: Context, f: Func, at: Located, fr: M.Frame, made: set<M.Val>,
                     values: seq<M.Val>, flag: bool, s: BlockState)
    requires Poised(ctx, f, at, fr, made, s) && M.ActionOf(ctx, at.inst).CaptureRecord?
    ensures ExactWithin(ctx, f, at, fr, made, values, flag, s)
  {
    ReifiesAgree(ctx, at.inst);
    ActionsCorrespond(ctx, f.locals, at.inst);
  }

  lemma WithinExact(ctx: Context, f: Func, at: Located, fr: M.Frame, made: set<M.Val>,
                    values: seq<M.Val>, flag: bool, s: BlockState)
    requires Poised(ctx, f, at, fr, made, s) && IsWithin(M.ActionOf(ctx, at.inst))
    ensures ExactWithin(ctx, f, at, fr, made, values, flag, s)
  {
    hide Poised, ExactWithin, M.ActionOf;
    match M.ActionOf(ctx, at.inst)
    case Compute(_, _) | CopyTop | CopyOperand(_) | SwapOperands(_, _) =>
      OperandsExact(ctx, f, at, fr, made, values, flag, s);
    case Jump | JumpIf(_) | Match(_) => JumpsExact(ctx, f, at, fr, made, values, flag, s);
    case ReadSlot(_) | WriteSlot(_) => SlotsExact(ctx, f, at, fr, made, values, flag, s);
    case ReadRecord(_, _) | WriteRecord(_, _) => AccessExact(ctx, f, at, fr, made, values, flag, s);
    case PushRecord(_) | PopRecord => RecordsExact(ctx, f, at, fr, made, values, flag, s);
    case CaptureRecord(_, _) => CaptureExact(ctx, f, at, fr, made, values, flag, s);
  }

  // ----- instructions that make or run closures, or leave the frame -----

  /** The frame below can be handed a returned value. */
  predicate Receives(below: seq<M.Frame>) {
    below != [] ==>
      var top := below[|below| - 1];
      top.waiting != M.Running && (top.waiting == M.OnGuard ==> top.records != [])
  }

  ghost predicate Shaped(ctx: Context, made: set<M.Val>) {
    forall v :: v in made ==> M.WellShaped(ctx, v)
  }

  /** The instruction leaves its frame for good. */
  predicate LeavesFrame(inst: Inst) {
    inst.Ret? || inst.NlBranch? || inst.ElseFallthrough?
  }

  /** The frame goes on above `below` along the edge its instruction takes, just as `next`
      says of that edge. */
  ghost predicate GoesOn(ctx: Context, f: Func, at: Located, below: seq<M.Frame>, fr: M.Frame, flag: bool,
                         next: BlockState, c: M.Config) {
    && |c.frames| > |below| && c.frames[..|below|] == below
    && var after, taken := c.frames[|below|], Takes(at.inst, flag);
       && after.func == fr.func && next.Live?
       && after.pc == (if taken && HasTarget(at.inst) then Target(at) else at.after)
       && FitsExactly(f.locals, after, EdgeState(ctx, at.inst, taken, next))
  }

  /** The instruction is refused if and only if performing it is a fault, and otherwise the
      frame goes on just as the state afterwards says, or is gone. */
  ghost predicate ExactlyPerforms(ctx: Context, f: Func, at: Located, below: seq<M.Frame>, fr: M.Frame, flag: bool,
                                  s: BlockState, outcome: M.Outcome)
    requires s.Live?
  {
    var result := Step(ctx, f, at.inst, s);
    && (result.Err? <==> outcome.Fault? || TooManyUpvars(at.inst, fr))
    && (result.Ok? && !LeavesFrame(at.inst) ==>
          outcome.To? && GoesOn(ctx, f, at, below, fr, flag, result.value, outcome.next))
    && (result.Ok? && LeavesFrame(at.inst) ==> outcome.To? ==> |outcome.next.frames| <= |below|)
  }

  lemma ClosureExact(ctx: Context, f: Func, at: Located, below: seq<M.Frame>, fr: M.Frame, made: set<M.Val>,
                     values: seq<M.Val>, flag: bool, s: BlockState)
    requires Poised(ctx, f, at, fr, made, s) && M.ActionOf(ctx, at.inst).MakeClosure?
    ensures ExactlyPerforms(ctx, f, at, below, fr, flag, s, M.Perform(ctx, below, fr, at, made, values, flag))
  {
    ActionsCorrespond(ctx, f.locals, at.inst);
  }

  lemma GuardExact(ctx: Context, f: Func, at: Located, below: seq<M.Frame>, fr: M.Frame, made: set<M.Val>,
                   values: seq<M.Val>, flag: bool, s: BlockState)
    requires Poised(ctx, f, at, fr, made, s) && M.ActionOf(ctx, at.inst).GuardCall?
    ensures ExactlyPerforms(ctx, f, at, below, fr, flag, s, M.Perform(ctx, below, fr, at, made, values, flag))
  {
    ActionsCorrespond(ctx, f.locals, at.inst);
    assert (fr.records + [0])[..|fr.records|] == fr.records;
  }

  lemma InvokeExact(ctx: Context, f: Func, at: Located, below: seq<M.Frame>, fr: M.Frame, made: set<M.Val>,
                    values: seq<M.Val>, flag: bool, s: BlockState)
    requires Poised(ctx, f, at, fr, made, s) && Shaped(ctx, made) && M.ActionOf(ctx, at.inst).Invoke?
    ensures ExactlyPerforms(ctx, f, at, below, fr, flag, s, M.Perform(ctx, below, fr, at, made, values, flag))
  {
    ActionsCorrespond(ctx, f.locals, at.inst);
  }

  lemma LeaveExact(ctx: Context, f: Func, at: Located, below: seq<M.Frame>, fr: M.Frame, made: set<M.Val>,
                   values: seq<M.Val>, flag: bool, s: BlockState)
    requires Poised(ctx, f, at, fr, made, s) && Receives(below)
    requires var action := M.ActionOf(ctx, at.inst); action.Return? || action.JumpOut? || action.Complain?
    ensures ExactlyPerforms(ctx, f, at, below, fr, flag, s, M.Perform(ctx, below, fr, at, made, values, flag))
  {
    ActionsCorrespond(ctx, f.locals, at.inst);
  }

  lemma StaysExact(ctx: Context, f: Func, at: Located, below: seq<M.Frame>, fr: M.Frame, made: set<M.Val>,
                   values: seq<M.Val>, flag: bool, s: BlockState)
    requires Poised(ctx, f, at, fr, made, s) && IsWithin(M.ActionOf(ctx, at.inst))
    ensures ExactlyPerforms(ctx, f, at, below, fr, flag, s, M.Perform(ctx, below, fr, at, made, values, flag))
  {
    WithinExact(ctx, f, at, fr, made, values, flag, s);
    ActionsCorrespond(ctx, f.locals, at.inst);
    hide Step, M.ActionOf, FitsExactly, EdgeState;
    var after := M.Within(ctx, fr, at, made, values, flag);
    assert after.Some? ==> after.value.func == fr.func;
    if after.Some? {
      assert (below + [after.value])[..|below|] == below;
    }
  }

  lemma PerformExact(ctx: Context, f: Func, at: Located, below: seq<M.Frame>, fr: M.Frame, made: set<M.Val>,
                     values: seq<M.Val>, flag: bool, s: BlockState)
    requires Poised(ctx, f, at, fr, made, s) && Shaped(ctx, made) && Receives(below)
    ensures ExactlyPerforms(ctx, f, at, below, fr, flag, s, M.Perform(ctx, below, fr, at, made, values, flag))
  {
    hide M.Perform, M.ActionOf, Poised, ExactlyPerforms, Receives, Shaped;
    match M.ActionOf(ctx, at.inst)
    case MakeClosure(_) => ClosureExact(ctx, f, at, below, fr, made, values, flag, s);
    case GuardCall(_) => GuardExact(ctx, f, at, below, fr, made, values, flag, s);
    case Invoke(_) => InvokeExact(ctx, f, at, below, fr, made, values, flag, s);
    case Return | JumpOut(_) | Complain => LeaveExact(ctx, f, at, below, fr, made, values, flag, s);
    case _ => StaysExact(ctx, f, at, below, fr, made, values, flag, s);
  }

  /** What a machine holds when its running frame is just as `s` says, about to perform an
      instruction that passes the syntax pass: the frame's values and records, and those of
      the frames below, are such as verified programs leave. */
  ghost predicate Describes(ctx: Context, f: Func, at: Located, below: seq<M.Frame>, fr: M.Frame,
                            made: set<M.Val>, s: BlockState) {
    && fr.func < |ctx.funcs| && ctx.funcs[fr.func] == f && fr.waiting == M.Running
    && M.Fetch(f.code, fr.pc) == Some(at) && SyntaxFault(ctx, f, at) == None
    && FitsExactly(f.locals, fr, s) && KnownValues(made, fr) && RecordsOk(f, fr.records)
    && Shaped(ctx, made) && Receives(below)
  }

  /** The step is exact. With modules of packs that spread set aside, the verifier refuses an
      instruction if and only if the machine, completing it, faults, or it pushes more upvars
      than the limit allows; and what it then says of the frame is all there is to say. */
  lemma StepIsExact(ctx: Context, f: Func, at: Located, below: seq<M.Frame>, fr: M.Frame, made: set<M.Val>,
                    values: seq<M.Val>, flag: bool, s: BlockState)
    requires Describes(ctx, f, at, below, fr, made, s) && !ReifiesSpread(ctx, at.inst)
    ensures var outcome := M.Exec(ctx, M.Config(below + [fr], made, false), M.Proceed(values, flag));
            && (Step(ctx, f, at.inst, s).Err? <==> outcome.Fault? || TooManyUpvars(at.inst, fr))
            && (Step(ctx, f, at.inst, s).Ok? && !LeavesFrame(at.inst) ==>
                  outcome.To? && GoesOn(ctx, f, at, below, fr, flag, Step(ctx, f, at.inst, s).value, outcome.next))
  {
    hide Step, M.Perform, GoesOn, KnownValues, RecordsOk, FitsExactly, Shaped, SyntaxFault, M.InTables;
    SyntaxPassesWhen(ctx, f, at);
    PerformExact(ctx, f, at, below, fr, made, values, flag, s);
    assert (below + [fr])[..|below|] == below;
  }

  /** The entry state says all there is to say of the frame a function is entered with. */
  lemma EntryIsExact(ctx: Context, func: nat, args: seq<M.Val>)
    requires func < |ctx.funcs| && |args| == UnpackArity(ctx, ctx.funcs[func].sig)
    ensures var f := ctx.funcs[func];
            && FitsExactly(f.locals, M.NewFrame(ctx, func, f.upvars, args), Entry(ctx, f))
            && forall j :: 0 <= j < f.locals ==> M.NewFrame(ctx, func, f.upvars, args).locals[j] == None
  {
  }

  // ----- where branches go -----

  lemma {:induction false} BoundaryIsFetched(f: Func, offset: int)
    requires Contiguous(f.code)
    ensures IsBoundary(f, offset) <==> M.Fetch(f.code, offset).Some?
  {
    FetchedFrom(f.code, offset);
    if IsBoundary(f, offset) {
      var i :| 0 <= i < |f.code| && f.code[i].before == offset;
      FetchFinds(f.code, i);
    }
  }

  /** The targets are in order if and only if the machine finds an instruction wherever a branch
      takes it, and likewise behind every instruction that is not terminal. */
  lemma TargetsAreFetched(f: Func)
    requires Contiguous(f.code)
    ensures TargetsOk(f) <==>
              forall i :: 0 <= i < |f.code| && HasTarget(f.code[i].inst) ==>
                M.Fetch(f.code, f.code[i].after + f.code[i].inst.offset).Some?
    ensures Terminal(f.code[|f.code| - 1].inst) <==>
              forall i :: 0 <= i < |f.code| && !Terminal(f.code[i].inst) ==> M.Fetch(f.code, f.code[i].after).Some?
  {
    hide M.Fetch, IsBoundary, Terminal;
    forall i | 0 <= i < |f.code| && HasTarget(f.code[i].inst)
      ensures IsBoundary(f, Target(f.code[i])) <==> M.Fetch(f.code, f.code[i].after + f.code[i].inst.offset).Some?
    {
      BoundaryIsFetched(f, Target(f.code[i]));
    }
    forall i | 0 <= i < |f.code|
      ensures M.Fetch(f.code, f.code[i].after).Some? <==> i + 1 < |f.code|
    {
      NextIsFetched(f, i);
    }
  }

  lemma NextIsFetched(f: Func, i: nat)
    requires Contiguous(f.code) && i < |f.code|
    ensures M.Fetch(f.code, f.code[i].after).Some? <==> i + 1 < |f.code|
  {
    hide M.Fetch;
    BoundaryIsFetched(f, f.code[i].after);
    if i + 1 < |f.code| {
      assert f.code[i + 1].before == f.code[i].after;
    } else {
      forall k | 0 <= k < |f.code|
        ensures f.code[k].before != f.code[i].after
      {
        if k < i {
          OffsetsIncrease(f.code, k, i);
        }
      }
    }
  }

  // ----- what the errors mean -----

  /** How many operands an action needs. */
  function Needs(action: M.Action): nat {
    match action
    case Compute(takes, _) => takes
    case Invoke(args) => args + 1
    case CopyTop | WriteSlot(_) | WriteRecord(_, _) | JumpIf(_) | Match(_) | Return => 1
    case _ => 0
  }

  /** What an error says of the frame it is reported on. */
  ghost predicate Explains(ctx: Context, f: Func, inst: Inst, fr: M.Frame, error: InstError) {
    match error
    case OperandUnderflow =>
      && |fr.operands| < Needs(M.ActionOf(ctx, inst))
      && (inst.StoreUpvar? ==> inst.depth < |fr.records| && inst.index < M.RecordAt(fr, inst.depth))
    case OperandIndexOutOfBounds(index) =>
      && index >= |fr.operands|
      && (inst == Pick(index) || (inst.Swap? && index == if inst.i >= |fr.operands| then inst.i else inst.j))
    case LocalLoadUninitialized => inst.LoadLocal? && inst.slot < |fr.locals| && fr.locals[inst.slot].None?
    case UpvarDepthOutOfBounds =>
      (inst.LoadUpvar? || inst.StoreUpvar? || inst.NlBranch?) && inst.depth >= |fr.records|
    case UpvarIndexOutOfBounds =>
      && (inst.LoadUpvar? || inst.StoreUpvar?) && inst.depth < |fr.records|
      && inst.index >= M.RecordAt(fr, inst.depth)
    case UpvarPushExceedsLimit => TooManyUpvars(inst, fr)
    case UpvarUnderflow => (inst.PopUpvars? || inst.Reify?) && fr.records == f.upvars
    case ReifyMismatch(count, arity) =>
      && inst.Reify? && fr.records != []
      && M.RecordAt(fr, 0) == count != arity == PackArity(ctx, inst.pack)
    case UpvarSigMismatch =>
      || (inst.Close? && inst.func < |ctx.funcs| && ctx.funcs[inst.func].upvars != fr.records)
      || (inst.NlGuard? && inst.func < |ctx.funcs| && ctx.funcs[inst.func].upvars != fr.records + [0])
    case ReturnWithExcessOperands => inst.Ret? && |fr.operands| > 1
    case ReturnWithExcessUpvars => inst.Ret? && |fr.operands| == 1 && fr.records != f.upvars
    case _ => false
  }

  // An instruction computes on its operands, or is one of those with a rule of its own.
  predicate HasOwnRule(inst: Inst) {
    || inst.Pick? || inst.Swap? || inst.LoadLocal? || inst.StoreLocal? || inst.LoadUpvar? || inst.StoreUpvar?
    || inst.PushUpvars? || inst.PopUpvars? || inst.Reify? || inst.Close? || inst.NlGuard? || inst.NlBranch? || inst.Ret?
  }

  lemma OthersCompute(ctx: Context, inst: Inst)
    ensures EffectOf(ctx, inst).Stack? <==> !HasOwnRule(inst)
  {
    hide PackArity, UnpackArity;
  }

  lemma ComputeExplained(ctx: Context, f: Func, inst: Inst, fr: M.Frame, s: BlockState)
    requires !HasOwnRule(inst) && s.Live? && |fr.operands| == s.operands && Step(ctx, f, inst, s).Err?
    ensures Explains(ctx, f, inst, fr, Step(ctx, f, inst, s).error)
  {
    OthersCompute(ctx, inst);
    EffectsAgree(ctx, inst);
    hide EffectOf, M.ActionOf;
  }

  /** A refusal names what is wrong with the frame. */
  lemma RefusalExplained(ctx: Context, f: Func, at: Located, below: seq<M.Frame>, fr: M.Frame, made: set<M.Val>,
                         s: BlockState)
    requires Describes(ctx, f, at, below, fr, made, s) && Step(ctx, f, at.inst, s).Err?
    ensures Explains(ctx, f, at.inst, fr, Step(ctx, f, at.inst, s).error)
  {
    hide SyntaxFault, M.InTables, KnownValues, Shaped, Receives, M.Fetch;
    SyntaxPassesWhen(ctx, f, at);
    if HasOwnRule(at.inst) {
      OwnRuleExplained(ctx, f, at.inst, fr, s);
    } else {
      ComputeExplained(ctx, f, at.inst, fr, s);
    }
  }

  lemma OwnRuleExplained(ctx: Context, f: Func, inst: Inst, fr: M.Frame, s: BlockState)
    requires HasOwnRule(inst) && FitsExactly(f.locals, fr, s) && RecordsOk(f, fr.records) && fr.waiting == M.Running
    requires SlotsInRange(f.locals, inst) && FuncInRange(ctx, inst)
    requires Step(ctx, f, inst, s).Err?
    ensures Explains(ctx, f, inst, fr, Step(ctx, f, inst, s).error)
  {
    if inst.Pick? || inst.Swap? || inst.LoadLocal? || inst.StoreLocal? || inst.Ret? {
      OperandRuleExplained(ctx, f, inst, fr, s);
    } else if inst.Close? || inst.NlGuard? || inst.NlBranch? {
      ClosureRuleExplained(ctx, f, inst, fr, s);
    } else {
      RecordRuleExplained(ctx, f, inst, fr, s);
    }
  }

  lemma OperandRuleExplained(ctx: Context, f: Func, inst: Inst, fr: M.Frame, s: BlockState)
    requires inst.Pick? || inst.Swap? || inst.LoadLocal? || inst.StoreLocal? || inst.Ret?
    requires FitsExactly(f.locals, fr, s) && f.upvars <= fr.records && fr.waiting == M.Running
    requires SlotsInRange(f.locals, inst) && Step(ctx, f, inst, s).Err?
    ensures Explains(ctx, f, inst, fr, Step(ctx, f, inst, s).error)
  {
    if inst.StoreLocal? {
      assert M.ActionOf(ctx, inst) == M.WriteSlot(inst.slot);
    } else if inst.Ret? {
      assert M.ActionOf(ctx, inst) == M.Return;
    }
    hide M.ActionOf;
  }

  lemma ClosureRuleExplained(ctx: Context, f: Func, inst: Inst, fr: M.Frame, s: BlockState)
    requires inst.Close? || inst.NlGuard? || inst.NlBranch?
    requires s.Live? && s.upvars == fr.records
    requires FuncInRange(ctx, inst) && Step(ctx, f, inst, s).Err?
    ensures Explains(ctx, f, inst, fr, Step(ctx, f, inst, s).error)
  {
    hide M.ActionOf;
  }

  lemma RecordRuleExplained(ctx: Context, f: Func, inst: Inst, fr: M.Frame, s: BlockState)
    requires inst.LoadUpvar? || inst.StoreUpvar? || inst.PushUpvars? || inst.PopUpvars? || inst.Reify?
    requires s.Live? && s.operands == |fr.operands| && s.upvars == fr.records && f.upvars <= fr.records
    requires Step(ctx, f, inst, s).Err?
    ensures Explains(ctx, f, inst, fr, Step(ctx, f, inst, s).error)
  {
    if inst.StoreUpvar? {
      assert M.ActionOf(ctx, inst) == M.WriteRecord(inst.index, inst.depth);
      hide M.ActionOf;
    } else if inst.LoadUpvar? {
      hide M.ActionOf;
    } else {
      hide M.ActionOf, CheckUpvar;
    }
  }

  // ----- the certified depth -----

  lemma {:induction false} PeakReached(ctx: Context, f: Func, lo: nat, hi: nat, s: BlockState)
    requires lo < hi <= |f.code| && s.Live? && Run(ctx, f, lo, hi, s).Ok?
    ensures exists i :: lo < i <= hi && RunsTo(ctx, f, lo, i, s, Peak(ctx, f, lo, hi, s))
    decreases hi
  {
    hide Step;
    var here := Run(ctx, f, lo, hi, s).value.operands;
    assert RunsTo(ctx, f, lo, hi, s, here);
    assert Peak(ctx, f, lo, hi, s) == Max(Peak(ctx, f, lo, hi - 1, s), here);
    if lo + 1 < hi {
      PeakReached(ctx, f, lo, hi - 1, s);
      var i :| lo < i <= hi - 1 && RunsTo(ctx, f, lo, i, s, Peak(ctx, f, lo, hi - 1, s));
      assert i <= hi;
    } else {
      assert Peak(ctx, f, lo, lo, s) == 0;
    }
  }

  /** Instructions `lo` to `i - 1` leave that many operands. */
  ghost predicate RunsTo(ctx: Context, f: Func, lo: nat, i: nat, s: BlockState, depth: nat) {
    && lo <= i <= |f.code| && s.Live?
    && Run(ctx, f, lo, i, s).Ok? && Run(ctx, f, lo, i, s).value.operands == depth
  }

  lemma {:induction false} FlowPeakReached(flows: seq<Flow>)
    requires forall i :: 0 <= i < |flows| ==> flows[i].state.Live?
    ensures FlowPeak(flows) == 0 || exists i :: 0 <= i < |flows| && flows[i].state.operands == FlowPeak(flows)
  {
    if flows != [] {
      var init := flows[..|flows| - 1];
      FlowPeakReached(init);
      if FlowPeak(flows) != flows[|flows| - 1].state.operands && FlowPeak(init) != 0 {
        var i :| 0 <= i < |init| && init[i].state.operands == FlowPeak(init);
        assert flows[i].state.operands == FlowPeak(flows);
      }
    }
  }

  /** Some edge out of block `b` carries that many operands. */
  ghost predicate EdgeCarries(ctx: Context, f: Func, b: nat, out: BlockState, depth: nat) {
    && HasBlock(f, b) && out.Live?
    && exists k :: 0 <= k < |FlowsFrom(ctx, f, b, out)| && FlowsFrom(ctx, f, b, out)[k].state.Live?
                   && FlowsFrom(ctx, f, b, out)[k].state.operands == depth
  }

  /** Where a certificate's depth comes from: the arguments, an instruction of some block, or an
      edge out of it. */
  ghost predicate DepthReached(ctx: Context, f: Func, claims: seq<BlockState>, depth: nat)
    requires Contiguous(f.code) && |claims| == |Starts(f)|
  {
    || depth == Entry(ctx, f).operands
    || (exists b, i :: 0 <= b < |claims| && Lo(f, b) < i <= Hi(f, b) && RunsTo(ctx, f, Lo(f, b), i, claims[b], depth))
    || (exists b :: 0 <= b < |claims| && claims[b].Live? && Visit(ctx, f, b, claims[b]).Ok?
                    && EdgeCarries(ctx, f, b, Visit(ctx, f, b, claims[b]).value, depth))
  }

  lemma VisitPeakReached(ctx: Context, f: Func, claims: seq<BlockState>, b: nat)
    requires Contiguous(f.code) && TargetsOk(f) && b < |claims| == |Starts(f)| && claims[b].Live?
    requires Visit(ctx, f, b, claims[b]).Ok?
    ensures DepthReached(ctx, f, claims, VisitPeak(ctx, f, b, claims[b]))
  {
    hide Starts, TargetsOk, FlowsFrom, Peak, Run, FlowPeak;
    BlockRange(f, b);
    var lo, hi, out := Lo(f, b), Hi(f, b), Visit(ctx, f, b, claims[b]).value;
    PeakReached(ctx, f, lo, hi, claims[b]);
    FlowTargets(ctx, f, b, out);
    FlowPeakReached(FlowsFrom(ctx, f, b, out));
    var i :| lo < i <= hi && RunsTo(ctx, f, lo, i, claims[b], Peak(ctx, f, lo, hi, claims[b]));
    if VisitPeak(ctx, f, b, claims[b]) != Peak(ctx, f, lo, hi, claims[b]) {
      assert EdgeCarries(ctx, f, b, out, FlowPeak(FlowsFrom(ctx, f, b, out)));
    }
  }

  /** The certified depth is no greater than need be: the arguments, an instruction or an edge
      of some block claim just so many operands. */
  lemma DepthIsReached(ctx: Context, f: Func, cert: Certificate)
    requires Accepted(ctx, f, cert)
    ensures |Claims(ctx, f, cert)| == |Starts(f)|
    ensures DepthReached(ctx, f, Claims(ctx, f, cert), cert.maxOperandDepth)
  {
    hide VisitPeak, DepthReached, Visit, Starts;
    var claims := Claims(ctx, f, cert);
    if cert.maxOperandDepth != Entry(ctx, f).operands {
      var b :| 0 <= b < |claims| && claims[b].Live? && VisitPeak(ctx, f, b, claims[b]) == cert.maxOperandDepth;
      VisitPeakReached(ctx, f, claims, b);
    } else {
      EntryReached(ctx, f, claims);
    }
  }

  lemma EntryReached(ctx: Context, f: Func, claims: seq<BlockState>)
    requires Contiguous(f.code) && |claims| == |Starts(f)|
    ensures DepthReached(ctx, f, claims, Entry(ctx, f).operands)
  {
    hide Starts;
  }
}
