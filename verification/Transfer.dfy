/** Block states: how they merge, how they are ordered, and what one instruction
    does to them (dolang-bytecode/src/verify.rs, `BlockState` and `step`). */
module Transfer {

  import opened Results
  import opened Bytecode

  datatype InstError =
    | OperandDepthConflict(from: nat, into: nat)
    | UpvarDepthConflict(from: nat, into: nat)
    | UpvarCountConflict(depth: nat, from: nat, into: nat)
    | NoOpSwap
    | OperandIndexOutOfBounds(index: nat)
    | OperandUnderflow
    | BranchTargetOutOfBounds
    | BranchTargetInvalid
    | ConstIndexOutOfBounds
    | SymIndexOutOfBounds
    | BuiltinIndexOutOfBounds
    | LocalIndexOutOfBounds
    | LocalLoadUninitialized
    | UpvarDepthOutOfBounds
    | UpvarIndexOutOfBounds
    | UpvarPushExceedsLimit
    | UpvarUnderflow
    | PackIndexOutOfBounds
    | UnpackIndexOutOfBounds
    | FuncIndexOutOfBounds
    | UpvarSigMismatch
    | ReturnWithExcessOperands
    | ReturnWithExcessUpvars
    | InstructionUnreachable
    | NotAFixedPoint
    | ReifyMismatch(count: nat, arity: nat)
    | InvalidElseKind
    | LocalListTooShort  // the index panic on a certificate's short local list

  type FlowResult = Result<BlockState, InstError>

  // ----- merging -----

  function MergeLocal(from: LocalState, into: LocalState): LocalState {
    if from == Value && into == Value then Value else Invalid
  }

  // The lists are zipped: what the longer list has beyond the shorter stays as it is in `into`.
  function MergeLocals(from: seq<LocalState>, into: seq<LocalState>): (r: seq<LocalState>)
    ensures |r| == |into|
    ensures forall i :: 0 <= i < |into| ==> r[i] == if i < |from| then MergeLocal(from[i], into[i]) else into[i]
  {
    seq(|into|, i requires 0 <= i < |into| => if i < |from| then MergeLocal(from[i], into[i]) else into[i])
  }

  /** The first index from `i` on at which two record stacks of one height differ. */
  function FirstDifference(a: seq<nat>, b: seq<nat>, i: nat): (r: nat)
    requires |a| == |b| && i < |a| && a != b && a[..i] == b[..i]
    ensures i <= r < |a| && a[r] != b[r] && a[..r] == b[..r]
    decreases |a| - i
  {
    if a[i] != b[i] then i
    else
      assert a[..i + 1] == a[..i] + [a[i]] && b[..i + 1] == b[..i] + [b[i]];
      assert i + 1 < |a| by {
        assert a[..|a|] == a && b[..|b|] == b;
      }
      FirstDifference(a, b, i + 1)
  }

  function Merge(from: BlockState, into: BlockState): FlowResult
    requires from.Live?
  {
    if into.Neutral? then Ok(from)
    else if from.operands != into.operands then Err(OperandDepthConflict(from.operands, into.operands))
    else if |from.upvars| != |into.upvars| then Err(UpvarDepthConflict(|from.upvars|, |into.upvars|))
    else if from.upvars != into.upvars then
      var i := FirstDifference(from.upvars, into.upvars, 0);
      Err(UpvarCountConflict(|from.upvars| - i - 1, from.upvars[i], into.upvars[i]))
    else Ok(into.(locals := MergeLocals(from.locals, into.locals)))
  }

  // ----- the precision order -----

  /** `a` is at least as precise as `b` about the first `n` locals, and they agree
      on everything else. */
  ghost predicate Leq(n: nat, a: BlockState, b: BlockState) {
    && a.Live? && b.Live?
    && a.operands == b.operands
    && a.upvars == b.upvars
    && n <= |a.locals| && n <= |b.locals|
    && forall i :: 0 <= i < n && b.locals[i] == Value ==> a.locals[i] == Value
  }

  /** Merging `edge` into `claim` finds no conflict and changes nothing. */
  ghost predicate Absorbed(edge: BlockState, claim: BlockState)
    requires edge.Live?
  {
    Merge(edge, claim) == Ok(claim)
  }

  lemma AbsorbedIsLeq(n: nat, edge: BlockState, claim: BlockState)
    requires edge.Live? && claim.Live? && n <= |edge.locals| && n <= |claim.locals|
    ensures Absorbed(edge, claim) ==> Leq(n, edge, claim)
    ensures Leq(n, edge, claim) && |claim.locals| == n ==> Absorbed(edge, claim)
  {
    if Leq(n, edge, claim) && |claim.locals| == n {
      assert MergeLocals(edge.locals, claim.locals) == claim.locals;
    }
  }

  // Merge is the least upper bound: it lies above both and below anything above both.
  lemma MergeIsJoin(n: nat, edge: BlockState, into: BlockState)
    requires edge.Live? && into.Live? && n <= |edge.locals| && n <= |into.locals|
    ensures Merge(edge, into).Ok? <==> edge.operands == into.operands && edge.upvars == into.upvars
    ensures Merge(edge, into).Ok? ==>
              var m := Merge(edge, into).value;
              && |m.locals| == |into.locals|
              && Leq(n, edge, m) && Leq(n, into, m)
              && forall top :: Leq(n, edge, top) && Leq(n, into, top) ==> Leq(n, m, top)
  {
  }

  /** What a failed merge says: the two depths that differ, or the two counts of the outermost
      record that differs, by how many records lie inside it. */
  lemma MergeConflicts(from: BlockState, into: BlockState)
    requires from.Live? && into.Live? && Merge(from, into).Err?
    ensures match Merge(from, into).error
            case OperandDepthConflict(a, b) => a == from.operands != into.operands == b
            case UpvarDepthConflict(a, b) =>
              from.operands == into.operands && a == |from.upvars| != |into.upvars| == b
            case UpvarCountConflict(depth, a, b) =>
              var n := |from.upvars|;
              && from.operands == into.operands && n == |into.upvars| && depth < n
              && a == from.upvars[n - 1 - depth] != into.upvars[n - 1 - depth] == b
              && from.upvars[..n - 1 - depth] == into.upvars[..n - 1 - depth]
            case _ => false
  {
  }

  lemma LeqTransitive(n: nat, a: BlockState, b: BlockState, c: BlockState)
    requires Leq(n, a, b) && Leq(n, b, c)
    ensures Leq(n, a, c)
  {
  }

  lemma LeqAntisymmetric(a: BlockState, b: BlockState)
    requires |a.locals| == |b.locals|
    requires Leq(|a.locals|, a, b) && Leq(|a.locals|, b, a)
    ensures a == b
  {
    assert a.locals == b.locals;
  }

  // ----- one instruction -----

  /** What an instruction does, as far as the verifier is concerned. */
  datatype Effect =
    | Stack(pops: nat, pushes: nat)
    | Peek(n: nat)
    | Exchange(i: nat, j: nat)
    | ReadLocal(slot: nat)
    | WriteLocal(slot: nat)
    | ReadUpvar(index: nat, depth: nat)
    | WriteUpvar(index: nat, depth: nat)
    | OpenRecord(count: nat)
    | DropRecord
    | ReifyRecord(arity: nat)
    | MakeClosure(func: nat)
    | RunGuarded(func: nat)
    | JumpOut(depth: nat)
    | Leave

  function EffectOf(ctx: Context, inst: Inst): Effect {
    match inst
    case Branch(_) | ElseFallthrough(_) => Stack(0, 0)
    case Neg | Not | BitNot | Get(_) => Stack(1, 1)
    case Add | Div | Ediv | Mod | Mul | BitAnd | BitOr | BitXor | Shl | Shr | Eq | Ne | Gt | Lt | Gte | Lte | Sub
      | Index => Stack(2, 1)
    case Dup | Next => Stack(1, 2)
    case Pop | BranchTrue(_) | BranchFalse(_) | UnpackBranch(_, _) => Stack(1, 0)
    case Call(pack) => Stack(PackArity(ctx, pack) + 1, 1)
    case MethodCall(_, pack) => Stack(PackArity(ctx, pack) + 1, 1)
    case Builtin(_, pack) => Stack(PackArity(ctx, pack), 1)
    case LoadConst(_) => Stack(0, 1)
    case Set(_) => Stack(2, 0)
    case Assign => Stack(3, 0)
    case Unpack(unpack) => Stack(1, UnpackArity(ctx, unpack))
    case Pick(n) => Peek(n)
    case Swap(i, j) => Exchange(i, j)
    case LoadLocal(slot) => ReadLocal(slot)
    case StoreLocal(slot) => WriteLocal(slot)
    case LoadUpvar(index, depth) => ReadUpvar(index, depth)
    case StoreUpvar(index, depth) => WriteUpvar(index, depth)
    case PushUpvars(count) => OpenRecord(count)
    case PopUpvars => DropRecord
    case Reify(pack) => ReifyRecord(PackArity(ctx, pack))
    case Close(func) => MakeClosure(func)
    case NlGuard(func) => RunGuarded(func)
    case NlBranch(depth, _) => JumpOut(depth)
    case Ret => Leave
  }

  function Push(s: BlockState, n: nat): BlockState
    requires s.Live?
  {
    s.(operands := s.operands + n)
  }

  function Pop(s: BlockState, n: nat): FlowResult
    requires s.Live?
  {
    if n <= s.operands then Ok(s.(operands := s.operands - n)) else Err(OperandUnderflow)
  }

  function CheckUpvar(s: BlockState, index: nat, depth: nat): Option<InstError>
    requires s.Live?
  {
    if depth >= |s.upvars| then Some(UpvarDepthOutOfBounds)
    else if index >= s.upvars[|s.upvars| - 1 - depth] then Some(UpvarIndexOutOfBounds)
    else None
  }

  /** The state after an effect, or why the instruction is refused. */
  function Apply(ctx: Context, f: Func, effect: Effect, s: BlockState): (r: FlowResult)
    requires s.Live?
    ensures r.Ok? ==> r.value.Live? && |r.value.locals| == |s.locals|
  {
    match effect
    case Stack(pops, pushes) =>
      if pops <= s.operands then Ok(s.(operands := s.operands - pops + pushes)) else Err(OperandUnderflow)
    case Peek(n) =>
      if n < s.operands then Ok(Push(s, 1)) else Err(OperandIndexOutOfBounds(n))
    case Exchange(i, j) =>
      if i >= s.operands then Err(OperandIndexOutOfBounds(i))
      else if j >= s.operands then Err(OperandIndexOutOfBounds(j))
      else Ok(s)
    case ReadLocal(slot) =>
      if slot >= |s.locals| then Err(LocalListTooShort)
      else if s.locals[slot] == Invalid then Err(LocalLoadUninitialized)
      else Ok(Push(s, 1))
    case WriteLocal(slot) =>
      if s.operands == 0 then Err(OperandUnderflow)
      else if slot >= |s.locals| then Err(LocalListTooShort)
      else Ok(Live(s.operands - 1, s.locals[slot := Value], s.upvars))
    case ReadUpvar(index, depth) =>
      var refused := CheckUpvar(s, index, depth);
      if refused.Some? then Err(refused.value) else Ok(Push(s, 1))
    case WriteUpvar(index, depth) =>
      var refused := CheckUpvar(s, index, depth);
      if refused.Some? then Err(refused.value) else Pop(s, 1)
    case OpenRecord(count) =>
      if Sum(s.upvars + [count]) > UPVAR_TOTAL then Err(UpvarPushExceedsLimit)
      else Ok(s.(upvars := s.upvars + [count]))
    case DropRecord =>
      if |s.upvars| == |f.upvars| then Err(UpvarUnderflow)
      else Ok(s.(upvars := if |s.upvars| == 0 then [] else s.upvars[..|s.upvars| - 1]))
    case ReifyRecord(arity) =>
      if |s.upvars| == |f.upvars| || |s.upvars| == 0 then Err(UpvarUnderflow)
      else if s.upvars[|s.upvars| - 1] != arity then Err(ReifyMismatch(s.upvars[|s.upvars| - 1], arity))
      else Ok(Live(s.operands + 1, s.locals, s.upvars[..|s.upvars| - 1]))
    case MakeClosure(func) =>
      if func >= |ctx.funcs| then Err(FuncIndexOutOfBounds)
      else if ctx.funcs[func].upvars != s.upvars then Err(UpvarSigMismatch)
      else Ok(Push(s, 1))
    case RunGuarded(func) =>
      if func >= |ctx.funcs| then Err(FuncIndexOutOfBounds)
      else if ctx.funcs[func].upvars != s.upvars + [0] then Err(UpvarSigMismatch)
      else Ok(Push(s, 2))
    case JumpOut(depth) =>
      if depth >= |s.upvars| then Err(UpvarDepthOutOfBounds) else Ok(s)
    case Leave =>
      if s.operands == 0 then Err(OperandUnderflow)
      else if s.operands != 1 then Err(ReturnWithExcessOperands)
      else if |s.upvars| != |f.upvars| then Err(ReturnWithExcessUpvars)
      else Ok(s.(operands := 0))
  }

  function Step(ctx: Context, f: Func, inst: Inst, s: BlockState): (r: FlowResult)
    requires s.Live?
    ensures r.Ok? ==> r.value.Live? && |r.value.locals| == |s.locals|
  {
    Apply(ctx, f, EffectOf(ctx, inst), s)
  }

  /** The state along one outgoing edge: the fall-through edge of a conditional
      unpack alone carries the unpacked values. */
  function EdgeState(ctx: Context, inst: Inst, taken: bool, s: BlockState): BlockState
    requires s.Live?
  {
    if inst.UnpackBranch? && !taken then Push(s, UnpackArity(ctx, inst.unpack)) else s
  }

  /** The local slots an instruction names exist. */
  predicate SlotsInRange(n: nat, inst: Inst) {
    (inst.LoadLocal? || inst.StoreLocal?) ==> inst.slot < n
  }

  /** Precision is preserved: an instruction accepted on a state is accepted on
      any more precise one, and leaves a more precise result. */
  lemma StepMonotone(ctx: Context, f: Func, n: nat, inst: Inst, a: BlockState, b: BlockState)
    requires Leq(n, a, b) && SlotsInRange(n, inst)
    requires Step(ctx, f, inst, b).Ok?
    ensures Step(ctx, f, inst, a).Ok?
    ensures Leq(n, Step(ctx, f, inst, a).value, Step(ctx, f, inst, b).value)
  {
    var effect := EffectOf(ctx, inst);
    assert effect.ReadLocal? || effect.WriteLocal? ==> effect.slot < n;
    ApplyMonotone(ctx, f, n, effect, a, b);
  }

  lemma ApplyMonotone(ctx: Context, f: Func, n: nat, effect: Effect, a: BlockState, b: BlockState)
    requires Leq(n, a, b)
    requires effect.ReadLocal? || effect.WriteLocal? ==> effect.slot < n
    requires Apply(ctx, f, effect, b).Ok?
    ensures Apply(ctx, f, effect, a).Ok?
    ensures Leq(n, Apply(ctx, f, effect, a).value, Apply(ctx, f, effect, b).value)
  {
  }
}
