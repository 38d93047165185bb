/** What the syntax and basic block passes establish about a function, and the
    data flow over its blocks (dolang-bytecode/src/verify.rs, `syntax`,
    `basic_blocks` and the block visit of `dataflow`). */
module Blocks {

  import opened Results
  import opened Bytecode
  import opened Transfer
  import opened Graphs

  datatype FuncError =
    | AtInst(offset: nat, error: InstError)
    | UnexpectedEnd
    | UpvarLimitExceeded
    | BasicBlockMismatch
    | OperandDepthMismatch

  // ----- pass 0: syntax -----

  function CodeLength(f: Func): nat {
    if |f.code| == 0 then 0 else f.code[|f.code| - 1].after
  }

  /** The next instruction starts a basic block. */
  predicate EndsBlock(inst: Inst) {
    HasTarget(inst) || inst.ElseFallthrough? || inst.NlBranch?
  }

  /** Control never continues to the next instruction. */
  predicate Terminal(inst: Inst) {
    inst.Ret? || inst.Branch? || inst.NlBranch? || inst.ElseFallthrough?
  }

  function Refuse(bad: bool, error: InstError): Option<InstError> {
    if bad then Some(error) else None
  }

  function TargetFault(f: Func, at: Located): Option<InstError>
    requires HasTarget(at.inst)
  {
    Refuse(!(0 <= Target(at) < CodeLength(f)), BranchTargetOutOfBounds)
  }

  function SyntaxFault(ctx: Context, f: Func, at: Located): Option<InstError> {
    match at.inst
    case Swap(i, j) => Refuse(i == j, NoOpSwap)
    case Call(pack) => Refuse(pack >= |ctx.packs|, PackIndexOutOfBounds)
    case MethodCall(sym, pack) =>
      if sym >= ctx.symbols then Some(SymIndexOutOfBounds) else Refuse(pack >= |ctx.packs|, PackIndexOutOfBounds)
    case Builtin(id, pack) =>
      if id >= BUILTIN_COUNT then Some(BuiltinIndexOutOfBounds)
      else Refuse(pack >= |ctx.packs|, PackIndexOutOfBounds)
    case LoadConst(id) => Refuse(id >= ctx.constants, ConstIndexOutOfBounds)
    case LoadLocal(slot) => Refuse(slot >= f.locals, LocalIndexOutOfBounds)
    case StoreLocal(slot) => Refuse(slot >= f.locals, LocalIndexOutOfBounds)
    case Get(sym) => Refuse(sym >= ctx.symbols, SymIndexOutOfBounds)
    case Set(sym) => Refuse(sym >= ctx.symbols, SymIndexOutOfBounds)
    case Close(func) => Refuse(func >= |ctx.funcs|, FuncIndexOutOfBounds)
    case NlGuard(func) => Refuse(func >= |ctx.funcs|, FuncIndexOutOfBounds)
    case Branch(_) => TargetFault(f, at)
    case BranchTrue(_) => TargetFault(f, at)
    case BranchFalse(_) => TargetFault(f, at)
    case Reify(pack) => Refuse(pack >= |ctx.packs|, PackIndexOutOfBounds)
    case Unpack(unpack) => Refuse(unpack >= |ctx.unpacks|, UnpackIndexOutOfBounds)
    case ElseFallthrough(kind) => Refuse(kind > 1, InvalidElseKind)
    case UnpackBranch(unpack, _) =>
      if unpack >= |ctx.unpacks| then Some(UnpackIndexOutOfBounds) else TargetFault(f, at)
    case _ => None
  }

  ghost predicate SyntaxOk(ctx: Context, f: Func)
    requires Contiguous(f.code)
  {
    && Sum(f.upvars) <= UPVAR_TOTAL
    && (forall i :: 0 <= i < |f.code| ==> SyntaxFault(ctx, f, f.code[i]) == None)
    && Terminal(f.code[|f.code| - 1].inst)
  }

  /** The function an instruction makes a closure of, if any. */
  function UseOf(inst: Inst): set<nat> {
    if inst.Close? || inst.NlGuard? then {inst.func} else {}
  }

  /** The functions used by the first `n` instructions. */
  function UsesOf(code: seq<Located>, n: nat): set<nat>
    requires n <= |code|
  {
    if n == 0 then {} else UsesOf(code, n - 1) + UseOf(code[n - 1].inst)
  }

  // ----- pass 1: basic blocks -----

  ghost predicate IsBoundary(f: Func, offset: int) {
    exists i :: 0 <= i < |f.code| && f.code[i].before == offset
  }

  /** Every branch goes to the start of an instruction. */
  ghost predicate TargetsOk(f: Func) {
    forall i :: 0 <= i < |f.code| && HasTarget(f.code[i].inst) ==> IsBoundary(f, Target(f.code[i]))
  }

  ghost predicate Targets(f: Func, i: nat, offset: nat) {
    i < |f.code| && HasTarget(f.code[i].inst) && Target(f.code[i]) == offset
  }

  ghost predicate IsStart(f: Func, i: nat)
    requires i < |f.code|
  {
    || i == 0
    || EndsBlock(f.code[i - 1].inst)
    || exists j :: Targets(f, j, f.code[i].before)
  }

  /** The instructions below `n` that start a block, in order. */
  ghost function StartsBelow(f: Func, n: nat): seq<nat>
    requires n <= |f.code|
  {
    if n == 0 then []
    else if IsStart(f, n - 1) then StartsBelow(f, n - 1) + [n - 1]
    else StartsBelow(f, n - 1)
  }

  ghost function Starts(f: Func): seq<nat> {
    StartsBelow(f, |f.code|)
  }

  lemma {:induction false} StartsBelowOrdered(f: Func, n: nat)
    requires Contiguous(f.code) && n <= |f.code|
    ensures n > 0 ==> |StartsBelow(f, n)| > 0 && StartsBelow(f, n)[0] == 0
    ensures forall b :: 0 <= b < |StartsBelow(f, n)| ==> StartsBelow(f, n)[b] < n && IsStart(f, StartsBelow(f, n)[b])
    ensures forall a, b :: 0 <= a < b < |StartsBelow(f, n)| ==> StartsBelow(f, n)[a] < StartsBelow(f, n)[b]
    ensures forall i :: 0 <= i < n && IsStart(f, i) ==> i in StartsBelow(f, n)
  {
    if n > 0 {
      StartsBelowOrdered(f, n - 1);
    }
  }

  ghost function Lo(f: Func, b: nat): nat
    requires b < |Starts(f)|
  {
    Starts(f)[b]
  }

  ghost function Hi(f: Func, b: nat): nat
    requires b < |Starts(f)|
  {
    if b + 1 < |Starts(f)| then Starts(f)[b + 1] else |f.code|
  }

  lemma BlockRange(f: Func, b: nat)
    requires Contiguous(f.code) && b < |Starts(f)|
    ensures Lo(f, b) < Hi(f, b) <= |f.code|
    ensures Starts(f)[0] == 0
    ensures IsStart(f, Lo(f, b))
    ensures forall i :: Lo(f, b) < i < Hi(f, b) ==> !IsStart(f, i)
  {
    var starts := Starts(f);
    StartsBelowOrdered(f, |f.code|);
    forall i | Lo(f, b) < i < Hi(f, b)
      ensures !IsStart(f, i)
    {
      assert i !in starts by {
        assert forall c :: 0 <= c < |starts| ==> starts[c] <= Lo(f, b) || starts[c] >= Hi(f, b);
      }
    }
  }

  /** The block that starts at a byte offset. */
  ghost function BlockAt(f: Func, offset: int): nat {
    if exists b :: 0 <= b < |Starts(f)| && 0 <= Starts(f)[b] < |f.code| && f.code[Starts(f)[b]].before == offset then
      var b :| 0 <= b < |Starts(f)| && 0 <= Starts(f)[b] < |f.code| && f.code[Starts(f)[b]].before == offset;
      b
    else 0
  }

  // An instruction that is the target of a branch starts a block, which `BlockAt` finds.
  lemma BlockAtTarget(f: Func, i: nat)
    requires Contiguous(f.code) && TargetsOk(f)
    requires i < |f.code| && HasTarget(f.code[i].inst)
    ensures var b := BlockAt(f, Target(f.code[i]));
            b < |Starts(f)| && Lo(f, b) < |f.code| && f.code[Lo(f, b)].before == Target(f.code[i])
  {
    StartsBelowOrdered(f, |f.code|);
    var j :| 0 <= j < |f.code| && f.code[j].before == Target(f.code[i]);
    assert Targets(f, i, f.code[j].before);
    assert IsStart(f, j);
    var b :| 0 <= b < |Starts(f)| && Starts(f)[b] == j;
  }

  // ----- pass 2: one visit of a block -----

  /** The state after instructions `lo` to `hi - 1`. */
  function Run(ctx: Context, f: Func, lo: nat, hi: nat, s: BlockState): (r: Result<BlockState, FuncError>)
    requires lo <= hi <= |f.code| && s.Live?
    ensures r.Ok? ==> r.value.Live? && |r.value.locals| == |s.locals|
    decreases hi
  {
    if lo == hi then Ok(s)
    else
      match Run(ctx, f, lo, hi - 1, s)
      case Err(e) => Err(e)
      case Ok(mid) =>
        match Step(ctx, f, f.code[hi - 1].inst, mid)
        case Err(e) => Err(AtInst(f.code[hi - 1].before, e))
        case Ok(out) => Ok(out)
  }

  function Height(r: Result<BlockState, FuncError>): nat {
    if r.Ok? && r.value.Live? then r.value.operands else 0
  }

  /** The greatest operand depth left by any of instructions `lo` to `hi - 1`. */
  function Peak(ctx: Context, f: Func, lo: nat, hi: nat, s: BlockState): nat
    requires lo <= hi <= |f.code| && s.Live?
    decreases hi
  {
    if lo == hi then 0 else Max(Peak(ctx, f, lo, hi - 1, s), Height(Run(ctx, f, lo, hi, s)))
  }

  datatype Flow = Flow(to: nat, state: BlockState)

  ghost predicate HasBlock(f: Func, b: nat) {
    Contiguous(f.code) && b < |Starts(f)|
  }

  ghost function LastOf(f: Func, b: nat): Located
    requires HasBlock(f, b)
  {
    BlockRange(f, b);
    f.code[Hi(f, b) - 1]
  }

  /** The state that leaves a block along each outgoing edge: fall-through first,
      then the branch. */
  ghost function FlowsFrom(ctx: Context, f: Func, b: nat, out: BlockState): seq<Flow>
    requires HasBlock(f, b) && out.Live?
  {
    var last := LastOf(f, b);
    var next :=
      if !Terminal(last.inst) && b + 1 < |Starts(f)| then [Flow(b + 1, EdgeState(ctx, last.inst, false, out))] else [];
    var taken :=
      if HasTarget(last.inst) then [Flow(BlockAt(f, Target(last)), EdgeState(ctx, last.inst, true, out))] else [];
    next + taken
  }

  /** The blocks control can go to from a block. */
  ghost function Successors(f: Func, b: nat): set<nat>
    requires HasBlock(f, b)
  {
    var last := LastOf(f, b);
    (if !Terminal(last.inst) && b + 1 < |Starts(f)| then {b + 1} else {})
    + (if HasTarget(last.inst) then {BlockAt(f, Target(last))} else {})
  }

  ghost function BlockGraph(f: Func): (g: Graph)
    requires Contiguous(f.code)
    ensures |g| == |Starts(f)|
  {
    seq(|Starts(f)|, b requires 0 <= b < |Starts(f)| => Successors(f, b))
  }

  ghost function Visit(ctx: Context, f: Func, b: nat, s: BlockState): Result<BlockState, FuncError>
    requires HasBlock(f, b) && s.Live?
  {
    BlockRange(f, b);
    Run(ctx, f, Lo(f, b), Hi(f, b), s)
  }

  ghost function FlowPeak(flows: seq<Flow>): nat {
    if flows == [] then 0
    else
      var last := flows[|flows| - 1].state;
      Max(FlowPeak(flows[..|flows| - 1]), if last.Live? then last.operands else 0)
  }

  /** The greatest operand depth a visit of a block sees after its entry. */
  ghost function VisitPeak(ctx: Context, f: Func, b: nat, s: BlockState): nat
    requires HasBlock(f, b) && s.Live?
  {
    BlockRange(f, b);
    var r := Visit(ctx, f, b, s);
    Max(Peak(ctx, f, Lo(f, b), Hi(f, b), s), if r.Ok? then FlowPeak(FlowsFrom(ctx, f, b, r.value)) else 0)
  }

  ghost function Entry(ctx: Context, f: Func): BlockState {
    Live(UnpackArity(ctx, f.sig), seq(f.locals, _ => Invalid), f.upvars)
  }

  /** Every slot the code names exists. */
  ghost predicate SlotsOk(f: Func) {
    forall i :: 0 <= i < |f.code| ==> SlotsInRange(f.locals, f.code[i].inst)
  }

  lemma SyntaxGivesSlots(ctx: Context, f: Func)
    requires Contiguous(f.code) && SyntaxOk(ctx, f)
    ensures SlotsOk(f)
  {
    forall i | 0 <= i < |f.code|
      ensures SlotsInRange(f.locals, f.code[i].inst)
    {
      assert SyntaxFault(ctx, f, f.code[i]) == None;
    }
  }

  lemma {:induction false} RunMonotone(ctx: Context, f: Func, lo: nat, hi: nat, a: BlockState, b: BlockState)
    requires lo <= hi <= |f.code| && SlotsOk(f) && Leq(f.locals, a, b)
    requires Run(ctx, f, lo, hi, b).Ok?
    ensures Run(ctx, f, lo, hi, a).Ok?
    ensures Leq(f.locals, Run(ctx, f, lo, hi, a).value, Run(ctx, f, lo, hi, b).value)
    ensures Peak(ctx, f, lo, hi, a) == Peak(ctx, f, lo, hi, b)
    decreases hi
  {
    if lo < hi {
      RunMonotone(ctx, f, lo, hi - 1, a, b);
      var inst := f.code[hi - 1].inst;
      StepMonotone(ctx, f, f.locals, inst,
                   Run(ctx, f, lo, hi - 1, a).value, Run(ctx, f, lo, hi - 1, b).value);
    }
  }

  // A refused instruction refuses every longer run.
  lemma {:induction false} RunPrefix(ctx: Context, f: Func, lo: nat, mid: nat, hi: nat, s: BlockState)
    requires lo <= mid <= hi <= |f.code| && s.Live?
    ensures Run(ctx, f, lo, mid, s).Err? ==> Run(ctx, f, lo, hi, s) == Run(ctx, f, lo, mid, s)
    decreases hi
  {
    if mid < hi {
      RunPrefix(ctx, f, lo, mid, hi - 1, s);
    }
  }

  lemma FlowsMonotone(ctx: Context, f: Func, b: nat, x: BlockState, y: BlockState)
    requires HasBlock(f, b) && Leq(f.locals, x, y)
    ensures |FlowsFrom(ctx, f, b, x)| == |FlowsFrom(ctx, f, b, y)|
    ensures forall i :: 0 <= i < |FlowsFrom(ctx, f, b, x)| ==>
              && FlowsFrom(ctx, f, b, x)[i].to == FlowsFrom(ctx, f, b, y)[i].to
              && Leq(f.locals, FlowsFrom(ctx, f, b, x)[i].state, FlowsFrom(ctx, f, b, y)[i].state)
    ensures FlowPeak(FlowsFrom(ctx, f, b, x)) == FlowPeak(FlowsFrom(ctx, f, b, y))
  {
    hide Starts, BlockAt, Hi;
    FlowPeakEqual(f.locals, FlowsFrom(ctx, f, b, x), FlowsFrom(ctx, f, b, y));
  }

  lemma {:induction false} FlowPeakEqual(n: nat, x: seq<Flow>, y: seq<Flow>)
    requires |x| == |y|
    requires forall i :: 0 <= i < |x| ==> Leq(n, x[i].state, y[i].state)
    ensures FlowPeak(x) == FlowPeak(y)
  {
    if |x| > 0 {
      FlowPeakEqual(n, x[..|x| - 1], y[..|y| - 1]);
    }
  }
}
