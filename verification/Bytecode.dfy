/** The instruction set, function table entries and limits of the bytecode
    format (dolang-bytecode/src/lib.rs). */
module Bytecode {

  import opened Results

  const UPVAR_TOTAL: nat := 4096
  const FUNC_FRAME_SLOTS: nat := 65536
  const USIZE_MAX: nat := 0xFFFF_FFFF_FFFF_FFFF
  const BUILTIN_COUNT: nat := 21

  /** A decoded instruction. Branch displacements count from the end of the
      branch instruction. */
  datatype Inst =
    | Add
    | Call(pack: nat)
    | MethodCall(sym: nat, pack: nat)
    | Builtin(id: nat, pack: nat)
    | Div
    | Ediv
    | Dup
    | Pick(n: nat)
    | Swap(i: nat, j: nat)
    | LoadConst(id: nat)
    | LoadLocal(slot: nat)
    | LoadUpvar(index: nat, depth: nat)
    | Get(sym: nat)
    | Set(sym: nat)
    | Index
    | Assign
    | Mod
    | Mul
    | Neg
    | Not
    | BitNot
    | BitAnd
    | BitOr
    | BitXor
    | Pop
    | Eq
    | Ne
    | Gt
    | Lt
    | Gte
    | Lte
    | StoreLocal(slot: nat)
    | StoreUpvar(index: nat, depth: nat)
    | Sub
    | PushUpvars(count: nat)
    | PopUpvars
    | Close(func: nat)
    | Ret
    | Branch(offset: int)
    | BranchTrue(offset: int)
    | BranchFalse(offset: int)
    | Reify(pack: nat)
    | Next
    | Unpack(unpack: nat)
    | NlGuard(func: nat)
    | NlBranch(depth: nat, indicator: nat)
    | Shl
    | Shr
    | UnpackBranch(unpack: nat, offset: int)
    | ElseFallthrough(kind: nat)

  /** A decoded instruction with the byte offsets of its two ends. */
  datatype Located = Located(before: nat, inst: Inst, after: nat)

  /** What the decoder yields for non-empty bytecode: instructions laid end to
      end from offset 0. */
  ghost predicate Contiguous(code: seq<Located>) {
    && |code| > 0
    && code[0].before == 0
    && (forall i :: 0 <= i < |code| ==> code[i].before < code[i].after)
    && (forall i :: 0 < i < |code| ==> code[i].before == code[i - 1].after)
  }

  datatype Func = Func(sig: nat, locals: nat, upvars: seq<nat>, code: seq<Located>)

  /** The arguments of a call: how many there are, and whether one of them spreads. */
  datatype Pack = Pack(arity: nat, spread: bool)

  /** The tables a function is verified against: the function table, the packs, the
      arity of each unpack signature, and the sizes of the symbol and constant tables. */
  datatype Context = Context(
    funcs: seq<Func>,
    packs: seq<Pack>,
    unpacks: seq<nat>,
    symbols: nat,
    constants: nat)

  // Verified code names no entry outside its tables.
  function PackArity(ctx: Context, pack: nat): nat {
    if pack < |ctx.packs| then ctx.packs[pack].arity else 0
  }

  predicate PackSpreads(ctx: Context, pack: nat) {
    pack < |ctx.packs| && ctx.packs[pack].spread
  }

  function UnpackArity(ctx: Context, unpack: nat): nat {
    if unpack < |ctx.unpacks| then ctx.unpacks[unpack] else 0
  }

  predicate HasTarget(inst: Inst) {
    inst.Branch? || inst.BranchTrue? || inst.BranchFalse? || inst.UnpackBranch?
  }

  /** Where a branch goes. */
  function Target(at: Located): int
    requires HasTarget(at.inst)
  {
    at.after + at.inst.offset
  }

  /** Whether an instruction can end up in a backtrace. */
  predicate Raises(inst: Inst) {
    match inst
    case Branch(offset) => offset < 0
    case Dup | Pick(_) | Swap(_, _) | Pop => false
    case LoadConst(_) | LoadLocal(_) | LoadUpvar(_, _) | StoreLocal(_) | StoreUpvar(_, _) => false
    case PushUpvars(_) | PopUpvars | Close(_) | Reify(_) | Ret => false
    case _ => true
  }

  /** What the file-level checks establish before a function is verified. */
  ghost predicate FileChecked(ctx: Context, f: Func) {
    Contiguous(f.code) && f.sig < |ctx.unpacks|
  }

  datatype LocalState = Invalid | Value

  /** The data flow state at a point of a function. `Neutral` is the state whose
      operand depth is the sentinel `usize::MAX`. */
  datatype BlockState =
    | Neutral(locals: seq<LocalState>, upvars: seq<nat>)
    | Live(operands: nat, locals: seq<LocalState>, upvars: seq<nat>)

  datatype Certificate = Certificate(maxOperandDepth: nat, blocks: seq<(nat, BlockState)>)

  // Instruction offsets increase along the code, so an offset names at most one instruction.
  lemma OffsetsIncrease(code: seq<Located>, i: nat, j: nat)
    requires Contiguous(code)
    requires i < j < |code|
    ensures code[i].after <= code[j].before
    decreases j - i
  {
    if i + 1 < j {
      OffsetsIncrease(code, i, j - 1);
    }
  }
}
