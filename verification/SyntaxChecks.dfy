/** What the syntax pass refuses, told by what the machine would do: an entry outside its
    table, a slot the function does not have, a target outside the code
    (dolang-bytecode/src/verify.rs, `syntax`). */
module SyntaxChecks {

  import opened Results
  import opened Bytecode
  import opened Transfer
  import opened Blocks
  import M = Machine

  /** The function an instruction makes a closure of exists. */
  predicate FuncInRange(ctx: Context, inst: Inst) {
    inst.Close? || inst.NlGuard? ==> inst.func < |ctx.funcs|
  }

  /** These are the functions the machine makes closures of. */
  lemma FuncsMade(ctx: Context, inst: Inst)
    ensures var action := M.ActionOf(ctx, inst);
            FuncInRange(ctx, inst) <==> (action.MakeClosure? || action.GuardCall? ==> action.func < |ctx.funcs|)
  {
  }

  /** A branch stays within the code. */
  predicate TargetInside(f: Func, at: Located) {
    HasTarget(at.inst) ==> 0 <= at.after + at.inst.offset < CodeLength(f)
  }

  /** Only `let` and `bind` have an else block to fall through. */
  predicate ElseKindKnown(inst: Inst) {
    inst.ElseFallthrough? ==> inst.kind == 0 || inst.kind == 1
  }

  predicate SwapsTwo(inst: Inst) {
    inst.Swap? ==> inst.i != inst.j
  }

  /** An instruction that passes the syntax pass names entries inside the tables only. */
  lemma SyntaxGivesTables(ctx: Context, f: Func, at: Located)
    requires SyntaxFault(ctx, f, at) == None
    ensures M.InTables(ctx, at.inst)
  {
  }

  /** An instruction passes exactly if all it names exists, a swap moves something, and the
      kind of an else block is known. */
  lemma SyntaxPassesWhen(ctx: Context, f: Func, at: Located)
    ensures SyntaxFault(ctx, f, at) == None <==>
              && M.InTables(ctx, at.inst)
              && SlotsInRange(f.locals, at.inst)
              && FuncInRange(ctx, at.inst)
              && TargetInside(f, at)
              && SwapsTwo(at.inst)
              && ElseKindKnown(at.inst)
  {
  }

  predicate SymbolMissing(ctx: Context, inst: Inst) {
    (inst.Get? || inst.Set? || inst.MethodCall?) && inst.sym >= ctx.symbols
  }

  predicate BuiltinMissing(inst: Inst) {
    inst.Builtin? && inst.id >= BUILTIN_COUNT
  }

  predicate PackMissing(ctx: Context, inst: Inst) {
    (inst.Call? || inst.MethodCall? || inst.Builtin? || inst.Reify?) && inst.pack >= |ctx.packs|
  }

  predicate UnpackMissing(ctx: Context, inst: Inst) {
    (inst.Unpack? || inst.UnpackBranch?) && inst.unpack >= |ctx.unpacks|
  }

  /** What is wrong with an instruction, by the error it is refused with: of several faults
      the table entry is reported first, and of two entries the symbol or builtin. */
  predicate Blames(ctx: Context, f: Func, at: Located, error: InstError) {
    match error
    case NoOpSwap => !SwapsTwo(at.inst)
    case ConstIndexOutOfBounds => at.inst.LoadConst? && at.inst.id >= ctx.constants
    case SymIndexOutOfBounds => SymbolMissing(ctx, at.inst)
    case BuiltinIndexOutOfBounds => BuiltinMissing(at.inst)
    case PackIndexOutOfBounds =>
      PackMissing(ctx, at.inst) && !SymbolMissing(ctx, at.inst) && !BuiltinMissing(at.inst)
    case UnpackIndexOutOfBounds => UnpackMissing(ctx, at.inst)
    case LocalIndexOutOfBounds => !SlotsInRange(f.locals, at.inst)
    case FuncIndexOutOfBounds => !FuncInRange(ctx, at.inst)
    case BranchTargetOutOfBounds => !TargetInside(f, at) && !UnpackMissing(ctx, at.inst)
    case InvalidElseKind => !ElseKindKnown(at.inst)
    case _ => false
  }

  /** The error names what is wrong, and nothing wrong goes without one. */
  lemma SyntaxBlames(ctx: Context, f: Func, at: Located, error: InstError)
    ensures SyntaxFault(ctx, f, at) == Some(error) <==> Blames(ctx, f, at, error)
  {
    if SyntaxFault(ctx, f, at).Some? {
      FaultBlames(ctx, f, at);
    } else {
      SyntaxPassesWhen(ctx, f, at);
    }
    hide SyntaxFault;
    if Blames(ctx, f, at, error) && SyntaxFault(ctx, f, at).Some? {
      OneBlame(ctx, f, at, error, SyntaxFault(ctx, f, at).value);
    }
  }

  lemma FaultBlames(ctx: Context, f: Func, at: Located)
    requires SyntaxFault(ctx, f, at).Some?
    ensures Blames(ctx, f, at, SyntaxFault(ctx, f, at).value)
  {
  }

  lemma OneBlame(ctx: Context, f: Func, at: Located, error: InstError, other: InstError)
    requires Blames(ctx, f, at, error) && Blames(ctx, f, at, other)
    ensures error == other
  {
  }
}
