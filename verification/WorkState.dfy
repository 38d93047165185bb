/** The state the verifier updates in place while it steps over a block
    (dolang-bytecode/src/verify.rs, `pop`, `push` and `step`). */
module WorkStates {

  import opened Results
  import opened Bytecode
  import T = Transfer

  /** Counts summed as the verifier does, never past the largest machine word. */
  method SaturatingSum(counts: seq<nat>) returns (acc: nat)
    ensures acc == if Sum(counts) > USIZE_MAX then USIZE_MAX else Sum(counts)
  {
    acc := 0;
    for i := 0 to |counts|
      invariant acc == if Sum(counts[..i]) > USIZE_MAX then USIZE_MAX else Sum(counts[..i])
    {
      assert counts[..i + 1][..i] == counts[..i];
      acc := if acc + counts[i] > USIZE_MAX then USIZE_MAX else acc + counts[i];
    }
    assert counts[..|counts|] == counts;
  }

  /** What a step reports and leaves behind agrees with the step function. */
  ghost predicate Agrees(step: T.FlowResult, after: BlockState, error: Option<T.InstError>) {
    match step
    case Ok(expected) => error == None && after == expected
    case Err(e) => error == Some(e)
  }

  class WorkState {
    var operands: nat
    var locals: seq<LocalState>
    var upvars: seq<nat>

    constructor (s: BlockState)
      requires s.Live?
      ensures View() == s
    {
      operands, locals, upvars := s.operands, s.locals, s.upvars;
    }

    ghost function View(): (s: BlockState)
      reads this
      ensures s.Live?
    {
      Live(operands, locals, upvars)
    }

    function Snapshot(): (s: BlockState)
      reads this
      ensures s == View()
    {
      Live(operands, locals, upvars)
    }

    method Pop() returns (error: Option<T.InstError>)
      modifies this`operands
      ensures old(operands) == 0 ==> error == Some(T.OperandUnderflow)
      ensures old(operands) > 0 ==> error == None && operands == old(operands) - 1
    {
      if operands == 0 {
        return Some(T.OperandUnderflow);
      }
      operands := operands - 1;
      return None;
    }

    method Push()
      modifies this`operands
      ensures operands == old(operands) + 1
    {
      operands := operands + 1;
    }

    method PopMany(n: nat) returns (error: Option<T.InstError>)
      modifies this`operands
      ensures old(operands) < n ==> error == Some(T.OperandUnderflow)
      ensures old(operands) >= n ==> error == None && operands == old(operands) - n
    {
      for i := 0 to n
        invariant old(operands) >= i && operands == old(operands) - i
      {
        error := Pop();
        if error.Some? {
          return;
        }
      }
      return None;
    }

    method PushMany(n: nat)
      modifies this`operands
      ensures operands == old(operands) + n
    {
      for i := 0 to n
        invariant operands == old(operands) + i
      {
        Push();
      }
    }

    // Pops, then pushes, as most instructions do.
    method Exchange(ctx: Context, f: Func, pops: nat, pushes: nat) returns (error: Option<T.InstError>)
      modifies this
      ensures Agrees(T.Apply(ctx, f, T.Stack(pops, pushes), old(View())), View(), error)
    {
      error := PopMany(pops);
      if error == None {
        PushMany(pushes);
      }
    }

    method PickOperand(ctx: Context, f: Func, n: nat) returns (error: Option<T.InstError>)
      modifies this
      ensures Agrees(T.Apply(ctx, f, T.Peek(n), old(View())), View(), error)
    {
      if n >= operands {
        return Some(T.OperandIndexOutOfBounds(n));
      }
      Push();
      return None;
    }

    method SwapOperands(ctx: Context, f: Func, i: nat, j: nat) returns (error: Option<T.InstError>)
      ensures Agrees(T.Apply(ctx, f, T.Exchange(i, j), old(View())), View(), error)
    {
      if i >= operands {
        return Some(T.OperandIndexOutOfBounds(i));
      }
      return if j >= operands then Some(T.OperandIndexOutOfBounds(j)) else None;
    }

    method LoadSlot(ctx: Context, f: Func, slot: nat) returns (error: Option<T.InstError>)
      modifies this
      ensures Agrees(T.Apply(ctx, f, T.ReadLocal(slot), old(View())), View(), error)
    {
      if slot >= |locals| {
        return Some(T.LocalListTooShort);
      }
      if locals[slot] == Invalid {
        return Some(T.LocalLoadUninitialized);
      }
      Push();
      return None;
    }

    method StoreSlot(ctx: Context, f: Func, slot: nat) returns (error: Option<T.InstError>)
      modifies this
      ensures Agrees(T.Apply(ctx, f, T.WriteLocal(slot), old(View())), View(), error)
    {
      error := Pop();
      if error.Some? {
        return;
      }
      if slot >= |locals| {
        return Some(T.LocalListTooShort);
      }
      locals := locals[slot := Value];
      return None;
    }

    method CheckUpvar(index: nat, depth: nat) returns (error: Option<T.InstError>)
      ensures error == T.CheckUpvar(View(), index, depth)
    {
      if depth >= |upvars| {
        return Some(T.UpvarDepthOutOfBounds);
      }
      if index >= upvars[|upvars| - 1 - depth] {
        return Some(T.UpvarIndexOutOfBounds);
      }
      return None;
    }

    method LoadRecord(ctx: Context, f: Func, index: nat, depth: nat) returns (error: Option<T.InstError>)
      modifies this
      ensures Agrees(T.Apply(ctx, f, T.ReadUpvar(index, depth), old(View())), View(), error)
    {
      error := CheckUpvar(index, depth);
      if error == None {
        Push();
      }
    }

    method StoreRecord(ctx: Context, f: Func, index: nat, depth: nat) returns (error: Option<T.InstError>)
      modifies this
      ensures Agrees(T.Apply(ctx, f, T.WriteUpvar(index, depth), old(View())), View(), error)
    {
      error := CheckUpvar(index, depth);
      if error == None {
        error := Pop();
      }
    }

    method OpenRecord(ctx: Context, f: Func, count: nat) returns (error: Option<T.InstError>)
      modifies this
      ensures Agrees(T.Apply(ctx, f, T.OpenRecord(count), old(View())), View(), error)
    {
      upvars := upvars + [count];
      var total := SaturatingSum(upvars);
      return if total > UPVAR_TOTAL then Some(T.UpvarPushExceedsLimit) else None;
    }

    method DropRecord(ctx: Context, f: Func) returns (error: Option<T.InstError>)
      modifies this
      ensures Agrees(T.Apply(ctx, f, T.DropRecord, old(View())), View(), error)
    {
      if |upvars| == |f.upvars| {
        return Some(T.UpvarUnderflow);
      }
      upvars := if |upvars| == 0 then [] else upvars[..|upvars| - 1];
      return None;
    }

    method ReifyRecord(ctx: Context, f: Func, arity: nat) returns (error: Option<T.InstError>)
      modifies this
      ensures Agrees(T.Apply(ctx, f, T.ReifyRecord(arity), old(View())), View(), error)
    {
      if |upvars| == |f.upvars| || |upvars| == 0 {
        return Some(T.UpvarUnderflow);
      }
      var count := upvars[|upvars| - 1];
      upvars := upvars[..|upvars| - 1];
      if count != arity {
        return Some(T.ReifyMismatch(count, arity));
      }
      Push();
      return None;
    }

    method MakeClosure(ctx: Context, f: Func, func: nat) returns (error: Option<T.InstError>)
      modifies this
      ensures Agrees(T.Apply(ctx, f, T.MakeClosure(func), old(View())), View(), error)
    {
      if func >= |ctx.funcs| {
        return Some(T.FuncIndexOutOfBounds);
      }
      if ctx.funcs[func].upvars != upvars {
        return Some(T.UpvarSigMismatch);
      }
      Push();
      return None;
    }

    method RunGuarded(ctx: Context, f: Func, func: nat) returns (error: Option<T.InstError>)
      modifies this
      ensures Agrees(T.Apply(ctx, f, T.RunGuarded(func), old(View())), View(), error)
    {
      if func >= |ctx.funcs| {
        return Some(T.FuncIndexOutOfBounds);
      }
      upvars := upvars + [0];
      if ctx.funcs[func].upvars != upvars {
        return Some(T.UpvarSigMismatch);
      }
      upvars := upvars[..|upvars| - 1];
      assert upvars == old(upvars);
      Push();
      Push();
      return None;
    }

    method JumpOut(ctx: Context, f: Func, depth: nat) returns (error: Option<T.InstError>)
      ensures Agrees(T.Apply(ctx, f, T.JumpOut(depth), old(View())), View(), error)
    {
      return if depth >= |upvars| then Some(T.UpvarDepthOutOfBounds) else None;
    }

    method Leave(ctx: Context, f: Func) returns (error: Option<T.InstError>)
      modifies this
      ensures Agrees(T.Apply(ctx, f, T.Leave, old(View())), View(), error)
    {
      error := Pop();
      if error.Some? {
        return;
      }
      if operands != 0 {
        return Some(T.ReturnWithExcessOperands);
      }
      return if |upvars| != |f.upvars| then Some(T.ReturnWithExcessUpvars) else None;
    }

    /** One instruction: refused exactly when the step function refuses it, and
        otherwise leaving exactly the state it gives. */
    method Step(ctx: Context, f: Func, inst: Inst) returns (error: Option<T.InstError>)
      modifies this
      ensures Agrees(T.Step(ctx, f, inst, old(View())), View(), error)
    {
      hide T.EffectOf, T.Apply, Agrees;
      match T.EffectOf(ctx, inst)
      case Stack(pops, pushes) => error := Exchange(ctx, f, pops, pushes);
      case Peek(n) => error := PickOperand(ctx, f, n);
      case Exchange(i, j) => error := SwapOperands(ctx, f, i, j);
      case ReadLocal(slot) => error := LoadSlot(ctx, f, slot);
      case WriteLocal(slot) => error := StoreSlot(ctx, f, slot);
      case ReadUpvar(index, depth) => error := LoadRecord(ctx, f, index, depth);
      case WriteUpvar(index, depth) => error := StoreRecord(ctx, f, index, depth);
      case OpenRecord(count) => error := OpenRecord(ctx, f, count);
      case DropRecord => error := DropRecord(ctx, f);
      case ReifyRecord(arity) => error := ReifyRecord(ctx, f, arity);
      case MakeClosure(func) => error := MakeClosure(ctx, f, func);
      case RunGuarded(func) => error := RunGuarded(ctx, f, func);
      case JumpOut(depth) => error := JumpOut(ctx, f, depth);
      case Leave => error := Leave(ctx, f);
    }
  }
}
