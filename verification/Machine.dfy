/** The machine that runs bytecode (dolang-runtime/src/interp.rs, `step`): call
    frames with an operand stack, optional locals and a stack of upvar records.
    What the machine does with values, the results of native code and the errors
    it raises are left to an oracle; what it must never do is a fault. */
module Machine {

  import opened Results
  import opened Bytecode

  /** A run-time value: plain data, or a closure over records of the given sizes. */
  datatype Val = Plain(id: int) | Closure(func: nat, shape: seq<nat>)

  /** Why a frame is not running: it awaits the result of a call, of the function
      under a non-local guard, or of user code its instruction dispatched to. */
  datatype Waiting = Running | OnCall | OnGuard | OnDispatch

  datatype Frame = Frame(
    func: nat,
    pc: nat,
    operands: seq<Val>,
    locals: seq<Option<Val>>,
    records: seq<nat>,
    waiting: Waiting)

  /** The frames of a run, the innermost last; every closure made so far; and
      whether an error or non-local branch is on its way through the frames. */
  datatype Config = Config(frames: seq<Frame>, made: set<Val>, unwinding: bool)

  /** What the oracle decides: to complete the instruction with some values and a
      branch flag (or, of a frame an error reaches, to catch it), to raise, or to
      dispatch to user code first. */
  datatype Choice =
    | Proceed(values: seq<Val>, flag: bool)
    | Raise
    | Dispatch(callee: Val, values: seq<Val>)

  datatype Outcome = To(next: Config) | Finished | Fault

  // ----- values -----

  predicate Known(made: set<Val>, v: Val) {
    v.Plain? || v in made
  }

  // Closures cannot be forged: the oracle supplies plain values or closures already made.
  function Admit(made: set<Val>, values: seq<Val>, n: nat): (r: seq<Val>)
    ensures |r| == n
    ensures forall i :: 0 <= i < n ==> Known(made, r[i])
  {
    seq(n, i requires 0 <= i < n => if i < |values| && Known(made, values[i]) then values[i] else Plain(0))
  }

  function NewFrame(ctx: Context, func: nat, records: seq<nat>, args: seq<Val>): Frame
    requires func < |ctx.funcs|
  {
    Frame(func, 0, args, seq(ctx.funcs[func].locals, _ => None), records, Running)
  }

  // ----- instructions -----

  datatype Action =
    | Compute(takes: nat, gives: nat)
    | CopyTop
    | CopyOperand(n: nat)
    | SwapOperands(i: nat, j: nat)
    | ReadSlot(slot: nat)
    | WriteSlot(slot: nat)
    | ReadRecord(index: nat, depth: nat)
    | WriteRecord(index: nat, depth: nat)
    | PushRecord(count: nat)
    | PopRecord
    | CaptureRecord(arity: nat, spread: bool)
    | MakeClosure(func: nat)
    | GuardCall(func: nat)
    | Invoke(args: nat)
    | Jump
    | JumpIf(on: bool)
    | Match(arity: nat)
    | Return
    | JumpOut(depth: nat)
    | Complain

  function ActionOf(ctx: Context, inst: Inst): Action {
    match inst
    case Pop => Compute(1, 0)
    case Dup => CopyTop
    case Pick(n) => CopyOperand(n)
    case Swap(i, j) => SwapOperands(i, j)
    case LoadConst(_) => Compute(0, 1)
    case LoadLocal(slot) => ReadSlot(slot)
    case StoreLocal(slot) => WriteSlot(slot)
    case LoadUpvar(index, depth) => ReadRecord(index, depth)
    case StoreUpvar(index, depth) => WriteRecord(index, depth)
    case Get(_) => Compute(1, 1)
    case Set(_) => Compute(2, 0)
    case Index => Compute(2, 1)
    case Assign => Compute(3, 0)
    case PushUpvars(count) => PushRecord(count)
    case PopUpvars => PopRecord
    case Call(pack) => Invoke(PackArity(ctx, pack))
    case MethodCall(_, pack) => Compute(PackArity(ctx, pack) + 1, 1)
    case Builtin(_, pack) => Compute(PackArity(ctx, pack), 1)
    case Neg | Not | BitNot => Compute(1, 1)
    case Add | Sub | Mul | Div | Ediv | Mod | BitAnd | BitOr | BitXor | Shl | Shr | Eq | Ne | Lt | Gt | Lte | Gte =>
      Compute(2, 1)
    case Close(func) => MakeClosure(func)
    case Ret => Return
    case Branch(_) => Jump
    case BranchTrue(_) => JumpIf(true)
    case BranchFalse(_) => JumpIf(false)
    case Reify(pack) => CaptureRecord(PackArity(ctx, pack), PackSpreads(ctx, pack))
    case Next => Compute(1, 2)
    case Unpack(unpack) => Compute(1, UnpackArity(ctx, unpack))
    case UnpackBranch(unpack, _) => Match(UnpackArity(ctx, unpack))
    case ElseFallthrough(_) => Complain
    case NlBranch(depth, _) => JumpOut(depth)
    case NlGuard(func) => GuardCall(func)
  }

  /** Whether an instruction can raise: native code, an operator, a trap at a branch back, or
      the instruction itself, each after noting where it is for a backtrace. */
  predicate CanRaise(inst: Inst) {
    match inst
    case Get(_) | Set(_) | Index | Assign | Call(_) | MethodCall(_, _) | Builtin(_, _) => true
    case Neg | Not | BitNot => true
    case BitAnd | BitOr | BitXor | Shl | Shr | Add | Sub | Mul | Div | Ediv | Mod | Eq | Ne | Lt | Gt | Lte | Gte => true
    case BranchTrue(_) | BranchFalse(_) => true
    case Branch(offset) => offset < 0
    case Next | Unpack(_) | UnpackBranch(_, _) => true
    case ElseFallthrough(_) | NlBranch(_, _) | NlGuard(_) => true
    case _ => false
  }

  /** Whether an instruction can run user code before it completes. */
  predicate Dispatches(inst: Inst) {
    CanRaise(inst) && !inst.NlGuard? && !inst.NlBranch? && !inst.ElseFallthrough?
  }

  /** Every table entry an instruction names exists: the machine indexes its tables
      without a check. */
  predicate InTables(ctx: Context, inst: Inst) {
    match inst
    case LoadConst(id) => id < ctx.constants
    case Get(sym) => sym < ctx.symbols
    case Set(sym) => sym < ctx.symbols
    case Call(pack) => pack < |ctx.packs|
    case MethodCall(sym, pack) => sym < ctx.symbols && pack < |ctx.packs|
    case Builtin(id, pack) => id < BUILTIN_COUNT && pack < |ctx.packs|
    case Reify(pack) => pack < |ctx.packs|
    case Unpack(unpack) => unpack < |ctx.unpacks|
    case UnpackBranch(unpack, _) => unpack < |ctx.unpacks|
    case _ => true
  }

  function Fetch(code: seq<Located>, pc: int): Option<Located> {
    if code == [] then None
    else if code[|code| - 1].before == pc then Some(code[|code| - 1])
    else Fetch(code[..|code| - 1], pc)
  }

  // ----- transitions -----

  function Top(fr: Frame, n: nat): seq<Val>
    requires n <= |fr.operands|
  {
    fr.operands[..|fr.operands| - n]
  }

  // The frame goes on at `pc` with a new operand stack.
  function Go(fr: Frame, pc: int, operands: seq<Val>): Option<Frame> {
    if pc < 0 then None else Some(fr.(pc := pc, operands := operands))
  }

  function RecordAt(fr: Frame, depth: nat): nat
    requires depth < |fr.records|
  {
    fr.records[|fr.records| - 1 - depth]
  }

  /** Instructions that stay within their frame: the frame afterwards, or `None` for
      a fault. */
  function Within(ctx: Context, fr: Frame, at: Located, made: set<Val>, values: seq<Val>, flag: bool): Option<Frame>
    requires fr.func < |ctx.funcs|
  {
    var n := |fr.operands|;
    match ActionOf(ctx, at.inst)
    case Compute(takes, gives) =>
      if n < takes then None else Go(fr, at.after, Top(fr, takes) + Admit(made, values, gives))
    case CopyTop =>
      if n == 0 then None else Go(fr, at.after, fr.operands + [fr.operands[n - 1]])
    case CopyOperand(i) =>
      if i >= n then None else Go(fr, at.after, fr.operands + [fr.operands[n - 1 - i]])
    case SwapOperands(i, j) =>
      if i >= n || j >= n then None
      else
        Go(fr, at.after, fr.operands[n - 1 - i := fr.operands[n - 1 - j]][n - 1 - j := fr.operands[n - 1 - i]])
    case ReadSlot(slot) =>
      if slot >= |fr.locals| || fr.locals[slot].None? then None
      else Go(fr, at.after, fr.operands + [fr.locals[slot].value])
    case WriteSlot(slot) =>
      if n == 0 || slot >= |fr.locals| then None
      else Go(fr.(locals := fr.locals[slot := Some(fr.operands[n - 1])]), at.after, Top(fr, 1))
    case ReadRecord(index, depth) =>
      if depth >= |fr.records| || index >= RecordAt(fr, depth) then None
      else Go(fr, at.after, fr.operands + Admit(made, values, 1))
    case WriteRecord(index, depth) =>
      if n == 0 || depth >= |fr.records| || index >= RecordAt(fr, depth) then None
      else Go(fr, at.after, Top(fr, 1))
    case PushRecord(count) =>
      Go(fr.(records := fr.records + [count]), at.after, fr.operands)
    case PopRecord =>
      // The records a function was entered with are not its to remove.
      if |fr.records| <= |ctx.funcs[fr.func].upvars| then None
      else Go(fr.(records := fr.records[..|fr.records| - 1]), at.after, fr.operands)
    case CaptureRecord(arity, spread) =>
      // A module's names must all be known; a spread has none.
      if spread || |fr.records| <= |ctx.funcs[fr.func].upvars| || RecordAt(fr, 0) != arity then None
      else
        Go(fr.(records := fr.records[..|fr.records| - 1]), at.after, fr.operands + Admit(made, values, 1))
    case Jump => if !HasTarget(at.inst) then None else Go(fr, Target(at), fr.operands)
    case JumpIf(on) =>
      if n == 0 || !HasTarget(at.inst) then None
      else Go(fr, if on == flag then Target(at) else at.after, Top(fr, 1))
    case Match(arity) =>
      if n == 0 || !HasTarget(at.inst) then None
      else if flag then Go(fr, at.after, Top(fr, 1) + Admit(made, values, arity))
      else Go(fr, Target(at), Top(fr, 1))
    case _ => None
  }

  /** A closure has exactly the shape its function declares. */
  predicate WellShaped(ctx: Context, v: Val) {
    v.Closure? && v.func < |ctx.funcs| && v.shape == ctx.funcs[v.func].upvars
  }

  // Runs a closure in a new frame above `frames`.
  function Enter(ctx: Context, frames: seq<Frame>, callee: Val, made: set<Val>, values: seq<Val>): Outcome {
    if WellShaped(ctx, callee) then
      var args := Admit(made, values, UnpackArity(ctx, ctx.funcs[callee.func].sig));
      To(Config(frames + [NewFrame(ctx, callee.func, callee.shape, args)], made, false))
    else Fault
  }

  // Hands a returned value to the frame that awaits it.
  function Deliver(frames: seq<Frame>, v: Val, made: set<Val>): Outcome {
    if frames == [] then Finished
    else
      var top, below := frames[|frames| - 1], frames[..|frames| - 1];
      match top.waiting
      case Running => Fault
      case OnCall => To(Config(below + [top.(operands := top.operands + [v], waiting := Running)], made, false))
      case OnDispatch => To(Config(below + [top.(waiting := Running)], made, false))
      case OnGuard =>
        if top.records == [] then Fault
        else
          To(Config(below + [top.(operands := top.operands + [v, Plain(0)],
                                  records := top.records[..|top.records| - 1], waiting := Running)], made, false))
  }

  // An error or non-local branch reaches a frame: native code or the guard catches it, or it goes on.
  function Unwind(below: seq<Frame>, top: Frame, made: set<Val>, ch: Choice): Outcome {
    if ch.Proceed? && top.waiting == OnDispatch then
      To(Config(below + [top.(waiting := Running)], made, false))
    else if ch.Proceed? && top.waiting == OnGuard then
      if top.records == [] then Fault
      else
        To(Config(below + [top.(operands := top.operands + [Plain(0), Plain(1)],
                                records := top.records[..|top.records| - 1], waiting := Running)], made, false))
    else To(Config(below, made, true))
  }

  function Perform(ctx: Context, below: seq<Frame>, fr: Frame, at: Located, made: set<Val>,
                   values: seq<Val>, flag: bool): Outcome
    requires fr.func < |ctx.funcs|
  {
    var n := |fr.operands|;
    match ActionOf(ctx, at.inst)
    case MakeClosure(func) =>
      var closure := Closure(func, fr.records);
      if !WellShaped(ctx, closure) then Fault
      else
        To(Config(below + [fr.(pc := at.after, operands := fr.operands + [closure])], made + {closure}, false))
    case GuardCall(func) =>
      var closure := Closure(func, fr.records + [0]);
      if !WellShaped(ctx, closure) then Fault
      else
        Enter(ctx, below + [fr.(pc := at.after, records := fr.records + [0], waiting := OnGuard)],
              closure, made + {closure}, values)
    case Invoke(args) =>
      if n <= args then Fault
      else
        var callee := fr.operands[n - 1 - args];
        if callee.Closure? then
          Enter(ctx, below + [fr.(pc := at.after, operands := Top(fr, args + 1), waiting := OnCall)],
                callee, made, values)
        else
          To(Config(below + [fr.(pc := at.after, operands := Top(fr, args + 1) + Admit(made, values, 1))],
                    made, false))
    case Return =>
      if n != 1 || fr.records != ctx.funcs[fr.func].upvars then Fault else Deliver(below, fr.operands[0], made)
    case JumpOut(depth) =>
      if depth >= |fr.records| then Fault else To(Config(below, made, true))
    case Complain => To(Config(below, made, true))
    case _ =>
      var after := Within(ctx, fr, at, made, values, flag);
      if after.None? then Fault else To(Config(below + [after.value], made, false))
  }

  function Exec(ctx: Context, c: Config, ch: Choice): Outcome {
    if c.frames == [] then Finished
    else
      var fr, below := c.frames[|c.frames| - 1], c.frames[..|c.frames| - 1];
      if c.unwinding then Unwind(below, fr, c.made, ch)
      else if fr.func >= |ctx.funcs| || fr.waiting != Running then Fault
      else
        match Fetch(ctx.funcs[fr.func].code, fr.pc)
        case None => Fault
        case Some(at) =>
          if !InTables(ctx, at.inst) then Fault
          else if ch.Raise? && CanRaise(at.inst) then To(Config(below, c.made, true))
          else if ch.Dispatch? && Dispatches(at.inst) && ch.callee.Closure? && ch.callee in c.made then
            Enter(ctx, below + [fr.(waiting := OnDispatch)], ch.callee, c.made, ch.values)
          else
            var values := if ch.Raise? then [] else ch.values;
            Perform(ctx, below, fr, at, c.made, values, ch.Proceed? && ch.flag)
  }

  /** A run under a list of choices, until it finishes or faults. */
  function Run(ctx: Context, c: Config, choices: seq<Choice>): Outcome
    decreases |choices|
  {
    if choices == [] then To(c)
    else
      match Exec(ctx, c, choices[0])
      case To(next) => Run(ctx, next, choices[1..])
      case Finished => Finished
      case Fault => Fault
  }

  /** A program starts in function 0, without arguments and over no records. */
  function Start(ctx: Context): Config
    requires |ctx.funcs| > 0
  {
    Config([NewFrame(ctx, 0, [], [])], {}, false)
  }
}
