/** How the interpreter reads an instruction at its program counter (dolang-bytecode/src/lib.rs,
    `UnsafeInstDecoder`; dolang-runtime/src/interp.rs, `step`): without checks, and on its own,
    yet what it reads is what the verifier decoded. */
module Readers {

  import opened Results
  import opened Bytecode
  import opened Varint
  import opened InstCodec
  import opened ProgramSafety
  import M = Machine

  const LAST_OPCODE: byte := 50

  /** The opcodes in the order they are declared, from 1, each by some instruction that has it. */
  function FormOf(op: byte): Inst {
    match op
    case 1 => Add
    case 2 => Call(0)
    case 3 => MethodCall(0, 0)
    case 4 => Builtin(0, 0)
    case 5 => Div
    case 6 => Ediv
    case 7 => Dup
    case 8 => Pick(0)
    case 9 => Swap(0, 0)
    case 10 => LoadConst(0)
    case 11 => LoadLocal(0)
    case 12 => LoadUpvar(0, 0)
    case 13 => Get(0)
    case 14 => Set(0)
    case 15 => Index
    case 16 => Assign
    case 17 => Mod
    case 18 => Mul
    case 19 => Neg
    case 20 => Not
    case 21 => BitNot
    case 22 => BitAnd
    case 23 => BitOr
    case 24 => BitXor
    case 25 => Pop
    case 26 => Eq
    case 27 => Ne
    case 28 => Gt
    case 29 => Lt
    case 30 => Gte
    case 31 => Lte
    case 32 => StoreLocal(0)
    case 33 => StoreUpvar(0, 0)
    case 34 => Sub
    case 35 => PushUpvars(0)
    case 36 => PopUpvars
    case 37 => Close(0)
    case 38 => Ret
    case 39 => Branch(0)
    case 40 => BranchTrue(0)
    case 41 => BranchFalse(0)
    case 42 => Reify(0)
    case 43 => Next
    case 44 => Unpack(0)
    case 45 => NlGuard(0)
    case 46 => NlBranch(0, 0)
    case 47 => Shl
    case 48 => Shr
    case 49 => UnpackBranch(0, 0)
    case _ => ElseFallthrough(0)
  }

  /** An unsigned operand; `None` is a read past the end, which the interpreter does not notice. */
  function ReadUvar(input: seq<byte>, pos: nat): Option<Read> {
    if pos < |input| && pos + 1 + TrailingZeros(input[pos]) <= |input| then Some(DecodeUnchecked(input, pos)) else None
  }

  predicate ReadsOne(form: Inst) {
    || form.Call? || form.Pick? || form.LoadConst? || form.LoadLocal? || form.Get? || form.Set? || form.StoreLocal?
    || form.PushUpvars? || form.Close? || form.Branch? || form.BranchTrue? || form.BranchFalse? || form.Reify?
    || form.Unpack? || form.NlGuard? || form.ElseFallthrough?
  }

  predicate ReadsTwo(form: Inst) {
    || form.MethodCall? || form.Builtin? || form.Swap? || form.LoadUpvar? || form.StoreUpvar? || form.NlBranch?
    || form.UnpackBranch?
  }

  /** What the interpreter makes of the one operand of an opcode. */
  function WithOne(form: Inst, first: nat): Inst {
    match form
    case Call(_) => Call(pack := first)
    case Pick(_) => Pick(n := first)
    case LoadConst(_) => LoadConst(id := first)
    case LoadLocal(_) => LoadLocal(slot := first)
    case Get(_) => Get(sym := first)
    case Set(_) => Set(sym := first)
    case StoreLocal(_) => StoreLocal(slot := first)
    case PushUpvars(_) => PushUpvars(count := first)
    case Close(_) => Close(func := first)
    case Branch(_) => Branch(offset := Zig(first))
    case BranchTrue(_) => BranchTrue(offset := Zig(first))
    case BranchFalse(_) => BranchFalse(offset := Zig(first))
    case Reify(_) => Reify(pack := first)
    case Unpack(_) => Unpack(unpack := first)
    case NlGuard(_) => NlGuard(func := first)
    case ElseFallthrough(_) => ElseFallthrough(kind := first)
    case _ => form
  }

  /** What the interpreter makes of two operands, in the order it reads them. */
  function WithTwo(form: Inst, first: nat, second: nat): Inst {
    match form
    case MethodCall(_, _) => MethodCall(sym := first, pack := second)
    case Builtin(_, _) => Builtin(id := first, pack := second)
    case Swap(_, _) => Swap(i := first, j := second)
    case LoadUpvar(_, _) => LoadUpvar(index := first, depth := second)
    case StoreUpvar(_, _) => StoreUpvar(index := first, depth := second)
    case NlBranch(_, _) => NlBranch(depth := first, indicator := second)
    case UnpackBranch(_, _) => UnpackBranch(unpack := first, offset := Zig(second))
    case _ => form
  }

  /** The instruction read at a position, and where the next one is read; `None` where the
      reading is undefined. */
  function ReadInst(input: seq<byte>, pos: nat): Option<Located> {
    if pos >= |input| || input[pos] == 0 || input[pos] > LAST_OPCODE then None
    else
      var form := FormOf(input[pos]);
      if ReadsOne(form) then
        match ReadUvar(input, pos + 1)
        case None => None
        case Some(one) => Some(Located(pos, WithOne(form, one.value), one.next))
      else if ReadsTwo(form) then
        match ReadUvar(input, pos + 1)
        case None => None
        case Some(one) =>
          match ReadUvar(input, one.next)
          case None => None
          case Some(two) => Some(Located(pos, WithTwo(form, one.value, two.value), two.next))
      else Some(Located(pos, form, pos + 1))
  }

  lemma ReadUvarAgrees(input: seq<byte>, pos: nat)
    ensures ReadUvar(input, pos) == DecodeUvar(input, pos)
  {
    if pos < |input| {
      DecodersAgree(input, pos);
    }
  }

  lemma BareForms(op: byte)
    requires OperandCount(op) == Some(0)
    ensures 1 <= op <= LAST_OPCODE
    ensures var form := FormOf(op); !ReadsOne(form) && !ReadsTwo(form) && form == Build0(op)
  {
  }

  lemma SingleForms(op: byte, first: nat)
    requires OperandCount(op) == Some(1)
    ensures 1 <= op <= LAST_OPCODE
    ensures var form := FormOf(op); ReadsOne(form) && WithOne(form, first) == Build1(op, first)
  {
  }

  lemma DoubleForms(op: byte, first: nat, second: nat)
    requires OperandCount(op) == Some(2)
    ensures 1 <= op <= LAST_OPCODE
    ensures var form := FormOf(op);
            !ReadsOne(form) && ReadsTwo(form) && WithTwo(form, first, second) == Build2(op, first, second)
  {
  }

  /** Wherever the verifier decodes an instruction, the interpreter's reading is defined, and
      reads the same instruction and the same end. */
  lemma ReaderAgrees(input: seq<byte>, pos: nat, at: Located)
    requires DecodeInst(input, pos) == Some(Ok(at))
    ensures ReadInst(input, pos) == Some(at)
  {
    hide ReadUvar, DecodeUvar, OperandCount, Build0, Build1, Build2, WithOne, WithTwo, ReadsOne, ReadsTwo, FormOf;
    var op := input[pos];
    var n := OperandCount(op).value;
    ReadUvarAgrees(input, pos + 1);
    if n == 0 {
      BareForms(op);
    } else if n == 1 {
      var one := DecodeUvar(input, pos + 1).value;
      assert DecodeArgs(input, one.next, 0) == Ok(Args([], one.next));
      SingleForms(op, one.value);
    } else {
      CountsUpToTwo(op);
      var one := DecodeUvar(input, pos + 1).value;
      ReadUvarAgrees(input, one.next);
      var two := DecodeUvar(input, one.next).value;
      assert DecodeArgs(input, two.next, 0) == Ok(Args([], two.next));
      assert [two.value] + [] == [two.value] && [one.value] + [two.value] == [one.value, two.value];
      assert DecodeArgs(input, one.next, 1) == Ok(Args([two.value], two.next));
      DoubleForms(op, one.value, two.value);
    }
  }

  lemma CountsUpToTwo(op: byte)
    ensures OperandCount(op).Some? ==> OperandCount(op).value <= 2
  {
  }

  /** So wherever the machine is in code that was decoded, the interpreter reads from the bytes
      what the machine performs. */
  lemma {:induction false} FetchedIsRead(input: seq<byte>, code: seq<Located>, pc: int, at: Located)
    requires |input| > 0 && DecodeFrom(input, 0) == Ok(code) && M.Fetch(code, pc) == Some(at)
    ensures pc == at.before && ReadInst(input, at.before) == Some(at)
  {
    hide DecodeInst, ReadInst, M.Fetch;
    FetchedFrom(code, pc);
    var k: nat :| k < |code| && code[k] == at && code[k].before == pc;
    SuffixDecodes(input, 0, k);
    assert code[k..][0] == at;
    ReaderAgrees(input, at.before, at);
  }
}
