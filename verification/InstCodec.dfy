/** The byte encoding of instructions (dolang-bytecode/src/lib.rs, `Inst::write`,
    `InstDecoder` and `WithOffsets`): an opcode, then variable-length operands. */
module InstCodec {

  import opened Results
  import opened Bytecode
  import opened Varint

  datatype DecError = InvalidOpcode(offset: nat) | Truncated(offset: nat)

  function Opcode(inst: Inst): byte {
    match inst
    case Add => 1
    case Call(_) => 2
    case MethodCall(_, _) => 3
    case Builtin(_, _) => 4
    case Div => 5
    case Ediv => 6
    case Dup => 7
    case Pick(_) => 8
    case Swap(_, _) => 9
    case LoadConst(_) => 10
    case LoadLocal(_) => 11
    case LoadUpvar(_, _) => 12
    case Get(_) => 13
    case Set(_) => 14
    case Index => 15
    case Assign => 16
    case Mod => 17
    case Mul => 18
    case Neg => 19
    case Not => 20
    case BitNot => 21
    case BitAnd => 22
    case BitOr => 23
    case BitXor => 24
    case Pop => 25
    case Eq => 26
    case Ne => 27
    case Gt => 28
    case Lt => 29
    case Gte => 30
    case Lte => 31
    case StoreLocal(_) => 32
    case StoreUpvar(_, _) => 33
    case Sub => 34
    case PushUpvars(_) => 35
    case PopUpvars => 36
    case Close(_) => 37
    case Ret => 38
    case Branch(_) => 39
    case BranchTrue(_) => 40
    case BranchFalse(_) => 41
    case Reify(_) => 42
    case Next => 43
    case Unpack(_) => 44
    case NlGuard(_) => 45
    case NlBranch(_, _) => 46
    case Shl => 47
    case Shr => 48
    case UnpackBranch(_, _) => 49
    case ElseFallthrough(_) => 50
  }

  /** The operands as written, branch displacements in zigzag form. */
  function Operands(inst: Inst): seq<nat> {
    match inst
    case Call(a) => [a]
    case MethodCall(a, b) => [a, b]
    case Builtin(a, b) => [a, b]
    case Pick(a) => [a]
    case Swap(a, b) => [a, b]
    case LoadConst(a) => [a]
    case LoadLocal(a) => [a]
    case LoadUpvar(a, b) => [a, b]
    case Get(a) => [a]
    case Set(a) => [a]
    case StoreLocal(a) => [a]
    case StoreUpvar(a, b) => [a, b]
    case PushUpvars(a) => [a]
    case Close(a) => [a]
    case Branch(d) => [Zag(d)]
    case BranchTrue(d) => [Zag(d)]
    case BranchFalse(d) => [Zag(d)]
    case Reify(a) => [a]
    case Unpack(a) => [a]
    case NlGuard(a) => [a]
    case NlBranch(a, b) => [a, b]
    case UnpackBranch(a, d) => [a, Zag(d)]
    case ElseFallthrough(a) => [a]
    case _ => []
  }

  /** How many operands follow an opcode; `None` if it is not one. */
  function OperandCount(op: byte): Option<nat> {
    if op == 0 || op > 50 then None
    else if op == 3 || op == 4 || op == 9 || op == 12 || op == 33 || op == 46 || op == 49 then Some(2)
    else if op == 2 || op == 8 || op == 10 || op == 11 || op == 13 || op == 14 || op == 32 || op == 35 || op == 37
            || 39 <= op <= 42 || op == 44 || op == 45 || op == 50 then Some(1)
    else Some(0)
  }

  function Build0(op: byte): Inst {
    match op
    case 1 => Add
    case 5 => Div
    case 6 => Ediv
    case 7 => Dup
    case 15 => Index
    case 16 => Assign
    case 17 => Mod
    case 18 => Mul
    case 19 => Neg
    case 20 => Not
    case 21 => BitNot
    case 22 => BitAnd
    case 23 => BitOr
    case 24 => BitXor
    case 25 => Pop
    case 26 => Eq
    case 27 => Ne
    case 28 => Gt
    case 29 => Lt
    case 30 => Gte
    case 31 => Lte
    case 34 => Sub
    case 36 => PopUpvars
    case 38 => Ret
    case 43 => Next
    case 47 => Shl
    case _ => Shr
  }

  function Build1(op: byte, a: nat): Inst {
    match op
    case 2 => Call(a)
    case 8 => Pick(a)
    case 10 => LoadConst(a)
    case 11 => LoadLocal(a)
    case 13 => Get(a)
    case 14 => Set(a)
    case 32 => StoreLocal(a)
    case 35 => PushUpvars(a)
    case 37 => Close(a)
    case 39 => Branch(Zig(a))
    case 40 => BranchTrue(Zig(a))
    case 41 => BranchFalse(Zig(a))
    case 42 => Reify(a)
    case 44 => Unpack(a)
    case 45 => NlGuard(a)
    case _ => ElseFallthrough(a)
  }

  function Build2(op: byte, a: nat, b: nat): Inst {
    match op
    case 3 => MethodCall(a, b)
    case 4 => Builtin(a, b)
    case 9 => Swap(a, b)
    case 12 => LoadUpvar(a, b)
    case 33 => StoreUpvar(a, b)
    case 46 => NlBranch(a, b)
    case _ => UnpackBranch(a, Zig(b))
  }

  function Build(op: byte, args: seq<nat>): Inst
    requires OperandCount(op) == Some(|args|)
  {
    if |args| == 0 then Build0(op)
    else if |args| == 1 then Build1(op, args[0])
    else Build2(op, args[0], args[1])
  }

  /** Every operand fits a machine word. */
  ghost predicate Encodable(inst: Inst) {
    forall i :: 0 <= i < |Operands(inst)| ==> Operands(inst)[i] < U64_LIMIT
  }

  lemma BuildsBranch(inst: Inst)
    requires inst.Branch? || inst.BranchTrue? || inst.BranchFalse? || inst.UnpackBranch?
    ensures OperandCount(Opcode(inst)) == Some(|Operands(inst)|) && Build(Opcode(inst), Operands(inst)) == inst
  {
    ZigZag(inst.offset, 0);
  }

  lemma BuildsPair(inst: Inst)
    requires |Operands(inst)| == 2 && !inst.UnpackBranch?
    ensures OperandCount(Opcode(inst)) == Some(2) && Build(Opcode(inst), Operands(inst)) == inst
  {
  }

  lemma BuildsSingle(inst: Inst)
    requires |Operands(inst)| == 1 && !inst.Branch? && !inst.BranchTrue? && !inst.BranchFalse?
    ensures OperandCount(Opcode(inst)) == Some(1) && Build(Opcode(inst), Operands(inst)) == inst
  {
  }

  lemma BuildsBareLow(inst: Inst)
    requires || inst.Add? || inst.Div? || inst.Ediv? || inst.Dup?
             || inst.Index? || inst.Assign? || inst.Mod? || inst.Mul? || inst.Neg?
    ensures OperandCount(Opcode(inst)) == Some(0) && Build0(Opcode(inst)) == inst
  {
    hide Operands, Build1, Build2;
  }

  lemma BuildsBareMiddle(inst: Inst)
    requires || inst.Not? || inst.BitNot? || inst.BitAnd? || inst.BitOr?
             || inst.BitXor? || inst.Pop? || inst.Eq? || inst.Ne? || inst.Gt?
    ensures OperandCount(Opcode(inst)) == Some(0) && Build0(Opcode(inst)) == inst
  {
    hide Operands, Build1, Build2;
  }

  lemma BuildsBareHigh(inst: Inst)
    requires inst.Lt? || inst.Gte? || inst.Lte? || inst.Sub? || inst.PopUpvars?
    ensures OperandCount(Opcode(inst)) == Some(0) && Build0(Opcode(inst)) == inst
  {
    hide Operands, Build1, Build2;
  }

  lemma BuildsBareLast(inst: Inst)
    requires inst.Ret? || inst.Next? || inst.Shl? || inst.Shr?
    ensures OperandCount(Opcode(inst)) == Some(0) && Build0(Opcode(inst)) == inst
  {
    hide Operands, Build1, Build2;
  }

  lemma BareIs(inst: Inst)
    requires |Operands(inst)| == 0
    ensures || inst.Add? || inst.Div? || inst.Ediv? || inst.Dup? || inst.Index? || inst.Assign? || inst.Mod? || inst.Mul? || inst.Neg?
            || inst.Not? || inst.BitNot? || inst.BitAnd? || inst.BitOr? || inst.BitXor? || inst.Pop? || inst.Eq? || inst.Ne? || inst.Gt?
            || inst.Lt? || inst.Gte? || inst.Lte? || inst.Sub? || inst.PopUpvars? || inst.Ret? || inst.Next? || inst.Shl? || inst.Shr?
  {
    hide Opcode, OperandCount;
  }

  lemma BuildsBare(inst: Inst)
    requires |Operands(inst)| == 0
    ensures OperandCount(Opcode(inst)) == Some(0) && Build(Opcode(inst), Operands(inst)) == inst
  {
    BareIs(inst);
    hide Operands, Opcode, OperandCount, Build0, Build1, Build2;
    if inst.Add? || inst.Div? || inst.Ediv? || inst.Dup? || inst.Index? || inst.Assign? || inst.Mod? || inst.Mul? || inst.Neg? {
      BuildsBareLow(inst);
    } else if inst.Not? || inst.BitNot? || inst.BitAnd? || inst.BitOr? || inst.BitXor? || inst.Pop? || inst.Eq? || inst.Ne? || inst.Gt? {
      BuildsBareMiddle(inst);
    } else if inst.Ret? || inst.Next? || inst.Shl? || inst.Shr? {
      BuildsBareLast(inst);
    } else {
      BuildsBareHigh(inst);
    }
  }

  /** Building an instruction from its opcode and operands gives it back. */
  lemma BuildInverts(inst: Inst)
    ensures OperandCount(Opcode(inst)) == Some(|Operands(inst)|)
    ensures Build(Opcode(inst), Operands(inst)) == inst
  {
    if inst.Branch? || inst.BranchTrue? || inst.BranchFalse? || inst.UnpackBranch? {
      BuildsBranch(inst);
    } else if |Operands(inst)| == 2 {
      BuildsPair(inst);
    } else if |Operands(inst)| == 1 {
      BuildsSingle(inst);
    } else {
      BuildsBare(inst);
    }
  }

  // ----- encoding -----

  function EncodeUvars(values: seq<nat>): seq<byte> {
    if values == [] then [] else EncodeUvar(values[0]) + EncodeUvars(values[1..])
  }

  function EncodeInst(inst: Inst): (r: seq<byte>)
    ensures |r| > 0
  {
    [Opcode(inst)] + EncodeUvars(Operands(inst))
  }

  function EncodeAll(insts: seq<Inst>): seq<byte> {
    if insts == [] then [] else EncodeInst(insts[0]) + EncodeAll(insts[1..])
  }

  // ----- decoding -----

  datatype Args = Args(values: seq<nat>, next: nat)

  function DecodeArgs(input: seq<byte>, pos: nat, n: nat): (r: Result<Args, DecError>)
    ensures r.Ok? ==> |r.value.values| == n && pos <= r.value.next && (pos <= |input| ==> r.value.next <= |input|)
    decreases n
  {
    if n == 0 then Ok(Args([], pos))
    else
      match DecodeUvar(input, pos)
      case None => Err(Truncated(pos))
      case Some(read) =>
        match DecodeArgs(input, read.next, n - 1)
        case Err(e) => Err(e)
        case Ok(rest) => Ok(Args([read.value] + rest.values, rest.next))
  }

  /** The instruction at a position; `None` at the end of the input. */
  function DecodeInst(input: seq<byte>, pos: nat): (r: Option<Result<Located, DecError>>)
    ensures r.None? <==> pos >= |input|
    ensures r.Some? && r.value.Ok? ==> r.value.value.before == pos < r.value.value.after <= |input|
  {
    if pos >= |input| then None
    else
      match OperandCount(input[pos])
      case None => Some(Err(InvalidOpcode(pos)))
      case Some(n) =>
        match DecodeArgs(input, pos + 1, n)
        case Err(e) => Some(Err(e))
        case Ok(args) => Some(Ok(Located(pos, Build(input[pos], args.values), args.next)))
  }

  /** The instructions from a position to the end of the input. */
  function DecodeFrom(input: seq<byte>, pos: nat): Result<seq<Located>, DecError>
    decreases |input| - pos
  {
    match DecodeInst(input, pos)
    case None => Ok([])
    case Some(Err(e)) => Err(e)
    case Some(Ok(at)) =>
      match DecodeFrom(input, at.after)
      case Err(e) => Err(e)
      case Ok(rest) => Ok([at] + rest)
  }

  /** Instructions laid end to end from an offset. */
  function Locate(insts: seq<Inst>, pos: nat): (r: seq<Located>)
    ensures |r| == |insts|
  {
    if insts == [] then []
    else
      var after := pos + |EncodeInst(insts[0])|;
      [Located(pos, insts[0], after)] + Locate(insts[1..], after)
  }

  // ----- round trips -----

  lemma {:induction false} ArgsRoundTrip(input: seq<byte>, pos: nat, values: seq<nat>)
    requires forall i :: 0 <= i < |values| ==> values[i] < U64_LIMIT
    requires pos + |EncodeUvars(values)| <= |input|
    requires input[pos..pos + |EncodeUvars(values)|] == EncodeUvars(values)
    ensures DecodeArgs(input, pos, |values|) == Ok(Args(values, pos + |EncodeUvars(values)|))
    decreases |values|
  {
    hide EncodeUvar, DecodeUvar, EncodedLen;
    if values != [] {
      var code := input[pos..pos + |EncodeUvars(values)|];
      var first := EncodeUvar(values[0]);
      assert input[pos..pos + |first|] == code[..|first|] == first;
      UvarRoundTrip(input, pos, values[0]);
      var next := pos + |first|;
      assert input[next..next + |EncodeUvars(values[1..])|] == code[|first|..] == EncodeUvars(values[1..]);
      ArgsRoundTrip(input, next, values[1..]);
      assert [values[0]] + values[1..] == values;
    }
  }

  /** Decoding an encoded instruction, wherever it stands, gives it back with exact offsets. */
  lemma InstRoundTrip(input: seq<byte>, pos: nat, inst: Inst)
    requires Encodable(inst)
    requires pos + |EncodeInst(inst)| <= |input|
    requires input[pos..pos + |EncodeInst(inst)|] == EncodeInst(inst)
    ensures DecodeInst(input, pos) == Some(Ok(Located(pos, inst, pos + |EncodeInst(inst)|)))
  {
    hide Opcode, Operands, OperandCount, Build, DecodeArgs, EncodeUvars;
    var code := input[pos..pos + |EncodeInst(inst)|];
    assert input[pos] == code[0] == Opcode(inst);
    assert input[pos + 1..pos + 1 + |EncodeUvars(Operands(inst))|] == code[1..] == EncodeUvars(Operands(inst));
    ArgsRoundTrip(input, pos + 1, Operands(inst));
    BuildInverts(inst);
  }

  /** Decoding a stream of encoded instructions gives them back, end to end. */
  lemma {:induction false} StreamRoundTrip(prefix: seq<byte>, insts: seq<Inst>)
    requires forall i :: 0 <= i < |insts| ==> Encodable(insts[i])
    ensures DecodeFrom(prefix + EncodeAll(insts), |prefix|) == Ok(Locate(insts, |prefix|))
    decreases |insts|
  {
    hide EncodeInst, DecodeInst;
    var input := prefix + EncodeAll(insts);
    if insts != [] {
      var first := EncodeInst(insts[0]);
      assert input[|prefix|..|prefix| + |first|] == first;
      InstRoundTrip(input, |prefix|, insts[0]);
      StreamRoundTrip(prefix + first, insts[1..]);
      assert prefix + first + EncodeAll(insts[1..]) == input;
    }
  }

  /** The instructions are what the decoder yields for some bytes. */
  ghost predicate Decodable(code: seq<Located>) {
    exists input: seq<byte> :: |input| > 0 && DecodeFrom(input, 0) == Ok(code)
  }

  // What the decoder yields for encoded instructions.
  lemma {:induction false} LocatedDecodes(insts: seq<Inst>)
    requires insts != [] && forall i :: 0 <= i < |insts| ==> Encodable(insts[i])
    ensures Decodable(Locate(insts, 0)) && Contiguous(Locate(insts, 0))
  {
    hide DecodeFrom, Locate, EncodeInst;
    StreamRoundTrip([], insts);
    var input := EncodeAll(insts);
    assert [] + input == input;
    DecodedIsContiguous(input);
  }

  // ----- what decoding yields -----

  /** The instructions lie end to end from `pos` to `end`. */
  ghost predicate Tiles(code: seq<Located>, pos: nat, end: nat) {
    && (forall i :: 0 <= i < |code| ==> code[i].before < code[i].after)
    && (forall i :: 0 < i < |code| ==> code[i].before == code[i - 1].after)
    && (if code == [] then pos == end else code[0].before == pos && code[|code| - 1].after == end)
  }

  lemma {:induction false} DecodeTiles(input: seq<byte>, pos: nat)
    requires pos <= |input| && DecodeFrom(input, pos).Ok?
    ensures Tiles(DecodeFrom(input, pos).value, pos, |input|)
    decreases |input| - pos
  {
    if pos < |input| {
      DecodeTiles(input, DecodeInst(input, pos).value.value.after);
    }
  }

  /** What the decoder yields for non-empty bytecode is what the verifier assumes of code. */
  lemma {:induction false} DecodedIsContiguous(input: seq<byte>)
    requires |input| > 0 && DecodeFrom(input, 0).Ok?
    ensures Contiguous(DecodeFrom(input, 0).value)
    ensures DecodeFrom(input, 0).value[|DecodeFrom(input, 0).value| - 1].after == |input|
  {
    DecodeTiles(input, 0);
  }

  lemma {:induction false} ArgsInPrefix(input: seq<byte>, end: nat, pos: nat, n: nat)
    requires end <= |input| && DecodeArgs(input, pos, n).Ok? && DecodeArgs(input, pos, n).value.next <= end
    ensures DecodeArgs(input[..end], pos, n) == DecodeArgs(input, pos, n)
    decreases n
  {
    if n > 0 {
      var read := DecodeUvar(input, pos).value;
      ArgsInPrefix(input, end, read.next, n - 1);
      UvarInPrefix(input, end, pos);
    }
  }

  lemma UvarInPrefix(input: seq<byte>, end: nat, pos: nat)
    requires end <= |input| && DecodeUvar(input, pos).Some? && DecodeUvar(input, pos).value.next <= end
    ensures DecodeUvar(input[..end], pos) == DecodeUvar(input, pos)
  {
    hide TrailingZeros;
    var short := input[..end];
    assert short[pos] == input[pos];
    var trailing := TrailingZeros(input[pos]);
    assert short[pos..pos + 1 + trailing] == input[pos..pos + 1 + trailing];
    if trailing == 8 {
      assert short[pos + 1..pos + 9] == input[pos + 1..pos + 9];
    }
  }

  // Cutting the input off after an instruction does not change its decoding.
  lemma InstInPrefix(input: seq<byte>, end: nat, pos: nat)
    requires end <= |input| && pos < |input|
    requires DecodeInst(input, pos).value.Ok? && DecodeInst(input, pos).value.value.after <= end
    ensures DecodeInst(input[..end], pos) == DecodeInst(input, pos)
  {
    hide OperandCount, Build;
    ArgsInPrefix(input, end, pos + 1, OperandCount(input[pos]).value);
  }

  /** Decoding a slice that ends at an instruction boundary, from another boundary,
      gives the same instructions as decoding the whole. */
  lemma {:induction false} SliceDecodes(input: seq<byte>, pos: nat, k: nat, end: nat)
    requires pos <= |input| && DecodeFrom(input, pos).Ok?
    requires var code := DecodeFrom(input, pos).value;
             k <= |code| && end == if k == 0 then pos else code[k - 1].after
    ensures end <= |input|
    ensures DecodeFrom(input[..end], pos) == Ok(DecodeFrom(input, pos).value[..k])
    decreases k
  {
    DecodeTiles(input, pos);
    var code := DecodeFrom(input, pos).value;
    if k > 0 {
      var at := code[0];
      var rest := DecodeFrom(input, at.after).value;
      assert code == [at] + rest;
      assert end == if k - 1 == 0 then at.after else rest[k - 2].after;
      SliceDecodes(input, at.after, k - 1, end);
      DecodeTiles(input, at.after);
      EndsAfter(rest, at.after, |input|, k - 1);
      InstInPrefix(input, end, pos);
      assert code[..k] == [at] + rest[..k - 1];
    }
  }

  lemma {:induction false} EndsAfter(code: seq<Located>, pos: nat, end: nat, k: nat)
    requires Tiles(code, pos, end) && k <= |code|
    ensures pos <= (if k == 0 then pos else code[k - 1].after)
  {
    if k > 1 {
      EndsAfter(code, pos, end, k - 1);
    }
  }

  lemma {:induction false} SuffixDecodes(input: seq<byte>, pos: nat, k: nat)
    requires pos <= |input| && DecodeFrom(input, pos).Ok?
    requires k < |DecodeFrom(input, pos).value|
    ensures var code := DecodeFrom(input, pos).value;
            code[k].before <= |input| && DecodeFrom(input, code[k].before) == Ok(code[k..])
    decreases k
  {
    var code := DecodeFrom(input, pos).value;
    if k > 0 {
      var rest := DecodeFrom(input, code[0].after).value;
      assert code == [code[0]] + rest;
      SuffixDecodes(input, code[0].after, k - 1);
      assert code[k..] == rest[k - 1..];
    }
  }

  /** Decoding a block, from its first instruction to the start of the next block,
      gives exactly its instructions of the whole function. */
  lemma {:induction false} BlockDecodes(input: seq<byte>, lo: nat, hi: nat)
    requires |input| > 0 && DecodeFrom(input, 0).Ok?
    requires lo < hi <= |DecodeFrom(input, 0).value|
    ensures var code := DecodeFrom(input, 0).value;
            && code[hi - 1].after <= |input|
            && DecodeFrom(input[..code[hi - 1].after], code[lo].before) == Ok(code[lo..hi])
  {
    hide DecodeFrom, DecodeInst;
    var code := DecodeFrom(input, 0).value;
    SuffixDecodes(input, 0, lo);
    SliceDecodes(input, code[lo].before, hi - lo, code[hi - 1].after);
    assert code[lo..][..hi - lo] == code[lo..hi];
  }
}
