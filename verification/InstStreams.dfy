/** The writer and the cursor that instructions pass through (dolang-bytecode/src/lib.rs,
    `InstEncoder`, `InstDecoder` and `WithOffsets`). */
module InstStreams {

  import opened Results
  import opened Bytecode
  import opened Varint
  import opened InstCodec

  class InstEncoder {
    var out: seq<byte>

    constructor ()
      ensures out == []
    {
      out := [];
    }

    method Word(v: nat)
      modifies this
      ensures out == old(out) + EncodeUvar(v)
    {
      out := out + EncodeUvar(v);
    }

    // Writes an opcode, and then its operands one by one.
    method Write(inst: Inst)
      modifies this
      ensures out == old(out) + EncodeInst(inst)
    {
      hide Opcode, Operands, EncodeUvar;
      var operands := Operands(inst);
      out := out + [Opcode(inst)];
      var k := 0;
      while k < |operands|
        invariant k <= |operands|
        invariant out + EncodeUvars(operands[k..]) == old(out) + ([Opcode(inst)] + EncodeUvars(operands))
      {
        assert operands[k..][1..] == operands[k + 1..];
        ghost var before := out;
        Word(operands[k]);
        assert before + (EncodeUvar(operands[k]) + EncodeUvars(operands[k + 1..]))
               == out + EncodeUvars(operands[k + 1..]);
        k := k + 1;
      }
      assert operands[k..] == [] && out + [] == out;
    }

    /** Writes a function's instructions. */
    method WriteAll(insts: seq<Inst>)
      modifies this
      ensures out == old(out) + EncodeAll(insts)
    {
      hide EncodeInst;
      var k := 0;
      while k < |insts|
        invariant k <= |insts|
        invariant out + EncodeAll(insts[k..]) == old(out) + EncodeAll(insts)
      {
        assert insts[k..][1..] == insts[k + 1..];
        ghost var before := out;
        Write(insts[k]);
        assert before + (EncodeInst(insts[k]) + EncodeAll(insts[k + 1..])) == out + EncodeAll(insts[k + 1..]);
        k := k + 1;
      }
      assert insts[k..] == [] && out + [] == out;
    }
  }

  // What is read so far, put before what is left to read.
  function Prepended(values: seq<nat>, rest: Result<Args, DecError>): Result<Args, DecError> {
    match rest
    case Err(e) => Err(e)
    case Ok(args) => Ok(Args(values + args.values, args.next))
  }

  class InstDecoder {
    const input: seq<byte>
    var pos: nat

    constructor (input: seq<byte>)
      ensures this.input == input && pos == 0
    {
      this.input, pos := input, 0;
    }

    method Word() returns (r: Option<nat>)
      modifies this
      ensures match DecodeUvar(input, old(pos))
              case None => r == None && pos == old(pos)
              case Some(read) => r == Some(read.value) && pos == read.next
    {
      match DecodeUvar(input, pos)
      case None => return None;
      case Some(read) =>
        pos := read.next;
        return Some(read.value);
    }

    // Reads a number of operands.
    method Words(n: nat) returns (r: Result<seq<nat>, DecError>)
      modifies this
      ensures match DecodeArgs(input, old(pos), n)
              case Err(e) => r == Err(e)
              case Ok(args) => r == Ok(args.values) && pos == args.next
    {
      hide DecodeUvar;
      var values: seq<nat> := [];
      NoWords(DecodeArgs(input, pos, n));
      var k := 0;
      while k < n
        invariant k == |values| <= n
        invariant DecodeArgs(input, old(pos), n) == Prepended(values, DecodeArgs(input, pos, n - k))
      {
        ghost var rest := DecodeArgs(input, pos, n - k);
        var word := Word();
        if word == None {
          return Err(Truncated(pos));
        }
        MoreWords(values, word.value, DecodeArgs(input, pos, n - k - 1));
        values := values + [word.value];
        k := k + 1;
      }
      assert values + [] == values;
      r := Ok(values);
    }

    /** The next instruction with its offsets; `None` at the end of the input. */
    method Next() returns (r: Option<Result<Located, DecError>>)
      modifies this
      ensures r == DecodeInst(input, old(pos))
      ensures r.Some? && r.value.Ok? ==> pos == r.value.value.after
      ensures r == None ==> pos == old(pos)
    {
      hide OperandCount, Build, DecodeArgs;
      var before := pos;
      if pos >= |input| {
        return None;
      }
      var op := input[pos];
      pos := pos + 1;
      var count := OperandCount(op);
      if count == None {
        return Some(Err(InvalidOpcode(before)));
      }
      var args := Words(count.value);
      match args
      case Err(e) => return Some(Err(e));
      case Ok(values) => return Some(Ok(Located(before, Build(op, values), pos)));
    }

    /** All instructions that are left. */
    method Collect() returns (r: Result<seq<Located>, DecError>)
      modifies this
      ensures r == DecodeFrom(input, old(pos))
    {
      hide DecodeInst;
      var code: seq<Located> := [];
      NothingYet(DecodeFrom(input, pos));
      while true
        invariant DecodeFrom(input, old(pos)) == Following(code, DecodeFrom(input, pos))
        decreases |input| - pos
      {
        ghost var here := pos;
        var next := Next();
        NothingLeft(input, here, code);
        match next {
          case None => return Ok(code);
          case Some(Err(e)) => return Err(e);
          case Some(Ok(at)) =>
            FollowingMore(code, at, DecodeFrom(input, at.after));
            code := code + [at];
        }
      }
    }
  }

  lemma NothingYet(rest: Result<seq<Located>, DecError>)
    ensures Following([], rest) == rest
  {
    if rest.Ok? {
      assert [] + rest.value == rest.value;
    }
  }

  lemma NoWords(rest: Result<Args, DecError>)
    ensures Prepended([], rest) == rest
  {
    if rest.Ok? {
      assert [] + rest.value.values == rest.value.values;
    }
  }

  function Following(code: seq<Located>, rest: Result<seq<Located>, DecError>): Result<seq<Located>, DecError> {
    match rest
    case Err(e) => Err(e)
    case Ok(more) => Ok(code + more)
  }

  lemma FollowingMore(code: seq<Located>, at: Located, rest: Result<seq<Located>, DecError>)
    ensures Following(code, Following([at], rest)) == Following(code + [at], rest)
  {
    if rest.Ok? {
      assert code + ([at] + rest.value) == (code + [at]) + rest.value;
    }
  }

  lemma {:induction false} NothingLeft(input: seq<byte>, pos: nat, code: seq<Located>)
    ensures pos >= |input| ==> Following(code, DecodeFrom(input, pos)) == Ok(code)
  {
    assert code + [] == code;
  }

  lemma MoreWords(values: seq<nat>, v: nat, rest: Result<Args, DecError>)
    ensures Prepended(values, Prepended([v], rest)) == Prepended(values + [v], rest)
  {
    if rest.Ok? {
      assert values + ([v] + rest.value.values) == (values + [v]) + rest.value.values;
    }
  }
}
