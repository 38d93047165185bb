/** When a check of claimed certificates panics: an instruction indexes a local that its
    block's list does not reach (dolang-bytecode/src/verify.rs, `step`). */
module ListPanics {

  import opened Results
  import opened Bytecode
  import opened Transfer
  import opened Graphs
  import opened Blocks
  import opened Solutions
  import opened Passes
  import opened ShortLists
  import opened InstCodec
  import Certificates

  /** The error that stands for the panic. */
  predicate Panics(error: FuncError) {
    error.AtInst? && error.error == LocalListTooShort
  }

  /** Some check of decodable code with at most `n` locals, against a certificate that lists at
      least `m` for every block, panics. */
  ghost predicate CanPanic(n: nat, m: nat) {
    exists ctx, f, cert, error :: ListsSome(ctx, f, cert, n, m) && Refusal(ctx, f, cert, error) && Panics(error)
  }

  ghost predicate ListsSome(ctx: Context, f: Func, cert: Certificate, n: nat, m: nat) {
    && FileChecked(ctx, f) && Decodable(f.code) && f.locals <= n
    && forall b :: 0 <= b < |cert.blocks| ==> m <= |cert.blocks[b].1.locals|
  }

  // ----- lists that are long enough -----

  lemma NamesSlot(ctx: Context, f: Func, inst: Inst, s: BlockState)
    requires s.Live? && Step(ctx, f, inst, s) == Err(LocalListTooShort)
    ensures (inst.LoadLocal? || inst.StoreLocal?) && inst.slot >= |s.locals|
  {
    hide PackArity, UnpackArity, Sum;
    ReadsSlot(ctx, inst);
  }

  lemma ReadsSlot(ctx: Context, inst: Inst)
    ensures EffectOf(ctx, inst).ReadLocal? ==> inst.LoadLocal? && EffectOf(ctx, inst).slot == inst.slot
    ensures EffectOf(ctx, inst).WriteLocal? ==> inst.StoreLocal? && EffectOf(ctx, inst).slot == inst.slot
  {
    hide PackArity, UnpackArity;
  }

  lemma SyntaxNeverPanics(ctx: Context, f: Func, at: Located)
    ensures SyntaxFault(ctx, f, at) != Some(LocalListTooShort)
  {
  }

  lemma {:induction false} RunPanics(ctx: Context, f: Func, lo: nat, hi: nat, s: BlockState)
    requires lo <= hi <= |f.code| && s.Live? && Run(ctx, f, lo, hi, s).Err? && Panics(Run(ctx, f, lo, hi, s).error)
    ensures exists i :: lo <= i < hi && (f.code[i].inst.LoadLocal? || f.code[i].inst.StoreLocal?)
                        && f.code[i].inst.slot >= |s.locals|
    decreases hi
  {
    hide Step;
    if lo < hi {
      if Run(ctx, f, lo, hi - 1, s).Err? {
        RunPanics(ctx, f, lo, hi - 1, s);
      } else {
        NamesSlot(ctx, f, f.code[hi - 1].inst, Run(ctx, f, lo, hi - 1, s).value);
      }
    }
  }

  lemma FlowNeverPanics(f: Func, claims: seq<BlockState>, flows: seq<Flow>, error: FuncError)
    requires Contiguous(f.code) && |claims| == |Starts(f)| && SomeFlowRefused(f, claims, flows, error)
    ensures !Panics(error)
  {
    hide StartOffsets;
  }

  /** A check panics only in a block that is reachable and lists fewer locals than one of its
      instructions needs. */
  lemma {:induction false} PanicMeans(ctx: Context, f: Func, cert: Certificate, error: FuncError)
    requires Contiguous(f.code) && Refusal(ctx, f, cert, error) && Panics(error)
    ensures SyntaxOk(ctx, f) && BlocksMatch(f, cert)
    ensures exists b, i :: 0 <= b < |cert.blocks| && 0 <= i < |f.code|
                           && (f.code[i].inst.LoadLocal? || f.code[i].inst.StoreLocal?)
                           && |cert.blocks[b].1.locals| <= f.code[i].inst.slot < f.locals
  {
    hide StartOffsets, Run, FlowsFrom, SyntaxFault;
    forall at
      ensures SyntaxFault(ctx, f, at) != Some(LocalListTooShort)
    {
      SyntaxNeverPanics(ctx, f, at);
    }
    var claims := Claims(ctx, f, cert);
    var b: nat :| b < |claims| && BlockRefused(ctx, f, claims, b, error);
    if Visit(ctx, f, b, claims[b]).Ok? {
      FlowNeverPanics(f, claims, FlowsFrom(ctx, f, b, Visit(ctx, f, b, claims[b]).value), error);
    }
    BlockRange(f, b);
    RunPanics(ctx, f, Lo(f, b), Hi(f, b), claims[b]);
    var i :| Lo(f, b) <= i < Hi(f, b) && (f.code[i].inst.LoadLocal? || f.code[i].inst.StoreLocal?)
             && f.code[i].inst.slot >= |claims[b].locals|;
    SlotInRange(ctx, f, i);
    assert b > 0;
    Certificates.ClaimAt(ctx, f, cert, b - 1);
  }

  lemma SlotInRange(ctx: Context, f: Func, i: nat)
    requires Contiguous(f.code) && SyntaxOk(ctx, f) && i < |f.code|
    requires f.code[i].inst.LoadLocal? || f.code[i].inst.StoreLocal?
    ensures f.code[i].inst.slot < f.locals
  {
    assert SyntaxFault(ctx, f, f.code[i]) == None;
  }

  /** A certificate that lists every local never makes a check panic. */
  lemma FullListsNeverPanic(ctx: Context, f: Func, cert: Certificate, error: FuncError)
    requires Contiguous(f.code) && Certificates.ListsLocals(f, cert) && Refusal(ctx, f, cert, error)
    ensures !Panics(error)
  {
    hide Refusal, SyntaxOk, BlocksMatch;
    if Panics(error) {
      PanicMeans(ctx, f, cert, error);
    }
  }

  // ----- lists that are not -----

  // Both claims leave out local `m`, which the last block reads.
  function ShortClaim(m: nat): Certificate {
    Certificate(1, [(2, Live(0, Unset(m), [])), (4, Live(0, Unset(m), []))])
  }

  lemma ReaderStuck(n: nat, m: nat)
    requires m < n
    ensures var ctx, f := Program(n, m), Reader(n, m);
            HasBlock(f, 2) && Visit(ctx, f, 2, Live(0, Unset(m), [])) == Err(AtInst(4, LocalListTooShort))
  {
    hide Starts, BlockAt;
    var ctx, f, s := Program(n, m), Reader(n, m), Live(0, Unset(m), []);
    ReaderSyntax(n, m);
    ReaderStarts(n, m);
    ReaderFlows(n, m, s);
    assert Run(ctx, f, 2, 2, s) == Ok(s);
    assert Run(ctx, f, 2, 3, s) == Err(AtInst(4, LocalListTooShort));
    assert Run(ctx, f, 2, 4, s) == Err(AtInst(4, LocalListTooShort));
  }

  lemma ReaderReached(n: nat, m: nat)
    requires m < n
    ensures var g := BlockGraph(Reader(n, m));
            |g| == 3 && Reachable(g, 0, 0) && Reachable(g, 0, 1) && Reachable(g, 0, 2)
  {
    hide Starts, BlockAt, FlowsFrom, Successors;
    ReaderSyntax(n, m);
    ReaderStarts(n, m);
    ReaderFlows(n, m, Live(0, [], []));
    var g := BlockGraph(Reader(n, m));
    ReachesItself(g, 0);
    ReachExtends(g, 0, 0, 1);
    ReachExtends(g, 0, 1, 2);
  }

  lemma ShortClaims(n: nat, m: nat)
    requires m < n
    ensures var ctx, f := Program(n, m), Reader(n, m);
            && Claims(ctx, f, ShortClaim(m)) == [Entry(ctx, f), Live(0, Unset(m), []), Live(0, Unset(m), [])]
            && Contiguous(f.code) && |Starts(f)| == 3 && BlocksMatch(f, ShortClaim(m))
            && SyntaxOk(ctx, f) && TargetsOk(f) && FileChecked(ctx, f)
  {
    hide Starts, BlockAt, SyntaxOk, TargetsOk;
    ReaderSyntax(n, m);
    ReaderStarts(n, m);
  }

  /** The check of the reader against them ends in the panic, and in nothing else. */
  lemma {:induction false} ReaderPanics(n: nat, m: nat, error: FuncError)
    requires m < n
    ensures var ctx, f := Program(n, m), Reader(n, m);
            && Contiguous(f.code) && !Accepted(ctx, f, ShortClaim(m))
            && (Refusal(ctx, f, ShortClaim(m), error) <==> error == AtInst(4, LocalListTooShort))
  {
    hide Starts, BlockAt, Visit, FlowsFrom, StartOffsets, Merge, SyntaxOk, TargetsOk, BlocksMatch, Run, Reachable;
    hide BlockGraph;
    var ctx, f := Program(n, m), Reader(n, m);
    var claims := Claims(ctx, f, ShortClaim(m));
    ShortClaims(n, m);
    ReaderStuck(n, m);
    ReaderReached(n, m);
    ReaderAbsorbsShort(n, m);
    ReaderVisits(n, m, seq(n, _ => Invalid));
    ReaderVisits(n, m, Unset(m));
    ReaderFlows(n, m, claims[0]);
    ReaderFlows(n, m, claims[1]);
    assert BlockRefused(ctx, f, claims, 2, AtInst(4, LocalListTooShort));
    assert ClaimsRefused(ctx, f, claims, AtInst(4, LocalListTooShort));
    RefusedFails(ctx, f, claims, AtInst(4, LocalListTooShort));
    assert !BlockRefused(ctx, f, claims, 0, error) && !BlockRefused(ctx, f, claims, 1, error);
    assert BlockRefused(ctx, f, claims, 2, error) <==> error == AtInst(4, LocalListTooShort);
  }

  lemma ReaderAbsorbsShort(n: nat, m: nat)
    requires m < n
    ensures Absorbed(Entry(Program(n, m), Reader(n, m)), Live(0, Unset(m), []))
    ensures Absorbed(Live(0, Unset(m), []), Live(0, Unset(m), []))
  {
    assert MergeLocals(seq(n, _ => Invalid), Unset(m)) == Unset(m);
    assert MergeLocals(Unset(m), Unset(m)) == Unset(m);
  }

  /** Runs that check. */
  method CheckReader(n: nat, m: nat) returns (error: Option<FuncError>)
    requires m < n
    ensures error == Some(AtInst(4, LocalListTooShort))
  {
    hide Refusal, Accepted;
    ShortClaims(n, m);
    error := Certificates.CheckCertificate(Program(n, m), Reader(n, m), ShortClaim(m));
    ReaderPanics(n, m, if error.Some? then error.value else OperandDepthMismatch);
  }

  // ----- the exact condition -----

  /** Certificates that list `m` locals can make a check of a function with up to `n` locals
      panic if and only if they leave one out. */
  lemma CanPanicWhen(n: nat, m: nat)
    requires n <= USIZE_MAX
    ensures CanPanic(n, m) <==> m < n
  {
    hide Refusal, Reader, ShortClaim, Decodable;
    if m < n {
      var error := AtInst(4, LocalListTooShort);
      ReaderPanics(n, m, error);
      ShortListed(n, m);
      assert ListsSome(Program(n, m), Reader(n, m), ShortClaim(m), n, m);
      assert Refusal(Program(n, m), Reader(n, m), ShortClaim(m), error) && Panics(error);
    } else if CanPanic(n, m) {
      var ctx, f, cert, error :| ListsSome(ctx, f, cert, n, m) && Refusal(ctx, f, cert, error) && Panics(error);
      FullListsNeverPanic(ctx, f, cert, error);
    }
  }

  lemma ShortListed(n: nat, m: nat)
    requires m < n <= USIZE_MAX
    ensures ListsSome(Program(n, m), Reader(n, m), ShortClaim(m), n, m)
  {
    hide Decodable;
    ReaderDecodes(n, m);
    ShortClaims(n, m);
  }
}
