/** Why certificates must list every local: merging zips the lists of two states and
    never compares their lengths (dolang-bytecode/src/verify.rs, `BlockState::merge`). */
module ShortLists {

  import opened Results
  import opened Bytecode
  import opened Transfer
  import opened Graphs
  import opened Blocks
  import opened Solutions
  import opened Passes
  import opened Varint
  import opened InstCodec
  import Programs
  import ProgramSafety
  import Certificates
  import M = Machine

  /** Every block of every certificate lists at least `m` locals. */
  ghost predicate ListsAtLeast(certs: seq<Certificate>, m: nat) {
    forall i, b :: 0 <= i < |certs| && 0 <= b < |certs[i].blocks| ==> m <= |certs[i].blocks[b].1.locals|
  }

  /** No run of any accepted, decodable and runnable program whose functions have at most
      `n` locals faults, as long as its certificates list at least `m` locals for every block. */
  ghost predicate ListingSuffices(n: nat, m: nat) {
    forall ctx, certs, choices | SmallProgram(ctx, certs, n, m) ::
      !M.Run(ctx, M.Start(ctx), choices).Fault?
  }

  ghost predicate SmallProgram(ctx: Context, certs: seq<Certificate>, n: nat, m: nat) {
    && |ctx.funcs| > 0 && Programs.ProgramAccepted(ctx, certs) && ProgramSafety.Runnable(ctx)
    && (forall i :: 0 <= i < |ctx.funcs| ==> ctx.funcs[i].locals <= n && Decodable(ctx.funcs[i].code))
    && ListsAtLeast(certs, m)
  }

  // ----- a program that reads a local it never wrote -----

  // Two blocks that each branch to the next, and one that reads local `m` of `n`.
  function Reader(n: nat, m: nat): Func {
    Func(0, n, [],
         [Located(0, Branch(0), 2), Located(2, Branch(0), 4), Located(4, LoadLocal(m), ReadEnd(m)),
          Located(ReadEnd(m), Ret, ReadEnd(m) + 1)])
  }

  function ReadEnd(m: nat): nat {
    5 + EncodedLen(m)
  }

  lemma InstLength(inst: Inst, operand: nat)
    requires Operands(inst) == [operand]
    ensures |EncodeInst(inst)| == 1 + EncodedLen(operand)
  {
    hide EncodeUvar, EncodedLen;
    assert [operand][1..] == [];
    assert EncodeUvars([operand]) == EncodeUvar(operand) + EncodeUvars([]);
  }

  // The offsets are those of the encoded instructions, whatever the slot.
  lemma ReaderDecodes(n: nat, m: nat)
    requires m < U64_LIMIT
    ensures Decodable(Reader(n, m).code)
  {
    hide EncodeInst, Decodable;
    var insts := [Branch(0), Branch(0), LoadLocal(m), Ret];
    InstLength(Branch(0), 0);
    InstLength(LoadLocal(m), m);
    assert |EncodeInst(Ret)| == 1 by {
      RetLength();
    }
    assert insts[1..] == [Branch(0), LoadLocal(m), Ret] && insts[1..][1..] == [LoadLocal(m), Ret];
    assert insts[1..][1..][1..] == [Ret] && [Ret][1..] == [];
    assert Locate([Ret], ReadEnd(m)) == [Located(ReadEnd(m), Ret, ReadEnd(m) + 1)];
    assert Locate(insts[1..][1..], 4) == [Located(4, LoadLocal(m), ReadEnd(m))] + Locate([Ret], ReadEnd(m));
    assert Locate(insts[1..], 2) == [Located(2, Branch(0), 4)] + Locate(insts[1..][1..], 4);
    assert Locate(insts, 0) == Reader(n, m).code;
    LocatedDecodes(insts);
  }

  lemma RetLength()
    ensures |EncodeInst(Ret)| == 1
  {
    assert Operands(Ret) == [];
  }

  function Program(n: nat, m: nat): Context {
    Context([Reader(n, m)], [], [0], 0, 0)
  }

  function Unset(m: nat): (r: seq<LocalState>)
    ensures |r| == m && forall i :: 0 <= i < m ==> r[i] == Invalid
  {
    seq(m, _ => Invalid)
  }

  // The last block's list is one longer than the list before it, and claims what that one left out.
  function LastList(m: nat): (r: seq<LocalState>)
    ensures |r| == m + 1
  {
    Unset(m) + [Value]
  }

  function Claim(m: nat): Certificate {
    Certificate(1, [(2, Live(0, Unset(m), [])), (4, Live(0, LastList(m), []))])
  }

  lemma ReaderSyntax(n: nat, m: nat)
    requires m < n
    ensures Contiguous(Reader(n, m).code) && SyntaxOk(Program(n, m), Reader(n, m)) && TargetsOk(Reader(n, m))
  {
    ReaderFaultFree(n, m);
    hide SyntaxFault;
    var f := Reader(n, m);
    assert f.code[1].before == 2 && f.code[2].before == 4;
    assert IsBoundary(f, 2) && IsBoundary(f, 4);
  }

  lemma ReaderFaultFree(n: nat, m: nat)
    requires m < n
    ensures forall i :: 0 <= i < 4 ==> SyntaxFault(Program(n, m), Reader(n, m), Reader(n, m).code[i]) == None
  {
  }

  lemma ReaderStarts(n: nat, m: nat)
    ensures |Starts(Reader(n, m))| == 3 && Starts(Reader(n, m)) == [0, 1, 2]
  {
    var f := Reader(n, m);
    assert EndsBlock(f.code[0].inst) && EndsBlock(f.code[1].inst) && !EndsBlock(f.code[2].inst);
    assert !IsStart(f, 3) by {
      assert f.code[3].before == ReadEnd(m);
      assert forall j :: !Targets(f, j, ReadEnd(m));
    }
    assert StartsBelow(f, 1) == [0];
    assert StartsBelow(f, 2) == [0, 1];
    assert StartsBelow(f, 3) == [0, 1, 2];
    assert StartsBelow(f, 4) == [0, 1, 2];
  }

  lemma ReaderTargets(n: nat, m: nat)
    requires m < n
    ensures BlockAt(Reader(n, m), 2) == 1 && BlockAt(Reader(n, m), 4) == 2
  {
    hide Starts, BlockAt;
    var f := Reader(n, m);
    ReaderSyntax(n, m);
    ReaderStarts(n, m);
    BlockAtTarget(f, 0);
    BlockAtTarget(f, 1);
  }

  // What each block sends on, and to which block.
  lemma ReaderFlows(n: nat, m: nat, s: BlockState)
    requires m < n && s.Live?
    ensures var ctx, f := Program(n, m), Reader(n, m);
            && HasBlock(f, 0) && HasBlock(f, 1) && HasBlock(f, 2)
            && FlowsFrom(ctx, f, 0, s) == [Flow(1, s)] && FlowsFrom(ctx, f, 1, s) == [Flow(2, s)]
            && FlowsFrom(ctx, f, 2, s) == []
            && Successors(f, 0) == {1} && Successors(f, 1) == {2}
  {
    hide Starts, BlockAt;
    ReaderSyntax(n, m);
    ReaderStarts(n, m);
    ReaderTargets(n, m);
  }

  lemma ReaderVisits(n: nat, m: nat, locals: seq<LocalState>)
    requires m < n
    ensures var ctx, f, s := Program(n, m), Reader(n, m), Live(0, locals, []);
            && HasBlock(f, 0) && HasBlock(f, 1)
            && Visit(ctx, f, 0, s) == Ok(s) && Visit(ctx, f, 1, s) == Ok(s)
            && VisitPeak(ctx, f, 0, s) == 0 && VisitPeak(ctx, f, 1, s) == 0
  {
    hide Starts, BlockAt;
    var ctx, f, s := Program(n, m), Reader(n, m), Live(0, locals, []);
    ReaderSyntax(n, m);
    ReaderStarts(n, m);
    ReaderFlows(n, m, s);
    assert Run(ctx, f, 0, 1, s) == Ok(s) && Run(ctx, f, 1, 2, s) == Ok(s);
    assert Peak(ctx, f, 0, 1, s) == 0 && Peak(ctx, f, 1, 2, s) == 0;
    SinglePeak(Flow(1, s));
    SinglePeak(Flow(2, s));
  }

  lemma SinglePeak(flow: Flow)
    ensures FlowPeak([flow]) == if flow.state.Live? then flow.state.operands else 0
  {
    assert [flow][..0] == [];
    assert FlowPeak([flow]) == Max(FlowPeak([]), if flow.state.Live? then flow.state.operands else 0);
  }

  lemma ReaderReads(n: nat, m: nat)
    requires m < n
    ensures var ctx, f, s := Program(n, m), Reader(n, m), Live(0, LastList(m), []);
            && HasBlock(f, 2) && Visit(ctx, f, 2, s) == Ok(s) && VisitPeak(ctx, f, 2, s) == 1
  {
    hide Starts, BlockAt;
    var ctx, f, s := Program(n, m), Reader(n, m), Live(0, LastList(m), []);
    ReaderSyntax(n, m);
    ReaderStarts(n, m);
    ReaderFlows(n, m, s);
    assert Run(ctx, f, 2, 2, s) == Ok(s);
    assert Run(ctx, f, 2, 3, s) == Ok(Push(s, 1));
    assert Run(ctx, f, 2, 4, s) == Ok(s);
    assert Peak(ctx, f, 2, 3, s) == 1 && Peak(ctx, f, 2, 4, s) == 1;
  }

  lemma ReaderAbsorbs(n: nat, m: nat)
    requires m < n
    ensures Absorbed(Entry(Program(n, m), Reader(n, m)), Live(0, Unset(m), []))
    ensures Absorbed(Live(0, Unset(m), []), Live(0, LastList(m), []))
  {
    assert MergeLocals(seq(n, _ => Invalid), Unset(m)) == Unset(m);
    assert MergeLocals(Unset(m), LastList(m)) == LastList(m);
  }

  lemma ReaderSettled(n: nat, m: nat)
    requires m < n
    ensures var ctx, f := Program(n, m), Reader(n, m);
            Contiguous(f.code) && |Claims(ctx, f, Claim(m))| == |Starts(f)| && SettledAndReached(ctx, f, Claims(ctx, f, Claim(m)))
  {
    hide Starts, BlockAt, Visit, FlowsFrom, Absorbed, Successors;
    var ctx, f := Program(n, m), Reader(n, m);
    var claims := Claims(ctx, f, Claim(m));
    ReaderSyntax(n, m);
    ReaderStarts(n, m);
    ReaderAbsorbs(n, m);
    ReaderVisits(n, m, seq(n, _ => Invalid));
    ReaderVisits(n, m, Unset(m));
    ReaderReads(n, m);
    ReaderFlows(n, m, Entry(ctx, f));
    ReaderFlows(n, m, claims[1]);
    ReaderFlows(n, m, claims[2]);
    assert claims == [Entry(ctx, f), Live(0, Unset(m), []), Live(0, LastList(m), [])];
    assert Settled(ctx, f, claims, 0) && Settled(ctx, f, claims, 1) && Settled(ctx, f, claims, 2);
    var g := BlockGraph(f);
    ReachesItself(g, 0);
    ReachExtends(g, 0, 0, 1);
    ReachExtends(g, 0, 1, 2);
  }

  lemma ReaderAccepted(n: nat, m: nat)
    requires m < n <= USIZE_MAX
    ensures SmallProgram(Program(n, m), [Claim(m)], n, m)
  {
    hide Starts, BlockAt, Visit, VisitPeak, SettledAndReached, SyntaxOk, TargetsOk, Decodable;
    ReaderDecodes(n, m);
    var ctx, f, cert := Program(n, m), Reader(n, m), Claim(m);
    ReaderSyntax(n, m);
    ReaderStarts(n, m);
    ReaderSettled(n, m);
    ReaderVisits(n, m, seq(n, _ => Invalid));
    ReaderVisits(n, m, Unset(m));
    ReaderReads(n, m);
    var claims := Claims(ctx, f, cert);
    assert claims == [Entry(ctx, f), Live(0, Unset(m), []), Live(0, LastList(m), [])];
    assert VisitPeak(ctx, f, 2, claims[2]) == 1;
    assert PeakIs(ctx, f, claims, 1);
    assert BlocksMatch(f, cert);
    assert Accepted(ctx, f, cert);
    hide Accepted, PeakIs, BlocksMatch, Claims;
    ReachesItself(Programs.ProgramUses(ctx), 0);
    assert Programs.AllUsed(ctx);
  }

  // The run when its frame is at `pc`.
  function Running(n: nat, pc: nat): M.Config {
    M.Config([M.Frame(0, pc, [], seq(n, _ => None), [], M.Running)], {}, false)
  }

  lemma ReaderStep(n: nat, m: nat, pc: nat)
    requires m < n && (pc == 0 || pc == 2)
    ensures M.Exec(Program(n, m), Running(n, pc), M.Proceed([], false)) == M.To(Running(n, pc + 2))
  {
    hide M.Fetch, M.Dispatches;
    ReaderFetches(n, m);
  }

  lemma ReaderFault(n: nat, m: nat)
    requires m < n
    ensures M.Exec(Program(n, m), Running(n, 4), M.Proceed([], false)) == M.Fault
  {
    hide M.Fetch, M.Dispatches;
    ReaderFetches(n, m);
  }

  lemma ReaderStart(n: nat, m: nat)
    ensures M.Start(Program(n, m)) == Running(n, 0)
  {
  }

  lemma {:induction false} RunStep(ctx: Context, c: M.Config, ch: M.Choice, rest: seq<M.Choice>)
    ensures M.Run(ctx, c, [ch] + rest) ==
              match M.Exec(ctx, c, ch)
              case To(next) => M.Run(ctx, next, rest)
              case Finished => M.Finished
              case Fault => M.Fault
  {
    hide M.Exec;
    assert ([ch] + rest)[1..] == rest;
  }

  /** A run of the program reads the local and faults. */
  lemma ReaderFaults(n: nat, m: nat)
    requires m < n
    ensures var go := M.Proceed([], false);
            M.Run(Program(n, m), M.Start(Program(n, m)), [go, go, go]).Fault?
  {
    hide M.Run, M.Exec, M.Start, Program, Running;
    var go := M.Proceed([], false);
    ReaderStart(n, m);
    ReaderStep(n, m, 0);
    ReaderStep(n, m, 2);
    ReaderFault(n, m);
    RunStep(Program(n, m), Running(n, 0), go, [go, go]);
    RunStep(Program(n, m), Running(n, 2), go, [go]);
    RunStep(Program(n, m), Running(n, 4), go, []);
    assert [go] + [go, go] == [go, go, go] && [go] + [go] == [go, go] && [go] + [] == [go];
  }

  lemma ReaderFetches(n: nat, m: nat)
    ensures var code := Reader(n, m).code;
            && M.Fetch(code, 0) == Some(code[0]) && M.Fetch(code, 2) == Some(code[1])
            && M.Fetch(code, 4) == Some(code[2])
  {
    var code := Reader(n, m).code;
    assert code[..3][..2] == code[..2] && code[..2][..1] == code[..1];
    assert M.Fetch(code[..1], 0) == Some(code[0]);
    assert M.Fetch(code[..2], 0) == Some(code[0]) && M.Fetch(code[..2], 2) == Some(code[1]);
    assert M.Fetch(code[..3], 0) == Some(code[0]) && M.Fetch(code[..3], 2) == Some(code[1]);
  }

  lemma SmallIsVerified(ctx: Context, certs: seq<Certificate>, n: nat, m: nat)
    requires SmallProgram(ctx, certs, n, m) && n <= m
    ensures ProgramSafety.Verified(ctx, certs) && ProgramSafety.Runnable(ctx)
  {
    hide Accepted, Decodable, ProgramSafety.Runnable;
  }

  /** Listing `m` locals is enough for programs with up to `n` if and only if `m` is not
      less than `n`. */
  lemma ListingEveryLocalIsNeeded(n: nat, m: nat)
    requires n <= USIZE_MAX
    ensures ListingSuffices(n, m) <==> n <= m
  {
    hide M.Run, M.Start, Programs.ProgramAccepted, ProgramSafety.Runnable, Decodable, ListsAtLeast, Claim;
    if n <= m {
      forall ctx, certs, choices | SmallProgram(ctx, certs, n, m)
        ensures !M.Run(ctx, M.Start(ctx), choices).Fault?
      {
        SmallIsVerified(ctx, certs, n, m);
        ProgramSafety.VerifiedRunsAreSafe(ctx, certs, choices);
      }
    } else {
      ReaderAccepted(n, m);
      ReaderFaults(n, m);
    }
  }
}
