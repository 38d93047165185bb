/** What acceptance leaves open: the runtime enters function 0 without records or arguments
    (dolang-runtime/src/vm.rs, `run_inner`; dolang-runtime/src/frame.rs, `CallFrame::new`),
    whatever the function declares, and makes modules only of packs that do not spread. */
module EntryFrames {

  import opened Results
  import opened Bytecode
  import opened Transfer
  import opened Graphs
  import opened Blocks
  import opened Solutions
  import opened Passes
  import opened Varint
  import opened InstCodec
  import opened ProgramSafety
  import Certificates
  import Programs
  import M = Machine

  /** A verified, decodable program whose function 0 declares records `u` and takes `a`
      arguments; it makes modules of packs that spread only if `spread` says so. */
  ghost predicate Declares(ctx: Context, certs: seq<Certificate>, u: seq<nat>, a: nat, spread: bool) {
    && Verified(ctx, certs)
    && (forall i :: 0 <= i < |ctx.funcs| ==> Decodable(ctx.funcs[i].code))
    && ctx.funcs[0].upvars == u && UnpackArity(ctx, ctx.funcs[0].sig) == a
    && (!spread ==> ReifiesFixed(ctx))
  }

  /** No run of any such program faults. */
  ghost predicate DeclaringSuffices(u: seq<nat>, a: nat, spread: bool) {
    forall ctx, certs, choices | Declares(ctx, certs, u, a, spread) :: !M.Run(ctx, M.Start(ctx), choices).Fault?
  }

  // ----- programs of one function without branches -----

  function Single(code: seq<Located>, u: seq<nat>, a: nat, packs: seq<Pack>): Context {
    Context([Func(0, 0, u, code)], packs, [a], 0, 0)
  }

  /** No instruction but the last ends a block, none branches, and the last is terminal. */
  ghost predicate Straight(code: seq<Located>) {
    && Contiguous(code)
    && (forall i :: 0 <= i < |code| ==> !HasTarget(code[i].inst))
    && (forall i :: 0 <= i < |code| - 1 ==> !EndsBlock(code[i].inst))
    && Terminal(code[|code| - 1].inst)
  }

  lemma {:induction false} StraightStarts(f: Func, n: nat)
    requires Straight(f.code) && 0 < n <= |f.code|
    ensures StartsBelow(f, n) == [0]
    decreases n
  {
    assert forall j, t :: !Targets(f, j, t);
    if n > 1 {
      StraightStarts(f, n - 1);
      assert !EndsBlock(f.code[n - 2].inst);
    } else {
      assert StartsBelow(f, 0) == [];
    }
  }

  lemma StraightBlock(ctx: Context, f: Func)
    requires Straight(f.code)
    ensures Starts(f) == [0] && TargetsOk(f)
    ensures HasBlock(f, 0) && Lo(f, 0) == 0 && Hi(f, 0) == |f.code|
    ensures forall s: BlockState :: s.Live? ==> FlowsFrom(ctx, f, 0, s) == []
  {
    StraightStarts(f, |f.code|);
  }

  /** One block that steps to its end is accepted with the depth it reaches. */
  lemma {:induction false} StraightAccepted(ctx: Context, f: Func, peak: nat)
    requires Straight(f.code) && SyntaxOk(ctx, f)
    requires Run(ctx, f, 0, |f.code|, Entry(ctx, f)).Ok?
    requires peak == Max(Entry(ctx, f).operands, Peak(ctx, f, 0, |f.code|, Entry(ctx, f)))
    ensures Accepted(ctx, f, Certificate(peak, []))
  {
    hide Run, Peak, SyntaxOk, TargetsOk, Starts;
    StraightBlock(ctx, f);
    var cert := Certificate(peak, []);
    var claims := Claims(ctx, f, cert);
    assert claims == [Entry(ctx, f)];
    assert VisitPeak(ctx, f, 0, claims[0]) == Peak(ctx, f, 0, |f.code|, Entry(ctx, f));
    ReachesItself(BlockGraph(f), 0);
    assert SettledAndReached(ctx, f, claims);
  }

  lemma SingleVerified(code: seq<Located>, u: seq<nat>, a: nat, packs: seq<Pack>, peak: nat)
    requires var ctx := Single(code, u, a, packs); Accepted(ctx, ctx.funcs[0], Certificate(peak, []))
    ensures Verified(Single(code, u, a, packs), [Certificate(peak, [])])
  {
    hide Accepted;
    var ctx := Single(code, u, a, packs);
    ReachesItself(Programs.ProgramUses(ctx), 0);
    assert Programs.AllUsed(ctx);
  }

  // ----- a record that is not there -----

  function LeapInsts(): seq<Inst> {
    [NlBranch(0, 0)]
  }

  /** It leaves to the frame that made its innermost record. */
  function Leap(u: seq<nat>, a: nat): Context {
    Single(Locate(LeapInsts(), 0), u, a, [])
  }

  lemma {:induction false} LeapAccepted(u: seq<nat>, a: nat)
    requires u != [] && Sum(u) <= UPVAR_TOTAL
    ensures Declares(Leap(u, a), [Certificate(a, [])], u, a, false)
  {
    hide EncodeInst, Decodable, Accepted, Contiguous;
    var ctx := Leap(u, a);
    var f := ctx.funcs[0];
    LocatedDecodes(LeapInsts());
    assert f.code == [Located(0, NlBranch(0, 0), |EncodeInst(NlBranch(0, 0))|)] by {
      assert LeapInsts()[1..] == [];
    }
    assert Run(ctx, f, 0, 0, Entry(ctx, f)) == Ok(Entry(ctx, f));
    assert Run(ctx, f, 0, 1, Entry(ctx, f)) == Ok(Entry(ctx, f));
    assert Peak(ctx, f, 0, 0, Entry(ctx, f)) == 0;
    StraightAccepted(ctx, f, a);
    SingleVerified(f.code, u, a, [], a);
  }

  /** Entered without records, it faults at once. */
  lemma LeapFaults(u: seq<nat>, a: nat)
    ensures M.Run(Leap(u, a), M.Start(Leap(u, a)), [M.Proceed([], false)]).Fault?
  {
    hide EncodeInst;
    var ctx := Leap(u, a);
    assert LeapInsts()[1..] == [];
    assert M.Fetch(ctx.funcs[0].code, 0) == Some(ctx.funcs[0].code[0]);
    assert M.Exec(ctx, M.Start(ctx), M.Proceed([], false)) == M.Fault;
  }

  // ----- an argument that is not there -----

  function TakeInsts(): seq<Inst> {
    [Pop, ElseFallthrough(0)]
  }

  /** It drops its last argument. */
  function Take(a: nat): Context {
    Single(Locate(TakeInsts(), 0), [], a, [])
  }

  lemma TakeCode(a: nat)
    ensures var first := |EncodeInst(Pop)|;
            Take(a).funcs[0].code
            == [Located(0, Pop, first), Located(first, ElseFallthrough(0), first + |EncodeInst(ElseFallthrough(0))|)]
  {
    hide EncodeInst;
    assert TakeInsts()[1..] == [ElseFallthrough(0)] && TakeInsts()[1..][1..] == [];
  }

  lemma TakeAccepted(a: nat)
    requires a > 0
    ensures Declares(Take(a), [Certificate(a, [])], [], a, false)
  {
    hide EncodeInst, Decodable, Accepted, Contiguous, Locate, ReifiesFixed, Run, Peak, Straight, SyntaxOk;
    var ctx := Take(a);
    var f := ctx.funcs[0];
    LocatedDecodes(TakeInsts());
    TakeRuns(a);
    TakeSyntax(a);
    StraightAccepted(ctx, f, a);
    SingleVerified(f.code, [], a, [], a);
  }

  lemma TakeSyntax(a: nat)
    ensures ReifiesFixed(Take(a)) && Straight(Take(a).funcs[0].code) && SyntaxOk(Take(a), Take(a).funcs[0])
  {
    hide EncodeInst, Locate, Decodable, Contiguous, SyntaxFault;
    LocatedDecodes(TakeInsts());
    TakeCode(a);
    var ctx := Take(a);
    var f := ctx.funcs[0];
    PlainSyntax(ctx, f, f.code[0]);
    PlainSyntax(ctx, f, f.code[1]);
  }

  lemma TakeSteps(a: nat, s: BlockState)
    requires a > 0 && s == Live(a, [], [])
    ensures var ctx := Take(a);
            var f := ctx.funcs[0];
            && Step(ctx, f, Pop, s) == Ok(s.(operands := a - 1))
            && Step(ctx, f, ElseFallthrough(0), s.(operands := a - 1)) == Ok(s.(operands := a - 1))
  {
  }

  lemma TakeRuns(a: nat)
    requires a > 0
    ensures var ctx := Take(a);
            var f := ctx.funcs[0];
            && |f.code| == 2
            && Run(ctx, f, 0, 2, Entry(ctx, f)) == Ok(Live(a - 1, [], [])) && Peak(ctx, f, 0, 2, Entry(ctx, f)) == a - 1
  {
    hide EncodeInst, Locate, Step;
    var ctx := Take(a);
    var f := ctx.funcs[0];
    var s := Entry(ctx, f);
    TakeCode(a);
    TakeSteps(a, s);
    assert Run(ctx, f, 0, 0, s) == Ok(s) && Peak(ctx, f, 0, 0, s) == 0;
    assert Run(ctx, f, 0, 1, s) == Ok(s.(operands := a - 1)) && Peak(ctx, f, 0, 1, s) == a - 1;
  }

  /** Entered without arguments, it faults at once. */
  lemma TakeFaults(a: nat)
    ensures M.Run(Take(a), M.Start(Take(a)), [M.Proceed([], false)]).Fault?
  {
    hide EncodeInst, Locate;
    var ctx := Take(a);
    TakeCode(a);
    var code := ctx.funcs[0].code;
    assert code[..1][0] == code[0];
    assert M.Fetch(code, 0) == Some(code[0]);
    assert M.Exec(ctx, M.Start(ctx), M.Proceed([], false)) == M.Fault;
  }

  // ----- a module of a pack that spreads -----

  function ReifyInsts(): seq<Inst> {
    [PushUpvars(1), Reify(0), Ret]
  }

  /** It makes a module of a record of one variable, named by a pack that spreads. */
  function Reifier(): Context {
    Single(Locate(ReifyInsts(), 0), [], 0, [Pack(1, true)])
  }

  function ReifierCode(): seq<Located> {
    var one := |EncodeInst(PushUpvars(1))|;
    var two := one + |EncodeInst(Reify(0))|;
    [Located(0, PushUpvars(1), one), Located(one, Reify(0), two), Located(two, Ret, two + |EncodeInst(Ret)|)]
  }

  lemma ReifierLocated()
    ensures Locate(ReifyInsts(), 0) == ReifierCode()
  {
    hide EncodeInst;
    var insts := ReifyInsts();
    var one := |EncodeInst(PushUpvars(1))|;
    var two := one + |EncodeInst(Reify(0))|;
    assert insts[1..] == [Reify(0), Ret] && [Reify(0), Ret][1..] == [Ret] && [Ret][1..] == [];
    assert Locate([Ret], two) == [Located(two, Ret, two + |EncodeInst(Ret)|)];
    assert Locate([Reify(0), Ret], one) == [Located(one, Reify(0), two)] + Locate([Ret], two);
  }

  lemma ReifierSteps(s: BlockState)
    requires s == Live(0, [], [])
    ensures var ctx := Reifier();
            var f := ctx.funcs[0];
            && Step(ctx, f, PushUpvars(1), s) == Ok(s.(upvars := [1]))
            && Step(ctx, f, Reify(0), s.(upvars := [1])) == Ok(s.(operands := 1))
            && Step(ctx, f, Ret, s.(operands := 1)) == Ok(s)
  {
    hide Step;
    ReifierPushes(s);
    ReifierReifies(s);
  }

  lemma ReifierPushes(s: BlockState)
    requires s == Live(0, [], [])
    ensures Step(Reifier(), Reifier().funcs[0], PushUpvars(1), s) == Ok(s.(upvars := [1]))
  {
    hide EncodeInst, Locate;
    assert [] + [1] == [1] && [1][..0] == [];
    assert Sum([1]) == Sum([1][..0]) + 1;
  }

  lemma ReifierReifies(s: BlockState)
    requires s == Live(0, [], [])
    ensures Step(Reifier(), Reifier().funcs[0], Reify(0), s.(upvars := [1])) == Ok(s.(operands := 1))
    ensures Step(Reifier(), Reifier().funcs[0], Ret, s.(operands := 1)) == Ok(s)
  {
    hide EncodeInst, Locate;
    assert [1][..0] == [];
  }

  lemma {:induction false} ReifierRuns(s: BlockState)
    requires s == Live(0, [], [])
    ensures var ctx := Reifier();
            var f := ctx.funcs[0];
            && |f.code| == 3
            && Run(ctx, f, 0, 3, s) == Ok(s) && Peak(ctx, f, 0, 3, s) == 1
  {
    hide EncodeInst, Locate, Step;
    var ctx := Reifier();
    var f := ctx.funcs[0];
    ReifierLocated();
    ReifierSteps(s);
    assert Run(ctx, f, 0, 0, s) == Ok(s) && Peak(ctx, f, 0, 0, s) == 0;
    assert Run(ctx, f, 0, 1, s) == Ok(s.(upvars := [1]));
    assert Run(ctx, f, 0, 2, s) == Ok(s.(operands := 1));
    assert Peak(ctx, f, 0, 1, s) == 0 && Peak(ctx, f, 0, 2, s) == 1;
  }

  lemma ReifierSyntax()
    ensures var f := Reifier().funcs[0]; Straight(f.code) && SyntaxOk(Reifier(), f)
  {
    hide EncodeInst, Locate, Decodable, Contiguous, SyntaxFault;
    LocatedDecodes(ReifyInsts());
    ReifierLocated();
    var ctx := Reifier();
    var f := ctx.funcs[0];
    PlainSyntax(ctx, f, f.code[0]);
    PlainSyntax(ctx, f, f.code[1]);
    PlainSyntax(ctx, f, f.code[2]);
  }

  lemma PlainSyntax(ctx: Context, f: Func, at: Located)
    requires match at.inst
             case PushUpvars(_) | Pop | Ret | ElseFallthrough(0) => true
             case Reify(pack) => pack < |ctx.packs|
             case _ => false
    ensures SyntaxFault(ctx, f, at) == None && !HasTarget(at.inst)
  {
  }

  lemma ReifierAccepted()
    ensures Declares(Reifier(), [Certificate(1, [])], [], 0, true)
  {
    hide EncodeInst, Decodable, Accepted, Contiguous, Locate, ReifiesFixed, Run, Peak, Straight, SyntaxOk;
    var ctx := Reifier();
    var f := ctx.funcs[0];
    LocatedDecodes(ReifyInsts());
    ReifierRuns(Entry(ctx, f));
    ReifierSyntax();
    StraightAccepted(ctx, f, 1);
    SingleVerified(f.code, [], 0, [Pack(1, true)], 1);
  }

  // The run once the record is there.
  function Recorded(): M.Config {
    M.Config([M.Frame(0, |EncodeInst(PushUpvars(1))|, [], [], [1], M.Running)], {}, false)
  }

  lemma ReifierFetches()
    ensures M.Fetch(ReifierCode(), 0) == Some(ReifierCode()[0])
    ensures M.Fetch(ReifierCode(), |EncodeInst(PushUpvars(1))|) == Some(ReifierCode()[1])
  {
    hide EncodeInst;
    var code := ReifierCode();
    assert code[..2][..1] == code[..1];
    assert M.Fetch(code[..1], 0) == Some(code[0]);
    assert M.Fetch(code[..2], 0) == Some(code[0]);
    assert M.Fetch(code[..2], code[1].before) == Some(code[1]);
  }

  lemma ReifierOpens()
    ensures M.Exec(Reifier(), M.Start(Reifier()), M.Proceed([], false)) == M.To(Recorded())
  {
    hide EncodeInst, Locate, M.Fetch;
    ReifierLocated();
    ReifierFetches();
    assert [] + [1] == [1];
  }

  lemma ReifierStops()
    ensures M.Exec(Reifier(), Recorded(), M.Proceed([], false)) == M.Fault
  {
    hide EncodeInst, Locate, M.Fetch;
    ReifierLocated();
    ReifierFetches();
  }

  lemma ReifierFaults()
    ensures var go := M.Proceed([], false);
            M.Run(Reifier(), M.Start(Reifier()), [go, go]).Fault?
  {
    hide EncodeInst, Locate, M.Exec, M.Start, Reifier, Recorded;
    var go := M.Proceed([], false);
    ReifierOpens();
    ReifierStops();
    assert [go, go][1..] == [go];
    assert M.Run(Reifier(), Recorded(), [go]) == M.Fault;
  }

  // ----- the exact condition -----

  /** Acceptance makes runs safe if and only if function 0 declares no records, takes no
      arguments, and no module is made of a pack that spreads. */
  lemma {:induction false} RunnableIsNeeded(u: seq<nat>, a: nat, spread: bool)
    requires Sum(u) <= UPVAR_TOTAL
    ensures DeclaringSuffices(u, a, spread) <==> u == [] && a == 0 && !spread
  {
    hide M.Run, M.Start, Programs.ProgramAccepted, Decodable, ReifiesFixed, Leap, Take, Reifier;
    if u != [] {
      LeapAccepted(u, a);
      LeapFaults(u, a);
      assert Declares(Leap(u, a), [Certificate(a, [])], u, a, spread);
    } else if a > 0 {
      TakeAccepted(a);
      TakeFaults(a);
      assert Declares(Take(a), [Certificate(a, [])], u, a, spread);
    } else if spread {
      ReifierAccepted();
      ReifierFaults();
    } else {
      forall ctx, certs, choices | Declares(ctx, certs, u, a, spread)
        ensures !M.Run(ctx, M.Start(ctx), choices).Fault?
      {
        VerifiedRunsAreSafe(ctx, certs, choices);
      }
    }
  }
}
