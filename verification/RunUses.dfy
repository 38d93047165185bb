/** What the recorded uses mean for runs (dolang-bytecode/src/verify.rs, `syntax` and
    `verify_used`): a function runs only if it is reachable by use from function 0, and a
    use is recorded for each closure that an instruction makes, and for no other. */
module RunUses {

  import opened Results
  import opened Bytecode
  import opened Graphs
  import opened Blocks
  import opened Passes
  import opened Soundness
  import opened ProgramSafety
  import opened Programs
  import Certificates
  import M = Machine

  /** The machine makes a closure of function `u` for the instruction. */
  predicate Makes(ctx: Context, inst: Inst, u: nat) {
    var action := M.ActionOf(ctx, inst);
    (action.MakeClosure? || action.GuardCall?) && action.func == u
  }

  /** The closures an instruction makes, over the records their functions declare. */
  ghost predicate MadeBy(ctx: Context, inst: Inst, v: M.Val) {
    v.Closure? && v.func < |ctx.funcs| && Makes(ctx, inst, v.func) && v.shape == ctx.funcs[v.func].upvars
  }

  lemma PerformMakes(ctx: Context, below: seq<M.Frame>, fr: M.Frame, at: Located, made: set<M.Val>,
                     values: seq<M.Val>, flag: bool, v: M.Val)
    requires fr.func < |ctx.funcs|
    ensures var outcome := M.Perform(ctx, below, fr, at, made, values, flag);
            outcome.To? ==> (v in outcome.next.made <==> v in made || MadeBy(ctx, at.inst, v))
  {
    hide M.ActionOf;
  }

  /** Completing an instruction makes closures of just the functions it is said to make
      closures of, and no others come into being. */
  lemma ExecMakes(ctx: Context, c: M.Config, at: Located, ch: M.Choice, v: M.Val)
    requires |c.frames| > 0 && !c.unwinding && ch.Proceed?
    requires var fr := c.frames[|c.frames| - 1];
             fr.func < |ctx.funcs| && M.Fetch(ctx.funcs[fr.func].code, fr.pc) == Some(at)
    requires M.Exec(ctx, c, ch).To?
    ensures v in M.Exec(ctx, c, ch).next.made <==> v in c.made || MadeBy(ctx, at.inst, v)
  {
    hide M.Perform, M.Enter, M.Fetch, MadeBy, M.Unwind;
    var fr, below := c.frames[|c.frames| - 1], c.frames[..|c.frames| - 1];
    PerformMakes(ctx, below, fr, at, c.made, ch.values, ch.flag, v);
  }

  // ----- what is recorded -----

  lemma UseIsMade(ctx: Context, inst: Inst, u: nat)
    ensures u in UseOf(inst) <==> Makes(ctx, inst, u)
  {
  }

  ghost predicate MakesAt(ctx: Context, code: seq<Located>, k: nat, u: nat) {
    k < |code| && Makes(ctx, code[k].inst, u)
  }

  lemma {:induction false} UsesAreMade(ctx: Context, code: seq<Located>, n: nat, u: nat)
    requires n <= |code|
    ensures u in UsesOf(code, n) <==> exists k: nat :: k < n && MakesAt(ctx, code, k, u)
  {
    hide Makes;
    if n > 0 {
      UsesAreMade(ctx, code, n - 1, u);
      UseIsMade(ctx, code[n - 1].inst, u);
      if u in UseOf(code[n - 1].inst) {
        assert MakesAt(ctx, code, n - 1, u);
      }
    }
  }

  /** The recorded uses of a function are the functions its instructions make closures of. */
  lemma RecordedUses(ctx: Context, i: nat, u: nat)
    requires i < |ctx.funcs|
    ensures u in ProgramUses(ctx)[i] <==> exists k: nat :: MakesAt(ctx, ctx.funcs[i].code, k, u)
  {
    hide Makes;
    UsesAreMade(ctx, ctx.funcs[i].code, |ctx.funcs[i].code|, u);
  }

  // ----- what runs -----

  ghost predicate Used(ctx: Context, func: nat) {
    Reachable(ProgramUses(ctx), 0, func)
  }

  ghost predicate FramesUsed(ctx: Context, frames: seq<M.Frame>) {
    forall k :: 0 <= k < |frames| ==> Used(ctx, frames[k].func)
  }

  /** The functions of all frames, and of all closures made, are reachable by use. */
  ghost predicate AllReached(ctx: Context, c: M.Config) {
    && FramesUsed(ctx, c.frames)
    && forall v :: v in c.made && v.Closure? ==> Used(ctx, v.func)
  }

  // A closure made by an instruction of a reachable function is of a reachable function.
  lemma {:induction false} MadeIsUsed(ctx: Context, func: nat, pc: int, at: Located, u: nat)
    requires func < |ctx.funcs| && Used(ctx, func) && M.Fetch(ctx.funcs[func].code, pc) == Some(at)
    requires Makes(ctx, at.inst, u)
    ensures Used(ctx, u)
  {
    hide Makes, M.Fetch, Reachable;
    var code := ctx.funcs[func].code;
    FetchedFrom(code, pc);
    var k: nat :| k < |code| && code[k] == at;
    assert MakesAt(ctx, code, k, u);
    RecordedUses(ctx, func, u);
    ReachExtends(ProgramUses(ctx), 0, func, u);
  }

  /** A frame was there before, or it is the running one, or it runs a closure above it. */
  ghost predicate Descends(below: seq<M.Frame>, fr: M.Frame, next: M.Config, k: nat)
    requires k < |next.frames|
  {
    || (k < |below| && next.frames[k].func == below[k].func)
    || (k == |below| && next.frames[k].func == fr.func)
    || (k == |below| + 1 && exists v :: v in next.made && v.Closure? && v.func == next.frames[k].func)
  }

  lemma EnterDescends(ctx: Context, below: seq<M.Frame>, fr: M.Frame, callee: M.Val, made: set<M.Val>,
                      values: seq<M.Val>, k: nat)
    requires callee in made
    ensures var outcome := M.Enter(ctx, below + [fr], callee, made, values);
            outcome.To? && k < |outcome.next.frames| ==> Descends(below, fr, outcome.next, k)
  {
  }

  lemma PerformDescends(ctx: Context, below: seq<M.Frame>, fr: M.Frame, at: Located, made: set<M.Val>,
                        values: seq<M.Val>, flag: bool, k: nat)
    requires fr.func < |ctx.funcs| && KnownValues(made, fr)
    ensures var outcome := M.Perform(ctx, below, fr, at, made, values, flag);
            outcome.To? && k < |outcome.next.frames| ==> Descends(below, fr, outcome.next, k)
  {
    hide M.Enter, M.ActionOf;
    match M.ActionOf(ctx, at.inst)
    case GuardCall(func) =>
      var closure := M.Closure(func, fr.records + [0]);
      EnterDescends(ctx, below, fr.(pc := at.after, records := fr.records + [0], waiting := M.OnGuard),
                    closure, made + {closure}, values, k);
    case Invoke(args) =>
      if args < |fr.operands| {
        var callee := fr.operands[|fr.operands| - 1 - args];
        assert M.Known(made, callee);
        if callee.Closure? {
          EnterDescends(ctx, below, fr.(pc := at.after, operands := M.Top(fr, args + 1), waiting := M.OnCall),
                        callee, made, values, k);
        }
      }
    case _ =>
  }

  // What is known of the frames and closures before tells of those after.
  lemma DescendantsUsed(ctx: Context, below: seq<M.Frame>, fr: M.Frame, next: M.Config)
    requires FramesUsed(ctx, below) && Used(ctx, fr.func)
    requires forall v :: v in next.made && v.Closure? ==> Used(ctx, v.func)
    requires forall k: nat :: k < |next.frames| ==> Descends(below, fr, next, k)
    ensures AllReached(ctx, next)
  {
    hide Used;
    forall k | 0 <= k < |next.frames|
      ensures Used(ctx, next.frames[k].func)
    {
      assert Descends(below, fr, next, k);
    }
  }

  lemma PerformReaches(ctx: Context, c: M.Config, below: seq<M.Frame>, fr: M.Frame, at: Located,
                       values: seq<M.Val>, flag: bool)
    requires c.frames == below + [fr] && AllReached(ctx, c)
    requires fr.func < |ctx.funcs| && KnownValues(c.made, fr)
    requires M.Fetch(ctx.funcs[fr.func].code, fr.pc) == Some(at)
    ensures var outcome := M.Perform(ctx, below, fr, at, c.made, values, flag);
            outcome.To? ==> AllReached(ctx, outcome.next)
  {
    hide M.Perform, Used, Makes, Descends, KnownValues, M.Fetch;
    var outcome := M.Perform(ctx, below, fr, at, c.made, values, flag);
    if outcome.To? {
      var next := outcome.next;
      assert forall k :: 0 <= k < |below| ==> below[k] == c.frames[k];
      assert Used(ctx, c.frames[|below|].func);
      forall v | v in next.made && v.Closure?
        ensures Used(ctx, v.func)
      {
        PerformMakes(ctx, below, fr, at, c.made, values, flag, v);
        if v !in c.made {
          MadeIsUsed(ctx, fr.func, fr.pc, at, v.func);
        }
      }
      forall k: nat | k < |next.frames|
        ensures Descends(below, fr, next, k)
      {
        PerformDescends(ctx, below, fr, at, c.made, values, flag, k);
      }
      DescendantsUsed(ctx, below, fr, next);
    }
  }

  lemma DispatchReaches(ctx: Context, c: M.Config, below: seq<M.Frame>, fr: M.Frame, callee: M.Val, values: seq<M.Val>)
    requires c.frames == below + [fr] && AllReached(ctx, c) && callee in c.made && callee.Closure?
    ensures var outcome := M.Enter(ctx, below + [fr.(waiting := M.OnDispatch)], callee, c.made, values);
            outcome.To? ==> AllReached(ctx, outcome.next)
  {
    hide Used;
    assert forall k :: 0 <= k < |below| ==> below[k] == c.frames[k];
    assert Used(ctx, c.frames[|below|].func) && Used(ctx, callee.func);
  }

  lemma UnwindReaches(ctx: Context, c: M.Config, below: seq<M.Frame>, fr: M.Frame, ch: M.Choice)
    requires c.frames == below + [fr] && AllReached(ctx, c)
    ensures var outcome := M.Unwind(below, fr, c.made, ch);
            outcome.To? ==> AllReached(ctx, outcome.next)
  {
    hide Used;
    assert forall k :: 0 <= k < |below| ==> below[k] == c.frames[k];
    assert Used(ctx, c.frames[|below|].func);
  }

  /** No step takes a run out of the functions reachable by use. */
  lemma ExecReaches(ctx: Context, certs: seq<Certificate>, c: M.Config, ch: M.Choice)
    requires ConfigOk(ctx, certs, c) && AllReached(ctx, c)
    ensures M.Exec(ctx, c, ch).To? ==> AllReached(ctx, M.Exec(ctx, c, ch).next)
  {
    hide AllReached, M.Perform, M.Enter, M.Unwind, M.Fetch, M.InTables, Known;
    if c.frames != [] {
      var fr, below := c.frames[|c.frames| - 1], c.frames[..|c.frames| - 1];
      assert c.frames == below + [fr];
      UnwindReaches(ctx, c, below, fr, ch);
      if !c.unwinding && fr.func < |ctx.funcs| && M.Fetch(ctx.funcs[fr.func].code, fr.pc).Some? {
        assert FrameOk(ctx, certs, c.made, fr);
        var at := M.Fetch(ctx.funcs[fr.func].code, fr.pc).value;
        var values := if ch.Raise? then [] else ch.values;
        PerformReaches(ctx, c, below, fr, at, values, ch.Proceed? && ch.flag);
        RaiseReaches(ctx, c, below, fr);
        if ch.Dispatch? && ch.callee in c.made && ch.callee.Closure? {
          DispatchReaches(ctx, c, below, fr, ch.callee, ch.values);
        }
      }
    }
  }

  lemma RaiseReaches(ctx: Context, c: M.Config, below: seq<M.Frame>, fr: M.Frame)
    requires c.frames == below + [fr] && AllReached(ctx, c)
    ensures AllReached(ctx, M.Config(below, c.made, true))
  {
    hide Used;
    assert forall k :: 0 <= k < |below| ==> below[k] == c.frames[k];
  }

  lemma {:induction false} RunReaches(ctx: Context, certs: seq<Certificate>, c: M.Config, choices: seq<M.Choice>)
    requires Certified(ctx, certs) && ReifiesFixed(ctx) && ConfigOk(ctx, certs, c) && AllReached(ctx, c)
    ensures M.Run(ctx, c, choices).To? ==> AllReached(ctx, M.Run(ctx, c, choices).next)
    decreases |choices|
  {
    hide ConfigOk, AllReached, Certified, ReifiesFixed, M.Exec;
    if choices != [] {
      ExecReaches(ctx, certs, c, choices[0]);
      StepOk(ctx, certs, c, choices[0]);
      match M.Exec(ctx, c, choices[0])
      case To(next) => RunReaches(ctx, certs, next, choices[1..]);
      case _ =>
    }
  }

  /** However far a run has got, the function of every frame, and of every closure made, is
      reachable from function 0 over the recorded uses: a function that the check calls
      unused never runs. The program's certificates need only be accepted one by one. */
  lemma {:induction false} OnlyUsedRun(ctx: Context, certs: seq<Certificate>, choices: seq<M.Choice>)
    requires Certified(ctx, certs) && Runnable(ctx)
    ensures M.Run(ctx, M.Start(ctx), choices).To? ==> AllReached(ctx, M.Run(ctx, M.Start(ctx), choices).next)
  {
    hide ConfigOk, Accepted, M.Run;
    StartOk(ctx, certs);
    ReachesItself(ProgramUses(ctx), 0);
    RunReaches(ctx, certs, M.Start(ctx), choices);
  }

  /** What it means that the check refuses a program for an unused function: no run of it ever
      enters that function, or makes a closure of it. */
  lemma {:induction false} UnusedNeverRuns(ctx: Context, certs: seq<Certificate>, func: nat, choices: seq<M.Choice>)
    requires ProgramFileChecked(ctx) && |certs| == |ctx.funcs| && Refuses(ctx, certs, Unused(func))
    requires forall i :: 0 <= i < |certs| ==> Certificates.ListsLocals(ctx.funcs[i], certs[i])
    requires Runnable(ctx)
    ensures var outcome := M.Run(ctx, M.Start(ctx), choices);
            outcome.To? ==>
              && (forall k :: 0 <= k < |outcome.next.frames| ==> outcome.next.frames[k].func != func)
              && (forall v :: v in outcome.next.made && v.Closure? ==> v.func != func)
  {
    hide M.Run, Reachable, Accepted;
    OnlyUsedRun(ctx, certs, choices);
  }
}
