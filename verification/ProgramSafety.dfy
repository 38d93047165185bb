/** Every run of a verified program: no step faults, and every frame stays in bounds. */
module ProgramSafety {

  import opened Results
  import opened Bytecode
  import opened Transfer
  import opened Blocks
  import opened Solutions
  import opened Passes
  import opened Soundness
  import opened SyntaxChecks
  import Certificates
  import Programs
  import M = Machine

  /** A program whose certificates a check accepts, each listing every local. */
  ghost predicate Verified(ctx: Context, certs: seq<Certificate>) {
    && |ctx.funcs| > 0
    && Programs.ProgramAccepted(ctx, certs)
    && forall i :: 0 <= i < |certs| ==> Certificates.ListsLocals(ctx.funcs[i], certs[i])
  }

  /** The same, whether or not every function is used. */
  ghost predicate Certified(ctx: Context, certs: seq<Certificate>) {
    && |certs| == |ctx.funcs| > 0
    && forall i :: 0 <= i < |certs| ==>
         Accepted(ctx, ctx.funcs[i], certs[i]) && Certificates.ListsLocals(ctx.funcs[i], certs[i])
  }

  lemma VerifiedIsCertified(ctx: Context, certs: seq<Certificate>)
    requires Verified(ctx, certs)
    ensures Certified(ctx, certs)
  {
    hide Accepted, Certificates.ListsLocals;
  }

  /** The condition a verified program must meet to be run, which acceptance does not give:
      function 0 can be entered without records and arguments, and no module is made with
      the names of a pack that spreads. */
  predicate Runnable(ctx: Context)
    requires |ctx.funcs| > 0
  {
    Enterable(ctx, ctx.funcs[0]) && ReifiesFixed(ctx)
  }

  predicate Enterable(ctx: Context, f: Func) {
    f.upvars == [] && UnpackArity(ctx, f.sig) == 0
  }

  predicate ReifiesFixed(ctx: Context) {
    forall i, k :: 0 <= i < |ctx.funcs| && 0 <= k < |ctx.funcs[i].code| ==>
      !ReifiesSpread(ctx, ctx.funcs[i].code[k].inst)
  }

  ghost predicate FramesOk(ctx: Context, certs: seq<Certificate>, made: set<M.Val>, frames: seq<M.Frame>) {
    && (forall v :: v in made ==> M.WellShaped(ctx, v))
    && forall k :: 0 <= k < |frames| ==> FrameOk(ctx, certs, made, frames[k])
  }

  ghost predicate AllWaiting(frames: seq<M.Frame>) {
    forall k :: 0 <= k < |frames| ==> frames[k].waiting != M.Running
  }

  /** Every frame is where its certificate says; all but the innermost wait, and it
      runs unless an error is on its way. */
  ghost predicate ConfigOk(ctx: Context, certs: seq<Certificate>, c: M.Config) {
    && FramesOk(ctx, certs, c.made, c.frames)
    && if c.unwinding then AllWaiting(c.frames)
       else if |c.frames| > 0 then
         AllWaiting(c.frames[..|c.frames| - 1]) && c.frames[|c.frames| - 1].waiting == M.Running
       else true
  }

  ghost predicate OutcomeOk(ctx: Context, certs: seq<Certificate>, o: M.Outcome) {
    match o
    case To(next) => ConfigOk(ctx, certs, next)
    case Finished => true
    case Fault => false
  }

  // ----- pieces -----

  lemma FrameOkGrows(ctx: Context, certs: seq<Certificate>, made: set<M.Val>, more: set<M.Val>, fr: M.Frame)
    requires FrameOk(ctx, certs, made, fr) && made <= more
    ensures FrameOk(ctx, certs, more, fr)
  {
  }

  lemma FramesOkGrow(ctx: Context, certs: seq<Certificate>, made: set<M.Val>, v: M.Val, frames: seq<M.Frame>)
    requires FramesOk(ctx, certs, made, frames) && M.WellShaped(ctx, v)
    ensures FramesOk(ctx, certs, made + {v}, frames)
  {
    forall k | 0 <= k < |frames|
      ensures FrameOk(ctx, certs, made + {v}, frames[k])
    {
      FrameOkGrows(ctx, certs, made, made + {v}, frames[k]);
    }
  }

  lemma {:induction false} FetchFinds(code: seq<Located>, i: nat)
    requires Contiguous(code) && i < |code|
    ensures M.Fetch(code, code[i].before) == Some(code[i])
  {
    if i < |code| - 1 {
      OffsetsIncrease(code, i, |code| - 1);
      FetchFinds(code[..|code| - 1], i);
    }
  }

  lemma {:induction false} FetchedFrom(code: seq<Located>, pc: int)
    ensures M.Fetch(code, pc).Some? ==> exists k: nat :: k < |code| && code[k] == M.Fetch(code, pc).value && code[k].before == pc
  {
    if code != [] && code[|code| - 1].before != pc {
      FetchedFrom(code[..|code| - 1], pc);
    }
  }

  lemma NewFrameOk(ctx: Context, certs: seq<Certificate>, made: set<M.Val>, func: nat, args: seq<M.Val>)
    requires Certified(ctx, certs) && func < |ctx.funcs|
    requires |args| == UnpackArity(ctx, ctx.funcs[func].sig)
    requires forall j :: 0 <= j < |args| ==> M.Known(made, args[j])
    ensures FrameOk(ctx, certs, made, M.NewFrame(ctx, func, ctx.funcs[func].upvars, args))
  {
    hide At, Accepted;
    var f, cert := ctx.funcs[func], certs[func];
    var fr := M.NewFrame(ctx, func, f.upvars, args);
    var s := Entry(ctx, f);
    EntryKnown(ctx, f, cert);
    assert Sits(f, 0, fr.pc) && Fits(f.locals, fr, s);
  }

  lemma EntryKnown(ctx: Context, f: Func, cert: Certificate)
    requires Accepted(ctx, f, cert)
    ensures Known(ctx, f, cert, 0, Entry(ctx, f)) && Sits(f, 0, 0) && Sum(f.upvars) <= UPVAR_TOTAL
  {
    AcceptedBlock(ctx, f, cert, 0);
    BlockRange(f, 0);
    assert At(ctx, f, cert, 0, 0, Entry(ctx, f));
  }

  lemma EnterOk(ctx: Context, certs: seq<Certificate>, frames: seq<M.Frame>, callee: M.Val,
                made: set<M.Val>, values: seq<M.Val>)
    requires Certified(ctx, certs) && FramesOk(ctx, certs, made, frames) && AllWaiting(frames)
    requires M.WellShaped(ctx, callee)
    ensures OutcomeOk(ctx, certs, M.Enter(ctx, frames, callee, made, values))
  {
    var args := M.Admit(made, values, UnpackArity(ctx, ctx.funcs[callee.func].sig));
    NewFrameOk(ctx, certs, made, callee.func, args);
    var fr := M.NewFrame(ctx, callee.func, callee.shape, args);
    assert (frames + [fr])[..|frames|] == frames;
  }

  // A waiting frame runs again once it is given what it is owed.
  lemma ResumeOk(ctx: Context, certs: seq<Certificate>, made: set<M.Val>, fr: M.Frame, given: seq<M.Val>)
    requires FrameOk(ctx, certs, made, fr) && |given| == Owed(fr.waiting)
    requires forall j :: 0 <= j < |given| ==> M.Known(made, given[j])
    ensures FrameOk(ctx, certs, made,
                    fr.(operands := fr.operands + given, records := Restored(fr), waiting := M.Running))
  {
    hide Known;
    var f := ctx.funcs[fr.func];
    var i, s :| Sits(f, i, fr.pc) && Known(ctx, f, certs[fr.func], i, s) && Fits(f.locals, fr, s);
    var after := fr.(operands := fr.operands + given, records := Restored(fr), waiting := M.Running);
    assert Sits(f, i, after.pc) && Fits(f.locals, after, s);
  }

  lemma RunOk(ctx: Context, certs: seq<Certificate>, below: seq<M.Frame>, fr: M.Frame, made: set<M.Val>)
    requires FramesOk(ctx, certs, made, below) && AllWaiting(below)
    requires FrameOk(ctx, certs, made, fr) && fr.waiting == M.Running
    ensures ConfigOk(ctx, certs, M.Config(below + [fr], made, false))
  {
    hide FrameOk, M.WellShaped;
    assert (below + [fr])[..|below|] == below;
  }

  function Resumed(fr: M.Frame, given: seq<M.Val>): M.Frame {
    M.Frame(fr.func, fr.pc, fr.operands + given, fr.locals, Restored(fr), M.Running)
  }

  lemma ResumedRuns(ctx: Context, certs: seq<Certificate>, below: seq<M.Frame>, fr: M.Frame, made: set<M.Val>,
                    given: seq<M.Val>)
    requires FramesOk(ctx, certs, made, below) && AllWaiting(below)
    requires FrameOk(ctx, certs, made, fr) && |given| == Owed(fr.waiting)
    requires forall j :: 0 <= j < |given| ==> M.Known(made, given[j])
    ensures ConfigOk(ctx, certs, M.Config(below + [Resumed(fr, given)], made, false))
  {
    ResumeOk(ctx, certs, made, fr, given);
    RunOk(ctx, certs, below, Resumed(fr, given), made);
  }

  lemma DeliverOk(ctx: Context, certs: seq<Certificate>, frames: seq<M.Frame>, v: M.Val, made: set<M.Val>)
    requires FramesOk(ctx, certs, made, frames) && AllWaiting(frames) && M.Known(made, v)
    ensures OutcomeOk(ctx, certs, M.Deliver(frames, v, made))
  {
    hide At, Known;
    if frames != [] {
      var top, below := frames[|frames| - 1], frames[..|frames| - 1];
      assert FrameOk(ctx, certs, made, top);
      var given := if top.waiting == M.OnCall then [v] else if top.waiting == M.OnGuard then [v, M.Plain(0)] else [];
      ResumedRuns(ctx, certs, below, top, made, given);
      DeliverIs(frames, v, made);
    }
  }

  lemma DeliverIs(frames: seq<M.Frame>, v: M.Val, made: set<M.Val>)
    requires |frames| > 0
    requires var top := frames[|frames| - 1];
             top.waiting != M.Running && (top.waiting == M.OnGuard ==> |top.records| > 0)
    ensures var top := frames[|frames| - 1];
            var given := if top.waiting == M.OnCall then [v] else if top.waiting == M.OnGuard then [v, M.Plain(0)] else [];
            M.Deliver(frames, v, made) == M.To(M.Config(frames[..|frames| - 1] + [Resumed(top, given)], made, false))
  {
    var top := frames[|frames| - 1];
    assert top.operands + [] == top.operands;
  }

  lemma UnwindIs(below: seq<M.Frame>, top: M.Frame, made: set<M.Val>, ch: M.Choice)
    requires ch.Proceed? && (top.waiting == M.OnDispatch || (top.waiting == M.OnGuard && |top.records| > 0))
    ensures var given := if top.waiting == M.OnGuard then [M.Plain(0), M.Plain(1)] else [];
            M.Unwind(below, top, made, ch) == M.To(M.Config(below + [Resumed(top, given)], made, false))
  {
    assert top.operands + [] == top.operands;
  }

  lemma UnwindOk(ctx: Context, certs: seq<Certificate>, below: seq<M.Frame>, top: M.Frame, made: set<M.Val>, ch: M.Choice)
    requires FramesOk(ctx, certs, made, below) && AllWaiting(below) && FrameOk(ctx, certs, made, top)
    ensures OutcomeOk(ctx, certs, M.Unwind(below, top, made, ch))
  {
    hide Known;
    if ch.Proceed? && (top.waiting == M.OnDispatch || top.waiting == M.OnGuard) {
      var given := if top.waiting == M.OnGuard then [M.Plain(0), M.Plain(1)] else [];
      ResumedRuns(ctx, certs, below, top, made, given);
      UnwindIs(below, top, made, ch);
    }
  }

  // ----- the running frame -----

  /** The running frame, about to perform instruction `i`, which sits in block `b` and
      is claimed state `s`. */
  ghost predicate AboutTo(ctx: Context, certs: seq<Certificate>, made: set<M.Val>, fr: M.Frame,
                          b: nat, i: nat, s: BlockState) {
    && fr.func < |ctx.funcs| == |certs|
    && var f, cert := ctx.funcs[fr.func], certs[fr.func];
       && At(ctx, f, cert, b, i, s)
       && Certificates.ListsLocals(f, cert)
       && Sits(f, i, fr.pc)
       && Ready(ctx, f, f.code[i], fr, made, s)
  }

  lemma RunningReady(ctx: Context, certs: seq<Certificate>, made: set<M.Val>, fr: M.Frame)
    returns (b: nat, i: nat, s: BlockState)
    requires Certified(ctx, certs) && ReifiesFixed(ctx) && FrameOk(ctx, certs, made, fr) && fr.waiting == M.Running
    ensures AboutTo(ctx, certs, made, fr, b, i, s) && M.InTables(ctx, ctx.funcs[fr.func].code[i].inst)
  {
    var f, cert := ctx.funcs[fr.func], certs[fr.func];
    i, s :| Sits(f, i, fr.pc) && Known(ctx, f, cert, i, s) && Fits(f.locals, fr, s);
    b :| At(ctx, f, cert, b, i, s);
    InstReady(ctx, f, cert, b, i, s);
  }

  lemma InstReady(ctx: Context, f: Func, cert: Certificate, b: nat, i: nat, s: BlockState)
    requires At(ctx, f, cert, b, i, s)
    ensures Step(ctx, f, f.code[i].inst, s).Ok? && SlotsInRange(f.locals, f.code[i].inst)
    ensures HasTarget(f.code[i].inst) ==> Target(f.code[i]) >= 0
    ensures M.InTables(ctx, f.code[i].inst)
  {
    hide Step, EffectOf, M.InTables, Run, SyntaxFault;
    StepAccepted(ctx, f, cert, b, i, s);
    SyntaxGivesSlots(ctx, f);
    SyntaxGivesTables(ctx, f, f.code[i]);
    if HasTarget(f.code[i].inst) {
      TargetNatural(f, i);
    }
  }

  lemma TargetNatural(f: Func, i: nat)
    requires Contiguous(f.code) && TargetsOk(f) && i < |f.code| && HasTarget(f.code[i].inst)
    ensures Target(f.code[i]) >= 0
  {
    assert IsBoundary(f, Target(f.code[i]));
  }

  // A frame moved along the fall-through edge of its instruction.
  lemma FallThroughOk(ctx: Context, certs: seq<Certificate>, made: set<M.Val>, more: set<M.Val>, fr: M.Frame,
                      b: nat, i: nat, s: BlockState, after: M.Frame)
    requires AboutTo(ctx, certs, made, fr, b, i, s)
    requires var f := ctx.funcs[fr.func];
             && after.func == fr.func && after.pc == f.code[i].after && !Terminal(f.code[i].inst)
             && (after.waiting == M.OnGuard ==> |after.records| > 0 && after.records[|after.records| - 1] == 0)
             && Fits(f.locals, after, EdgeState(ctx, f.code[i].inst, false, Step(ctx, f, f.code[i].inst, s).value))
             && RecordsOk(f, Restored(after)) && KnownValues(more, after)
    ensures FrameOk(ctx, certs, more, after)
  {
    var f := ctx.funcs[fr.func];
    FallThroughCovered(ctx, f, certs[fr.func], b, i, s);
    assert Sits(f, i + 1, after.pc);
    CoveredIsOk(ctx, certs, more, after, i + 1,
                EdgeState(ctx, f.code[i].inst, false, Step(ctx, f, f.code[i].inst, s).value));
  }

  lemma TakenOk(ctx: Context, certs: seq<Certificate>, made: set<M.Val>, fr: M.Frame,
                b: nat, i: nat, s: BlockState, after: M.Frame)
    requires AboutTo(ctx, certs, made, fr, b, i, s)
    requires var f := ctx.funcs[fr.func];
             && after.func == fr.func && HasTarget(f.code[i].inst) && after.pc == Target(f.code[i])
             && after.waiting == M.Running
             && Fits(f.locals, after, EdgeState(ctx, f.code[i].inst, true, Step(ctx, f, f.code[i].inst, s).value))
             && RecordsOk(f, after.records) && KnownValues(made, after)
    ensures FrameOk(ctx, certs, made, after)
  {
    var f := ctx.funcs[fr.func];
    BranchCovered(ctx, f, certs[fr.func], b, i, s);
    var next := Step(ctx, f, f.code[i].inst, s).value;
    var j :| 0 <= j < |f.code| && f.code[j].before == Target(f.code[i]) && Covered(ctx, f, certs[fr.func], j, next);
    assert Sits(f, j, after.pc);
    CoveredIsOk(ctx, certs, made, after, j, next);
  }

  ghost predicate IsWithin(action: M.Action) {
    && !action.MakeClosure? && !action.GuardCall? && !action.Invoke?
    && !action.Return? && !action.JumpOut? && !action.Complain?
  }

  lemma WithinFitsAll(ctx: Context, f: Func, at: Located, fr: M.Frame, made: set<M.Val>,
                      values: seq<M.Val>, flag: bool, s: BlockState)
    requires Ready(ctx, f, at, fr, made, s) && IsWithin(M.ActionOf(ctx, at.inst))
    ensures WithinFits(ctx, f, at, fr, made, values, flag, s)
  {
    match M.ActionOf(ctx, at.inst)
    case Compute(_, _) | CopyTop | CopyOperand(_) | SwapOperands(_, _) =>
      OperandsFit(ctx, f, at, fr, made, values, flag, s);
    case Jump | JumpIf(_) | Match(_) => JumpsFit(ctx, f, at, fr, made, values, flag, s);
    case ReadSlot(_) | WriteSlot(_) => SlotsFit(ctx, f, at, fr, made, values, flag, s);
    case ReadRecord(_, _) | WriteRecord(_, _) => RecordAccessFits(ctx, f, at, fr, made, values, flag, s);
    case PushRecord(_) => RecordPushFits(ctx, f, at, fr, made, values, flag, s);
    case PopRecord => RecordPopFits(ctx, f, at, fr, made, values, flag, s);
    case CaptureRecord(_, _) => RecordCaptureFits(ctx, f, at, fr, made, values, flag, s);
  }

  lemma WithinOk(ctx: Context, certs: seq<Certificate>, below: seq<M.Frame>, fr: M.Frame, made: set<M.Val>,
                 b: nat, i: nat, s: BlockState, values: seq<M.Val>, flag: bool)
    requires FramesOk(ctx, certs, made, below) && AllWaiting(below)
    requires AboutTo(ctx, certs, made, fr, b, i, s)
    requires IsWithin(M.ActionOf(ctx, ctx.funcs[fr.func].code[i].inst))
    ensures OutcomeOk(ctx, certs, M.Perform(ctx, below, fr, ctx.funcs[fr.func].code[i], made, values, flag))
  {
    hide At, FrameOk, Known, KnownValues, RecordsOk;
    var f := ctx.funcs[fr.func];
    var at := f.code[i];
    WithinFitsAll(ctx, f, at, fr, made, values, flag, s);
    var after := M.Within(ctx, fr, at, made, values, flag).value;
    if after.pc == at.after && !Terminal(at.inst)
       && Fits(f.locals, after, EdgeState(ctx, at.inst, false, Step(ctx, f, at.inst, s).value)) {
      FallThroughOk(ctx, certs, made, made, fr, b, i, s, after);
    } else {
      TakenOk(ctx, certs, made, fr, b, i, s, after);
    }
    RunOk(ctx, certs, below, after, made);
  }

  lemma ClosureOk(ctx: Context, certs: seq<Certificate>, below: seq<M.Frame>, fr: M.Frame, made: set<M.Val>,
                  b: nat, i: nat, s: BlockState, values: seq<M.Val>, flag: bool)
    requires FramesOk(ctx, certs, made, below) && AllWaiting(below)
    requires AboutTo(ctx, certs, made, fr, b, i, s)
    requires M.ActionOf(ctx, ctx.funcs[fr.func].code[i].inst).MakeClosure?
    ensures OutcomeOk(ctx, certs, M.Perform(ctx, below, fr, ctx.funcs[fr.func].code[i], made, values, flag))
  {
    hide At, FrameOk, Fits, Known, KnownValues, RecordsOk;
    var f := ctx.funcs[fr.func];
    var at := f.code[i];
    ClosureFits(ctx, f, at, fr, made, s);
    var closure := M.Closure(M.ActionOf(ctx, at.inst).func, fr.records);
    var after := fr.(pc := at.after, operands := fr.operands + [closure]);
    FallThroughOk(ctx, certs, made, made + {closure}, fr, b, i, s, after);
    FramesOkGrow(ctx, certs, made, closure, below);
    RunOk(ctx, certs, below, after, made + {closure});
  }

  lemma GuardIs(ctx: Context, below: seq<M.Frame>, fr: M.Frame, at: Located, made: set<M.Val>,
                values: seq<M.Val>, flag: bool)
    requires fr.func < |ctx.funcs| && M.ActionOf(ctx, at.inst).GuardCall?
    requires M.WellShaped(ctx, M.Closure(M.ActionOf(ctx, at.inst).func, fr.records + [0]))
    ensures var closure := M.Closure(M.ActionOf(ctx, at.inst).func, fr.records + [0]);
            var after := fr.(pc := at.after, records := fr.records + [0], waiting := M.OnGuard);
            M.Perform(ctx, below, fr, at, made, values, flag)
            == M.Enter(ctx, below + [after], closure, made + {closure}, values)
  {
  }

  lemma InvokeIs(ctx: Context, below: seq<M.Frame>, fr: M.Frame, at: Located, made: set<M.Val>,
                 values: seq<M.Val>, flag: bool)
    requires fr.func < |ctx.funcs| && M.ActionOf(ctx, at.inst).Invoke?
    requires M.ActionOf(ctx, at.inst).args < |fr.operands|
    ensures var args := M.ActionOf(ctx, at.inst).args;
            var callee := fr.operands[|fr.operands| - 1 - args];
            var called := fr.(pc := at.after, operands := M.Top(fr, args + 1), waiting := M.OnCall);
            var native := fr.(pc := at.after, operands := M.Top(fr, args + 1) + M.Admit(made, values, 1));
            M.Perform(ctx, below, fr, at, made, values, flag)
            == if callee.Closure? then M.Enter(ctx, below + [called], callee, made, values)
               else M.To(M.Config(below + [native], made, false))
  {
  }

  lemma GuardOk(ctx: Context, certs: seq<Certificate>, below: seq<M.Frame>, fr: M.Frame, made: set<M.Val>,
                b: nat, i: nat, s: BlockState, values: seq<M.Val>, flag: bool)
    requires Certified(ctx, certs)
    requires FramesOk(ctx, certs, made, below) && AllWaiting(below)
    requires AboutTo(ctx, certs, made, fr, b, i, s)
    requires M.ActionOf(ctx, ctx.funcs[fr.func].code[i].inst).GuardCall?
    ensures OutcomeOk(ctx, certs, M.Perform(ctx, below, fr, ctx.funcs[fr.func].code[i], made, values, flag))
  {
    hide At, FrameOk, FramesOk, AllWaiting, OutcomeOk, Fits, Known, KnownValues, RecordsOk, Terminal;
    hide M.ActionOf, M.Perform, M.Enter, M.WellShaped, Step, EdgeState, UnpackArity;
    var f := ctx.funcs[fr.func];
    var at := f.code[i];
    GuardFits(ctx, f, at, fr, made, s);
    var closure := M.Closure(M.ActionOf(ctx, at.inst).func, fr.records + [0]);
    var after := fr.(pc := at.after, records := fr.records + [0], waiting := M.OnGuard);
    FallThroughOk(ctx, certs, made, made + {closure}, fr, b, i, s, after);
    FramesOkGrow(ctx, certs, made, closure, below);
    CallOk(ctx, certs, below, after, closure, made + {closure}, values);
    GuardIs(ctx, below, fr, at, made, values, flag);
  }

  lemma InvokeOk(ctx: Context, certs: seq<Certificate>, below: seq<M.Frame>, fr: M.Frame, made: set<M.Val>,
                 b: nat, i: nat, s: BlockState, values: seq<M.Val>, flag: bool)
    requires Certified(ctx, certs)
    requires FramesOk(ctx, certs, made, below) && AllWaiting(below)
    requires AboutTo(ctx, certs, made, fr, b, i, s)
    requires M.ActionOf(ctx, ctx.funcs[fr.func].code[i].inst).Invoke?
    ensures OutcomeOk(ctx, certs, M.Perform(ctx, below, fr, ctx.funcs[fr.func].code[i], made, values, flag))
  {
    hide At, FrameOk, FramesOk, AllWaiting, ConfigOk, Fits, KnownValues, RecordsOk, Terminal;
    hide M.ActionOf, M.Perform, M.Enter, M.WellShaped, Step, EdgeState, UnpackArity;
    var f := ctx.funcs[fr.func];
    var at := f.code[i];
    InvokeFits(ctx, f, at, fr, made, values, s);
    InvokeIs(ctx, below, fr, at, made, values, flag);
    var args := M.ActionOf(ctx, at.inst).args;
    var callee := fr.operands[|fr.operands| - 1 - args];
    if callee.Closure? {
      var after := fr.(pc := at.after, operands := M.Top(fr, args + 1), waiting := M.OnCall);
      FallThroughOk(ctx, certs, made, made, fr, b, i, s, after);
      CallOk(ctx, certs, below, after, callee, made, values);
    } else {
      var after := fr.(pc := at.after, operands := M.Top(fr, args + 1) + M.Admit(made, values, 1));
      FallThroughOk(ctx, certs, made, made, fr, b, i, s, after);
      RunOk(ctx, certs, below, after, made);
    }
  }

  // A frame that waits for the call it made.
  lemma CallOk(ctx: Context, certs: seq<Certificate>, below: seq<M.Frame>, after: M.Frame, callee: M.Val,
               made: set<M.Val>, values: seq<M.Val>)
    requires Certified(ctx, certs) && FramesOk(ctx, certs, made, below) && AllWaiting(below)
    requires FrameOk(ctx, certs, made, after) && after.waiting != M.Running
    requires callee.Closure? && M.Known(made, callee)
    ensures OutcomeOk(ctx, certs, M.Enter(ctx, below + [after], callee, made, values))
  {
    hide FrameOk, M.Enter, M.WellShaped, OutcomeOk;
    EnterOk(ctx, certs, below + [after], callee, made, values);
  }

  lemma LeaveOk(ctx: Context, certs: seq<Certificate>, below: seq<M.Frame>, fr: M.Frame, made: set<M.Val>,
                b: nat, i: nat, s: BlockState, values: seq<M.Val>, flag: bool)
    requires FramesOk(ctx, certs, made, below) && AllWaiting(below)
    requires AboutTo(ctx, certs, made, fr, b, i, s)
    requires var action := M.ActionOf(ctx, ctx.funcs[fr.func].code[i].inst);
             action.Return? || action.JumpOut? || action.Complain?
    ensures OutcomeOk(ctx, certs, M.Perform(ctx, below, fr, ctx.funcs[fr.func].code[i], made, values, flag))
  {
    hide At, FrameOk, Fits, Known, KnownValues, RecordsOk;
    var f := ctx.funcs[fr.func];
    LeaveFits(ctx, f, f.code[i], fr, made, s);
    if M.ActionOf(ctx, f.code[i].inst).Return? {
      DeliverOk(ctx, certs, below, fr.operands[0], made);
    }
  }

  lemma PerformOk(ctx: Context, certs: seq<Certificate>, below: seq<M.Frame>, fr: M.Frame, made: set<M.Val>,
                  b: nat, i: nat, s: BlockState, values: seq<M.Val>, flag: bool)
    requires Certified(ctx, certs)
    requires FramesOk(ctx, certs, made, below) && AllWaiting(below)
    requires AboutTo(ctx, certs, made, fr, b, i, s)
    ensures OutcomeOk(ctx, certs, M.Perform(ctx, below, fr, ctx.funcs[fr.func].code[i], made, values, flag))
  {
    hide M.ActionOf, M.Perform, OutcomeOk, FramesOk, AllWaiting, At, Ready;
    match M.ActionOf(ctx, ctx.funcs[fr.func].code[i].inst)
    case MakeClosure(_) => ClosureOk(ctx, certs, below, fr, made, b, i, s, values, flag);
    case GuardCall(_) => GuardOk(ctx, certs, below, fr, made, b, i, s, values, flag);
    case Invoke(_) => InvokeOk(ctx, certs, below, fr, made, b, i, s, values, flag);
    case Return | JumpOut(_) | Complain => LeaveOk(ctx, certs, below, fr, made, b, i, s, values, flag);
    case _ => WithinOk(ctx, certs, below, fr, made, b, i, s, values, flag);
  }

  // ----- every step, and every run -----

  lemma RunningStepOk(ctx: Context, certs: seq<Certificate>, c: M.Config, ch: M.Choice)
    requires Certified(ctx, certs) && ReifiesFixed(ctx)
    requires ConfigOk(ctx, certs, c) && |c.frames| > 0 && !c.unwinding
    ensures OutcomeOk(ctx, certs, M.Exec(ctx, c, ch))
  {
    hide FrameOk, M.Exec;
    var fr, below := c.frames[|c.frames| - 1], c.frames[..|c.frames| - 1];
    assert c.frames == below + [fr];
    RunningFetch(ctx, certs, c, ch, below, fr);
  }

  lemma RunningFetch(ctx: Context, certs: seq<Certificate>, c: M.Config, ch: M.Choice,
                     below: seq<M.Frame>, fr: M.Frame)
    requires Certified(ctx, certs) && ReifiesFixed(ctx) && c.frames == below + [fr] && !c.unwinding
    requires FramesOk(ctx, certs, c.made, below) && AllWaiting(below)
    requires FrameOk(ctx, certs, c.made, fr) && fr.waiting == M.Running
    ensures OutcomeOk(ctx, certs, M.Exec(ctx, c, ch))
  {
    hide At, Known, Fits, KnownValues, RecordsOk;
    var b, i, s := RunningReady(ctx, certs, c.made, fr);
    FetchFinds(ctx.funcs[fr.func].code, i);
    assert c.frames[..|c.frames| - 1] == below;
    var values := if ch.Raise? then [] else ch.values;
    PerformOk(ctx, certs, below, fr, c.made, b, i, s, values, ch.Proceed? && ch.flag);
    if ch.Dispatch? && ch.callee in c.made {
      DispatchOk(ctx, certs, below, fr, c.made, ch.callee, ch.values);
    }
  }

  lemma DispatchOk(ctx: Context, certs: seq<Certificate>, below: seq<M.Frame>, fr: M.Frame, made: set<M.Val>,
                   callee: M.Val, values: seq<M.Val>)
    requires Certified(ctx, certs)
    requires FramesOk(ctx, certs, made, below) && AllWaiting(below)
    requires FrameOk(ctx, certs, made, fr) && fr.waiting == M.Running && callee in made
    ensures OutcomeOk(ctx, certs, M.Enter(ctx, below + [fr.(waiting := M.OnDispatch)], callee, made, values))
  {
    hide FrameOk, M.Enter;
    WaitOk(ctx, certs, made, fr);
    EnterOk(ctx, certs, below + [fr.(waiting := M.OnDispatch)], callee, made, values);
  }

  lemma WaitOk(ctx: Context, certs: seq<Certificate>, made: set<M.Val>, fr: M.Frame)
    requires FrameOk(ctx, certs, made, fr) && fr.waiting == M.Running
    ensures FrameOk(ctx, certs, made, fr.(waiting := M.OnDispatch))
  {
    hide Known;
    var f := ctx.funcs[fr.func];
    var i, s :| Sits(f, i, fr.pc) && Known(ctx, f, certs[fr.func], i, s) && Fits(f.locals, fr, s);
    assert Sits(f, i, fr.(waiting := M.OnDispatch).pc) && Fits(f.locals, fr.(waiting := M.OnDispatch), s);
  }

  /** One step, under any choice, keeps every frame where its certificate says it may
      be, and does not fault. */
  lemma StepOk(ctx: Context, certs: seq<Certificate>, c: M.Config, ch: M.Choice)
    requires Certified(ctx, certs) && ReifiesFixed(ctx) && ConfigOk(ctx, certs, c)
    ensures OutcomeOk(ctx, certs, M.Exec(ctx, c, ch))
  {
    hide FrameOk;
    if c.frames != [] {
      if c.unwinding {
        UnwindOk(ctx, certs, c.frames[..|c.frames| - 1], c.frames[|c.frames| - 1], c.made, ch);
      } else {
        RunningStepOk(ctx, certs, c, ch);
      }
    }
  }

  lemma {:induction false} RunFromOk(ctx: Context, certs: seq<Certificate>, c: M.Config, choices: seq<M.Choice>)
    requires Certified(ctx, certs) && ReifiesFixed(ctx) && ConfigOk(ctx, certs, c)
    ensures OutcomeOk(ctx, certs, M.Run(ctx, c, choices))
    decreases |choices|
  {
    if choices != [] {
      StepOk(ctx, certs, c, choices[0]);
      match M.Exec(ctx, c, choices[0])
      case To(next) => RunFromOk(ctx, certs, next, choices[1..]);
      case _ =>
    }
  }

  lemma StartOk(ctx: Context, certs: seq<Certificate>)
    requires Certified(ctx, certs) && Enterable(ctx, ctx.funcs[0])
    ensures ConfigOk(ctx, certs, M.Start(ctx))
  {
    NewFrameOk(ctx, certs, {}, 0, []);
  }

  // ----- what this means for a run -----

  /** The frame's slots: its operands and locals fit what the certificate and limits allow. */
  ghost predicate InBounds(ctx: Context, certs: seq<Certificate>, fr: M.Frame) {
    && fr.func < |ctx.funcs| == |certs|
    && |fr.operands| <= certs[fr.func].maxOperandDepth
    && |fr.locals| == ctx.funcs[fr.func].locals
    && ctx.funcs[fr.func].upvars <= fr.records && Sum(fr.records) <= UPVAR_TOTAL
  }

  lemma {:induction false} SumAppendZero(a: seq<nat>)
    ensures Sum(a + [0]) == Sum(a)
  {
    assert (a + [0])[..|a|] == a;
  }

  lemma FrameInBounds(ctx: Context, certs: seq<Certificate>, made: set<M.Val>, fr: M.Frame)
    requires FrameOk(ctx, certs, made, fr)
    ensures InBounds(ctx, certs, fr)
  {
    hide At;
    if fr.waiting == M.OnGuard {
      assert fr.records == Restored(fr) + [0];
      SumAppendZero(Restored(fr));
    }
  }

  /** No run of a verified program that can be run faults. Wherever it has got to, every
      frame's operand stack is within the certified depth, its records extend its function's
      declared ones and stay within the limit, and every closure made has its callee's shape. */
  lemma {:induction false} VerifiedRunsAreSafe(ctx: Context, certs: seq<Certificate>, choices: seq<M.Choice>)
    requires Verified(ctx, certs) && Runnable(ctx)
    ensures var outcome := M.Run(ctx, M.Start(ctx), choices);
            && !outcome.Fault?
            && (outcome.To? ==>
                  && (forall k :: 0 <= k < |outcome.next.frames| ==> InBounds(ctx, certs, outcome.next.frames[k]))
                  && (forall v :: v in outcome.next.made ==> M.WellShaped(ctx, v)))
  {
    hide FrameOk, InBounds;
    VerifiedIsCertified(ctx, certs);
    StartOk(ctx, certs);
    RunFromOk(ctx, certs, M.Start(ctx), choices);
    var outcome := M.Run(ctx, M.Start(ctx), choices);
    if outcome.To? {
      forall k | 0 <= k < |outcome.next.frames|
        ensures InBounds(ctx, certs, outcome.next.frames[k])
      {
        FrameInBounds(ctx, certs, outcome.next.made, outcome.next.frames[k]);
      }
    }
  }

  /** With the file's limit on frame slots, operands and locals together fit a frame. */
  lemma {:induction false} FramesFitSlots(ctx: Context, certs: seq<Certificate>, choices: seq<M.Choice>)
    requires Verified(ctx, certs) && Runnable(ctx)
    requires forall i :: 0 <= i < |certs| ==> certs[i].maxOperandDepth + ctx.funcs[i].locals <= FUNC_FRAME_SLOTS
    ensures var outcome := M.Run(ctx, M.Start(ctx), choices);
            outcome.To? ==> forall k :: 0 <= k < |outcome.next.frames| ==>
              |outcome.next.frames[k].operands| + |outcome.next.frames[k].locals| <= FUNC_FRAME_SLOTS
  {
    VerifiedRunsAreSafe(ctx, certs, choices);
  }
}
