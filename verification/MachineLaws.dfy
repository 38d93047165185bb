/** What the machine's instructions undo of each other (dolang-runtime/src/interp.rs, `step`;
    dolang-runtime/src/frame.rs), and what a call leaves of the frame that made it. */
module MachineLaws {

  import opened Results
  import opened Bytecode
  import opened Soundness
  import opened ProgramSafety
  import M = Machine

  /** The frame after an instruction that stays within it, unless the machine faults. */
  function After(ctx: Context, fr: M.Frame, inst: Inst, values: seq<M.Val>): Option<M.Frame>
    requires fr.func < |ctx.funcs|
  {
    M.Within(ctx, fr, Located(fr.pc, inst, fr.pc + 1), {}, values, false)
  }

  /** The frame after two such instructions. */
  function Then(ctx: Context, fr: M.Frame, one: Inst, two: Inst, values: seq<M.Val>): Option<M.Frame>
    requires fr.func < |ctx.funcs|
  {
    match After(ctx, fr, one, values)
    case None => None
    case Some(mid) => if mid.func < |ctx.funcs| then After(ctx, mid, two, values) else None
  }

  /** Two frames that differ in where they are at most. */
  predicate Alike(a: Option<M.Frame>, b: M.Frame) {
    a.Some? && a.value == b.(pc := a.value.pc)
  }

  /** What `Pick` leaves on top. */
  function Copied(ctx: Context, fr: M.Frame, k: nat, values: seq<M.Val>): Option<M.Val>
    requires fr.func < |ctx.funcs|
  {
    match After(ctx, fr, Pick(k), values)
    case None => None
    case Some(after) => if after.operands == [] then None else Some(after.operands[|after.operands| - 1])
  }

  // What an exchange makes of the operands.
  function Exchanged(operands: seq<M.Val>, i: nat, j: nat): seq<M.Val>
    requires i < |operands| && j < |operands|
  {
    var n := |operands|;
    operands[n - 1 - i := operands[n - 1 - j]][n - 1 - j := operands[n - 1 - i]]
  }

  lemma SwapIs(ctx: Context, fr: M.Frame, i: nat, j: nat, values: seq<M.Val>)
    requires fr.func < |ctx.funcs| && i < |fr.operands| && j < |fr.operands|
    ensures After(ctx, fr, Swap(i, j), values) == Some(fr.(pc := fr.pc + 1, operands := Exchanged(fr.operands, i, j)))
  {
  }

  lemma CopiedIs(ctx: Context, fr: M.Frame, k: nat, values: seq<M.Val>)
    requires fr.func < |ctx.funcs| && k < |fr.operands|
    ensures Copied(ctx, fr, k, values) == Some(fr.operands[|fr.operands| - 1 - k])
  {
  }

  /** Exchanging two operands twice, in either order, changes nothing. */
  lemma SwapUndoes(ctx: Context, fr: M.Frame, i: nat, j: nat, values: seq<M.Val>)
    requires fr.func < |ctx.funcs| && i < |fr.operands| && j < |fr.operands|
    ensures Alike(Then(ctx, fr, Swap(i, j), Swap(i, j), values), fr)
    ensures Alike(Then(ctx, fr, Swap(i, j), Swap(j, i), values), fr)
  {
    hide After;
    var swapped := Exchanged(fr.operands, i, j);
    assert Exchanged(swapped, i, j) == fr.operands && Exchanged(swapped, j, i) == fr.operands;
    hide Exchanged;
    var mid := fr.(pc := fr.pc + 1, operands := swapped);
    SwapIs(ctx, fr, i, j, values);
    SwapIs(ctx, mid, i, j, values);
    SwapIs(ctx, mid, j, i, values);
  }

  /** Exchanging two operands moves each to the other's place and no other, as copying one
      before and after shows. */
  lemma SwapMoves(ctx: Context, fr: M.Frame, i: nat, j: nat, k: nat, values: seq<M.Val>)
    requires fr.func < |ctx.funcs| && i < |fr.operands| && j < |fr.operands| && k < |fr.operands|
    ensures var swapped := After(ctx, fr, Swap(i, j), values);
            && swapped.Some? && swapped.value.func == fr.func
            && Copied(ctx, swapped.value, k, values)
               == Copied(ctx, fr, if k == i then j else if k == j then i else k, values)
  {
    SwapIs(ctx, fr, i, j, values);
    hide After, Copied;
    CopiedIs(ctx, fr.(pc := fr.pc + 1, operands := Exchanged(fr.operands, i, j)), k, values);
    CopiedIs(ctx, fr, if k == i then j else if k == j then i else k, values);
  }

  /** Copying the last operand is copying operand 0; either copy can be dropped again. Copying
      operand `k + 1` of a stack with one more operand is copying operand `k`. */
  lemma CopiesDrop(ctx: Context, fr: M.Frame, k: nat, values: seq<M.Val>)
    requires fr.func < |ctx.funcs| && k < |fr.operands|
    ensures After(ctx, fr, Dup, values) == After(ctx, fr, Pick(0), values)
    ensures Alike(Then(ctx, fr, Pick(k), Pop, values), fr)
    ensures var n := |fr.operands|;
            Copied(ctx, fr, 0, values) == Some(fr.operands[n - 1])
    ensures k > 0 ==>
              Copied(ctx, fr, k, values) == Copied(ctx, fr.(operands := fr.operands[..|fr.operands| - 1]), k - 1, values)
  {
    var n := |fr.operands|;
    assert (fr.operands + [fr.operands[n - 1 - k]])[..n] == fr.operands;
    assert fr.operands + [] == fr.operands;
  }

  /** What is stored in a local is what is loaded from it, and no other local changes. */
  lemma StoreThenLoad(ctx: Context, fr: M.Frame, slot: nat, values: seq<M.Val>)
    requires fr.func < |ctx.funcs| && slot < |fr.locals| && fr.operands != []
    ensures var stored := After(ctx, fr, StoreLocal(slot), values);
            && stored.Some? && |stored.value.locals| == |fr.locals|
            && (forall k :: 0 <= k < |fr.locals| && k != slot ==> stored.value.locals[k] == fr.locals[k])
            && Alike(Then(ctx, fr, StoreLocal(slot), LoadLocal(slot), values), fr.(locals := stored.value.locals))
    ensures fr.locals[slot].Some? ==> Alike(Then(ctx, fr, LoadLocal(slot), StoreLocal(slot), values), fr)
  {
    var n := |fr.operands|;
    assert fr.operands[..n - 1] + [fr.operands[n - 1]] == fr.operands;
    if fr.locals[slot].Some? {
      assert (fr.operands + [fr.locals[slot].value])[..n] == fr.operands;
      assert fr.locals[slot := Some(fr.locals[slot].value)] == fr.locals;
    }
  }

  /** A record pushed can be removed again. */
  lemma PopUndoesPush(ctx: Context, fr: M.Frame, count: nat, values: seq<M.Val>)
    requires fr.func < |ctx.funcs| && ctx.funcs[fr.func].upvars <= fr.records
    ensures Alike(Then(ctx, fr, PushUpvars(count), PopUpvars, values), fr)
  {
    assert (fr.records + [count])[..|fr.records|] == fr.records;
  }

  /** A record pushed can be made a module of by a pack of its length, which is one operand more. */
  lemma ReifyTakesPushed(ctx: Context, fr: M.Frame, count: nat, pack: nat, values: seq<M.Val>)
    requires fr.func < |ctx.funcs| && ctx.funcs[fr.func].upvars <= fr.records
    requires PackArity(ctx, pack) == count && !PackSpreads(ctx, pack)
    ensures Then(ctx, fr, PushUpvars(count), Reify(pack), values).Some?
    ensures var after := Then(ctx, fr, PushUpvars(count), Reify(pack), values).value;
            && after.records == fr.records && after.locals == fr.locals
            && |after.operands| == |fr.operands| + 1 && after.operands[..|fr.operands|] == fr.operands
  {
    assert (fr.records + [count])[..|fr.records|] == fr.records;
  }

  // ----- calls -----

  /** A step changes the innermost frame only, or removes it and changes the one below. */
  lemma StepKeepsBelow(ctx: Context, c: M.Config, ch: M.Choice)
    requires M.Exec(ctx, c, ch).To?
    ensures var next := M.Exec(ctx, c, ch).next;
            && |c.frames| <= |next.frames| + 1
            && forall k :: 0 <= k && k + 1 < |c.frames| && k + 1 < |next.frames| ==> next.frames[k] == c.frames[k]
  {
    hide M.Perform, M.Enter, M.Unwind, M.Fetch, M.InTables;
    var fr, below := c.frames[|c.frames| - 1], c.frames[..|c.frames| - 1];
    if c.unwinding {
      UnwindKeeps(below, fr, c.made, ch);
    } else {
      var at := M.Fetch(ctx.funcs[fr.func].code, fr.pc).value;
      PerformKeeps(ctx, below, fr, at, c.made, if ch.Raise? then [] else ch.values, ch.Proceed? && ch.flag);
      if ch.Dispatch? {
        EnterKeeps(ctx, below, fr.(waiting := M.OnDispatch), ch.callee, c.made, ch.values);
      }
    }
  }

  // All frames of `below`, or all but the last, are still there.
  ghost predicate Keeps(below: seq<M.Frame>, o: M.Outcome) {
    o.To? ==>
      && |below| <= |o.next.frames|
      && forall k :: 0 <= k < |below| && k + 1 < |o.next.frames| ==> o.next.frames[k] == below[k]
  }

  lemma EnterKeeps(ctx: Context, below: seq<M.Frame>, fr: M.Frame, callee: M.Val, made: set<M.Val>, values: seq<M.Val>)
    ensures Keeps(below, M.Enter(ctx, below + [fr], callee, made, values))
  {
  }

  lemma UnwindKeeps(below: seq<M.Frame>, fr: M.Frame, made: set<M.Val>, ch: M.Choice)
    ensures Keeps(below, M.Unwind(below, fr, made, ch))
  {
  }

  lemma PerformKeeps(ctx: Context, below: seq<M.Frame>, fr: M.Frame, at: Located, made: set<M.Val>,
                     values: seq<M.Val>, flag: bool)
    requires fr.func < |ctx.funcs|
    ensures Keeps(below, M.Perform(ctx, below, fr, at, made, values, flag))
  {
    hide M.ActionOf, M.Enter, M.Within;
    match M.ActionOf(ctx, at.inst)
    case GuardCall(func) =>
      EnterKeeps(ctx, below, fr.(pc := at.after, records := fr.records + [0], waiting := M.OnGuard),
                 M.Closure(func, fr.records + [0]), made + {M.Closure(func, fr.records + [0])}, values);
    case Invoke(args) =>
      if args < |fr.operands| {
        EnterKeeps(ctx, below, fr.(pc := at.after, operands := M.Top(fr, args + 1), waiting := M.OnCall),
                   fr.operands[|fr.operands| - 1 - args], made, values);
      }
    case _ =>
  }

  /** The run never has fewer than `d` frames. */
  predicate StaysAbove(ctx: Context, c: M.Config, choices: seq<M.Choice>, d: nat)
    decreases |choices|
  {
    && |c.frames| >= d
    && (choices == [] || !M.Exec(ctx, c, choices[0]).To?
        || StaysAbove(ctx, M.Exec(ctx, c, choices[0]).next, choices[1..], d))
  }

  /** Frames that others run above are as they were, however long those run. */
  lemma {:induction false} RunKeepsBelow(ctx: Context, c: M.Config, choices: seq<M.Choice>, d: nat)
    requires StaysAbove(ctx, c, choices, d + 1) && M.Run(ctx, c, choices).To?
    ensures var end := M.Run(ctx, c, choices).next;
            |end.frames| > d && forall k :: 0 <= k < d ==> end.frames[k] == c.frames[k]
    decreases |choices|
  {
    hide M.Exec;
    if choices != [] {
      var next := M.Exec(ctx, c, choices[0]).next;
      assert StaysAbove(ctx, next, choices[1..], d + 1);
      StepKeepsBelow(ctx, c, choices[0]);
      RunKeepsBelow(ctx, next, choices[1..], d);
    }
  }

  /** The frame is about to perform the instruction, as the innermost of a run. */
  ghost predicate Performs(ctx: Context, c: M.Config, below: seq<M.Frame>, fr: M.Frame, at: Located) {
    && c.frames == below + [fr] && !c.unwinding && fr.waiting == M.Running
    && fr.func < |ctx.funcs| && M.Fetch(ctx.funcs[fr.func].code, fr.pc) == Some(at)
    && M.InTables(ctx, at.inst)
  }

  /** The frame is about to return `v`. */
  ghost predicate Returns(ctx: Context, c: M.Config, below: seq<M.Frame>, fr: M.Frame, at: Located, v: M.Val) {
    && Performs(ctx, c, below, fr, at) && at.inst.Ret?
    && fr.operands == [v] && fr.records == ctx.funcs[fr.func].upvars
  }

  lemma ReturnDelivers(ctx: Context, c: M.Config, below: seq<M.Frame>, fr: M.Frame, at: Located, v: M.Val,
                       values: seq<M.Val>, flag: bool)
    requires Returns(ctx, c, below, fr, at, v)
    ensures M.Exec(ctx, c, M.Proceed(values, flag)) == M.Deliver(below, v, c.made)
  {
    hide M.Fetch, M.Deliver;
    assert (below + [fr])[..|below|] == below;
  }

  // A call puts its frame to wait below that of the callee.
  lemma CallWaits(ctx: Context, c: M.Config, below: seq<M.Frame>, fr: M.Frame, at: Located, values: seq<M.Val>, flag: bool)
    requires Performs(ctx, c, below, fr, at) && at.inst.Call?
    requires var args := PackArity(ctx, at.inst.pack);
             && args < |fr.operands| && M.WellShaped(ctx, fr.operands[|fr.operands| - 1 - args])
    ensures var args := PackArity(ctx, at.inst.pack);
            var outcome := M.Exec(ctx, c, M.Proceed(values, flag));
            && outcome.To? && |outcome.next.frames| == |below| + 2 && outcome.next.frames[..|below|] == below
            && outcome.next.frames[|below|]
               == fr.(pc := at.after, operands := fr.operands[..|fr.operands| - args - 1], waiting := M.OnCall)
  {
    hide M.Fetch, M.InTables;
    assert (below + [fr])[..|below|] == below;
    var args := PackArity(ctx, at.inst.pack);
    assert M.ActionOf(ctx, at.inst) == M.Invoke(args);
    hide M.ActionOf;
  }

  /** A call is balanced. Whatever runs above the frame that made it, once the callee returns
      a value, the caller goes on with its locals and records as they were, and that value in
      place of the callee and its arguments. */
  lemma {:induction false} CallIsBalanced(ctx: Context, c: M.Config, below: seq<M.Frame>, fr: M.Frame, at: Located,
                                          ch: M.Choice, choices: seq<M.Choice>, callee: M.Frame, ret: Located,
                                          v: M.Val, last: M.Choice)
    requires Performs(ctx, c, below, fr, at) && at.inst.Call? && ch.Proceed? && last.Proceed?
    requires var args := PackArity(ctx, at.inst.pack);
             && args < |fr.operands| && M.WellShaped(ctx, fr.operands[|fr.operands| - 1 - args])
    requires M.Exec(ctx, c, ch).To? && StaysAbove(ctx, M.Exec(ctx, c, ch).next, choices, |below| + 2)
    requires var outcome := M.Run(ctx, M.Exec(ctx, c, ch).next, choices);
             outcome.To? && outcome.next.frames != []
             && Returns(ctx, outcome.next, outcome.next.frames[..|outcome.next.frames| - 1], callee, ret, v)
             && |outcome.next.frames| == |below| + 2
    ensures var end := M.Run(ctx, M.Exec(ctx, c, ch).next, choices).next;
            var args := PackArity(ctx, at.inst.pack);
            var back := fr.(pc := at.after, operands := fr.operands[..|fr.operands| - args - 1] + [v]);
            M.Exec(ctx, end, last) == M.To(M.Config(below + [back], end.made, false))
  {
    hide M.Exec, M.Fetch, M.InTables, StaysAbove, M.Run;
    CallWaits(ctx, c, below, fr, at, ch.values, ch.flag);
    var begun := M.Exec(ctx, c, ch).next;
    RunKeepsBelow(ctx, begun, choices, |below| + 1);
    var end := M.Run(ctx, begun, choices).next;
    var under := end.frames[..|below| + 1];
    assert under == below + [begun.frames[|below|]] by {
      assert forall k :: 0 <= k < |below| ==> begun.frames[..|below|][k] == begun.frames[k];
    }
    ReturnDelivers(ctx, end, under, callee, ret, v, last.values, last.flag);
    assert under[..|below|] == below;
  }

  // ----- raising and user code -----

  /** An instruction that notes where it is can raise, which removes its frame. */
  lemma RaiseUnwinds(ctx: Context, c: M.Config, below: seq<M.Frame>, fr: M.Frame, at: Located)
    requires Performs(ctx, c, below, fr, at) && Raises(at.inst)
    ensures M.Exec(ctx, c, M.Raise) == M.To(M.Config(below, c.made, true))
  {
    hide M.Fetch, M.InTables;
    RaisesAgree(at.inst);
    assert (below + [fr])[..|below|] == below;
  }

  // User code an instruction dispatches to runs above its frame, which waits as it is.
  lemma DispatchWaits(ctx: Context, c: M.Config, below: seq<M.Frame>, fr: M.Frame, at: Located, callee: M.Val,
                      values: seq<M.Val>)
    requires Performs(ctx, c, below, fr, at) && Raises(at.inst)
    requires !at.inst.NlGuard? && !at.inst.NlBranch? && !at.inst.ElseFallthrough?
    requires callee in c.made && M.WellShaped(ctx, callee)
    ensures var outcome := M.Exec(ctx, c, M.Dispatch(callee, values));
            && outcome.To? && |outcome.next.frames| == |below| + 2 && outcome.next.frames[..|below|] == below
            && outcome.next.frames[|below|] == fr.(waiting := M.OnDispatch)
            && outcome.next.frames[|below| + 1].func == callee.func
  {
    hide M.Fetch, M.InTables, M.Perform;
    RaisesAgree(at.inst);
    assert (below + [fr])[..|below|] == below;
  }

  /** Dispatching to user code is balanced: whatever runs in between, once that code returns, the
      frame is again about to perform the same instruction, just as it was. */
  lemma {:induction false} DispatchIsBalanced(ctx: Context, c: M.Config, below: seq<M.Frame>, fr: M.Frame, at: Located,
                                              callee: M.Val, values: seq<M.Val>, choices: seq<M.Choice>,
                                              user: M.Frame, ret: Located, v: M.Val, last: M.Choice)
    requires Performs(ctx, c, below, fr, at) && Raises(at.inst)
    requires !at.inst.NlGuard? && !at.inst.NlBranch? && !at.inst.ElseFallthrough?
    requires callee in c.made && M.WellShaped(ctx, callee) && last.Proceed?
    requires var begun := M.Exec(ctx, c, M.Dispatch(callee, values));
             && begun.To? && StaysAbove(ctx, begun.next, choices, |below| + 2)
             && M.Run(ctx, begun.next, choices).To?
             && var end := M.Run(ctx, begun.next, choices).next;
                |end.frames| == |below| + 2 && Returns(ctx, end, end.frames[..|below| + 1], user, ret, v)
    ensures var end := M.Run(ctx, M.Exec(ctx, c, M.Dispatch(callee, values)).next, choices).next;
            M.Exec(ctx, end, last) == M.To(M.Config(below + [fr], end.made, false))
  {
    hide M.Exec, M.Fetch, M.InTables, StaysAbove, M.Run;
    DispatchWaits(ctx, c, below, fr, at, callee, values);
    var begun := M.Exec(ctx, c, M.Dispatch(callee, values)).next;
    RunKeepsBelow(ctx, begun, choices, |below| + 1);
    var end := M.Run(ctx, begun, choices).next;
    var under := end.frames[..|below| + 1];
    assert under == below + [begun.frames[|below|]] by {
      assert forall k :: 0 <= k < |below| ==> begun.frames[..|below|][k] == begun.frames[k];
    }
    ReturnDelivers(ctx, end, under, user, ret, v, last.values, last.flag);
    assert under[..|below|] == below;
  }

  // ----- guards -----

  /** A step that raises, or goes on raising, removes the innermost frame and nothing else. */
  lemma StepUnwinds(ctx: Context, c: M.Config, ch: M.Choice)
    requires c.frames != [] && M.Exec(ctx, c, ch).To? && M.Exec(ctx, c, ch).next.unwinding
    ensures M.Exec(ctx, c, ch).next.frames == c.frames[..|c.frames| - 1]
  {
    hide M.Within, M.Fetch, M.InTables, M.ActionOf;
  }

  // A guard puts its frame to wait, over one more record, below that of the guarded function.
  lemma GuardWaits(ctx: Context, c: M.Config, below: seq<M.Frame>, fr: M.Frame, at: Located, values: seq<M.Val>, flag: bool)
    requires Performs(ctx, c, below, fr, at) && at.inst.NlGuard?
    requires M.WellShaped(ctx, M.Closure(at.inst.func, fr.records + [0]))
    ensures var outcome := M.Exec(ctx, c, M.Proceed(values, flag));
            && outcome.To? && |outcome.next.frames| == |below| + 2 && outcome.next.frames[..|below|] == below
            && outcome.next.frames[|below|] == fr.(pc := at.after, records := fr.records + [0], waiting := M.OnGuard)
  {
    hide M.Fetch, M.InTables;
    assert (below + [fr])[..|below|] == below;
    assert M.ActionOf(ctx, at.inst) == M.GuardCall(at.inst.func);
    hide M.ActionOf;
  }

  /** A guard is running: it was entered from `c`, and what it guards has not left yet. */
  ghost predicate Guarding(ctx: Context, c: M.Config, below: seq<M.Frame>, fr: M.Frame, at: Located,
                           ch: M.Choice, choices: seq<M.Choice>) {
    && Performs(ctx, c, below, fr, at) && at.inst.NlGuard? && ch.Proceed?
    && M.WellShaped(ctx, M.Closure(at.inst.func, fr.records + [0]))
    && M.Exec(ctx, c, ch).To? && StaysAbove(ctx, M.Exec(ctx, c, ch).next, choices, |below| + 2)
    && M.Run(ctx, M.Exec(ctx, c, ch).next, choices).To?
  }

  lemma {:induction false} GuardStillWaits(ctx: Context, c: M.Config, below: seq<M.Frame>, fr: M.Frame, at: Located,
                                           ch: M.Choice, choices: seq<M.Choice>)
    requires Guarding(ctx, c, below, fr, at, ch, choices)
    ensures var end := M.Run(ctx, M.Exec(ctx, c, ch).next, choices).next;
            && |end.frames| >= |below| + 2
            && end.frames[..|below| + 1] == below + [fr.(pc := at.after, records := fr.records + [0], waiting := M.OnGuard)]
  {
    hide M.Exec, M.Fetch, M.InTables, StaysAbove, M.Run;
    GuardWaits(ctx, c, below, fr, at, ch.values, ch.flag);
    var begun := M.Exec(ctx, c, ch).next;
    RunKeepsBelow(ctx, begun, choices, |below| + 1);
    assert forall k :: 0 <= k < |below| ==> begun.frames[..|below|][k] == begun.frames[k];
  }

  /** A guard is balanced. Once what it guards returns a value, its frame goes on with locals and
      records as they were, the value and no indicator on top. */
  lemma {:induction false} GuardIsBalanced(ctx: Context, c: M.Config, below: seq<M.Frame>, fr: M.Frame, at: Located,
                                           ch: M.Choice, choices: seq<M.Choice>, guarded: M.Frame, ret: Located,
                                           v: M.Val, last: M.Choice)
    requires Guarding(ctx, c, below, fr, at, ch, choices) && last.Proceed?
    requires var end := M.Run(ctx, M.Exec(ctx, c, ch).next, choices).next;
             |end.frames| == |below| + 2 && Returns(ctx, end, end.frames[..|below| + 1], guarded, ret, v)
    ensures var end := M.Run(ctx, M.Exec(ctx, c, ch).next, choices).next;
            var back := fr.(pc := at.after, operands := fr.operands + [v, M.Plain(0)]);
            M.Exec(ctx, end, last) == M.To(M.Config(below + [back], end.made, false))
  {
    hide M.Exec, M.Fetch, M.InTables, StaysAbove, M.Run;
    GuardStillWaits(ctx, c, below, fr, at, ch, choices);
    var end := M.Run(ctx, M.Exec(ctx, c, ch).next, choices).next;
    var under := end.frames[..|below| + 1];
    ReturnDelivers(ctx, end, under, guarded, ret, v, last.values, last.flag);
    assert under[..|below|] == below && (fr.records + [0])[..|fr.records|] == fr.records;
  }

  /** Once what it guards is left by an error or a branch, the guard may catch it: its frame goes
      on with locals and records as they were, no value and an indicator on top. */
  lemma {:induction false} GuardCatches(ctx: Context, c: M.Config, below: seq<M.Frame>, fr: M.Frame, at: Located,
                                        ch: M.Choice, choices: seq<M.Choice>, leave: M.Choice, last: M.Choice)
    requires Guarding(ctx, c, below, fr, at, ch, choices) && last.Proceed?
    requires var end := M.Run(ctx, M.Exec(ctx, c, ch).next, choices).next;
             && |end.frames| == |below| + 2
             && M.Exec(ctx, end, leave).To? && M.Exec(ctx, end, leave).next.unwinding
    ensures var end := M.Run(ctx, M.Exec(ctx, c, ch).next, choices).next;
            var left := M.Exec(ctx, end, leave).next;
            var back := fr.(pc := at.after, operands := fr.operands + [M.Plain(0), M.Plain(1)]);
            M.Exec(ctx, left, last) == M.To(M.Config(below + [back], left.made, false))
  {
    GuardStillWaits(ctx, c, below, fr, at, ch, choices);
    hide M.Exec, M.Fetch, M.InTables, StaysAbove, M.Run;
    var end := M.Run(ctx, M.Exec(ctx, c, ch).next, choices).next;
    StepUnwinds(ctx, end, leave);
    var left := M.Exec(ctx, end, leave).next;
    var waiting := fr.(pc := at.after, records := fr.records + [0], waiting := M.OnGuard);
    assert left.frames == below + [waiting];
    CatchIs(ctx, left, below, waiting, last);
    assert (fr.records + [0])[..|fr.records|] == fr.records;
  }

  lemma CatchIs(ctx: Context, c: M.Config, below: seq<M.Frame>, fr: M.Frame, ch: M.Choice)
    requires c.frames == below + [fr] && c.unwinding && fr.waiting == M.OnGuard && fr.records != [] && ch.Proceed?
    ensures M.Exec(ctx, c, ch)
            == M.To(M.Config(below + [fr.(operands := fr.operands + [M.Plain(0), M.Plain(1)],
                                          records := fr.records[..|fr.records| - 1], waiting := M.Running)],
                             c.made, false))
  {
    assert (below + [fr])[..|below|] == below;
  }
}
