/** How the emitter lays blocks out as bytecode (dolang-compile/src/emit.rs,
    `visit_term` and `emit`): terminators are chosen by what comes next, and their
    displacements are refitted until no block moves. */
module Layouts {

  import opened Results
  import B = Bytecode
  import opened Varint
  import opened InstCodec
  import opened FlowGraphs

  /** A block of output: its bytecode, of which the first `termOffset` bytes are its
      instructions and the rest its terminator, and where it was last placed. */
  datatype OutBlock = OutBlock(bytecode: seq<byte>, termOffset: nat, offset: nat)

  /** What is laid out: a graph and the order of its blocks. */
  datatype Plan = Plan(graph: seq<Block>, order: seq<nat>)

  function Position(order: seq<nat>, id: nat): (k: nat)
    ensures k <= |order|
    ensures k < |order| ==> order[k] == id
    ensures id in order ==> k < |order|
  {
    if order == [] then 0
    else if order[|order| - 1] == id then |order| - 1
    else
      var k := Position(order[..|order| - 1], id);
      assert id in order ==> id in order[..|order| - 1];
      if k == |order| - 1 then |order| else k
  }

  function TermOf(plan: Plan, i: nat): Term
    requires i < |plan.order|
  {
    if plan.order[i] < |plan.graph| then plan.graph[plan.order[i]].term else Ret
  }

  function NextOf(plan: Plan, i: nat): Option<nat> {
    if i + 1 < |plan.order| then Some(plan.order[i + 1]) else None
  }

  /** Block `i` goes on to the block placed next. */
  predicate Falls(plan: Plan, i: nat)
    requires i < |plan.order|
  {
    TermOf(plan, i).Branch? && NextOf(plan, i) == Some(TermOf(plan, i).to)
  }

  /** Every branch target is placed; one successor of each `If`, and the success block
      of each `UnpackIf`, comes next. */
  ghost predicate Layable(plan: Plan) {
    && |plan.order| > 0
    && (forall i :: 0 <= i < |plan.order| ==> plan.order[i] < |plan.graph|)
    && (forall i, j :: 0 <= i < j < |plan.order| ==> plan.order[i] != plan.order[j])
    && (forall i :: 0 <= i < |plan.order| ==> TermLayable(plan, i))
  }

  ghost predicate TermLayable(plan: Plan, i: nat)
    requires i < |plan.order|
  {
    var term, next := TermOf(plan, i), NextOf(plan, i);
    && (forall y :: y in Succs(term) ==> y in plan.order)
    && (term.If? ==> next == Some(term.yes) || next == Some(term.no))
    && (term.UnpackIf? ==> next == Some(term.yes))
  }

  function OffsetOf(plan: Plan, blocks: seq<OutBlock>, id: nat): nat {
    var k := Position(plan.order, id);
    if k < |blocks| then blocks[k].offset else 0
  }

  /** The terminator of block `i`, with displacements counted from `src`; `None` where
      control just falls through. */
  function Terminator(plan: Plan, blocks: seq<OutBlock>, i: nat, src: nat): Option<B.Inst>
    requires i < |plan.order|
  {
    var next := NextOf(plan, i);
    match TermOf(plan, i)
    case Ret => Some(B.Ret)
    case ElseFallthrough(kind) => Some(B.ElseFallthrough(kind))
    case NlBranch(depth, indicator) => Some(B.NlBranch(depth, indicator))
    case Branch(to) =>
      if next == Some(to) then None else Some(B.Branch(OffsetOf(plan, blocks, to) - src))
    case If(yes, no) =>
      if next == Some(yes) then Some(B.BranchFalse(OffsetOf(plan, blocks, no) - src))
      else Some(B.BranchTrue(OffsetOf(plan, blocks, yes) - src))
    case UnpackIf(sig, _, no) => Some(B.UnpackBranch(sig, OffsetOf(plan, blocks, no) - src))
  }

  function TermBytes(inst: Option<B.Inst>): seq<byte> {
    if inst.None? then [] else EncodeInst(inst.value)
  }

  function Body(plan: Plan, i: nat): seq<byte>
    requires i < |plan.order|
  {
    if plan.order[i] < |plan.graph| then EncodeAll(plan.graph[plan.order[i]].insts) else []
  }

  /** One block refitted: its old terminator is cut off, and a new one written with
      displacements counted from where the old one ended. */
  function Refit(plan: Plan, blocks: seq<OutBlock>, i: nat, initial: bool): (r: OutBlock)
    requires i < |plan.order| && i < |blocks| && blocks[i].termOffset <= |blocks[i].bytecode|
    ensures r.offset == blocks[i].offset && r.termOffset == blocks[i].termOffset <= |r.bytecode|
    ensures r.bytecode[..r.termOffset] == blocks[i].bytecode[..r.termOffset]
  {
    var b := blocks[i];
    var src := b.offset + |b.bytecode| + if initial then 1 else 0;
    b.(bytecode := b.bytecode[..b.termOffset] + TermBytes(Terminator(plan, blocks, i, src)))
  }

  /** Each block holds its instructions, then a terminator. */
  ghost predicate Bodied(plan: Plan, blocks: seq<OutBlock>) {
    && |blocks| == |plan.order|
    && forall i :: 0 <= i < |blocks| ==>
         blocks[i].termOffset <= |blocks[i].bytecode| && blocks[i].bytecode[..blocks[i].termOffset] == Body(plan, i)
  }

  /** Block `i` moved to `offset` and refitted there. */
  function Advance(plan: Plan, blocks: seq<OutBlock>, i: nat, offset: nat): (r: seq<OutBlock>)
    requires i < |plan.order| && Bodied(plan, blocks)
    ensures Bodied(plan, r) && |r| == |blocks| && r[i].offset == offset
    ensures forall k :: 0 <= k < |blocks| && k != i ==> r[k] == blocks[k]
  {
    var moved := blocks[i := blocks[i].(offset := offset)];
    moved[i := Refit(plan, moved, i, false)]
  }

  /** Blocks `i` on, refitted in turn, each first moved to where the one before ended. */
  function PassFrom(plan: Plan, blocks: seq<OutBlock>, i: nat, offset: nat): (r: seq<OutBlock>)
    requires i <= |plan.order| && Bodied(plan, blocks)
    ensures Bodied(plan, r) && |r| == |blocks|
    decreases |plan.order| - i
  {
    if i == |plan.order| then blocks
    else
      var next := Advance(plan, blocks, i, offset);
      PassFrom(plan, next, i + 1, offset + |next[i].bytecode|)
  }

  function Pass(plan: Plan, blocks: seq<OutBlock>): seq<OutBlock>
    requires Bodied(plan, blocks)
  {
    PassFrom(plan, blocks, 0, 0)
  }

  ghost predicate BodiedBelow(plan: Plan, blocks: seq<OutBlock>, n: nat) {
    && n <= |blocks| == |plan.order|
    && forall i :: 0 <= i < n ==>
         blocks[i].termOffset <= |blocks[i].bytecode| && blocks[i].bytecode[..blocks[i].termOffset] == Body(plan, i)
  }

  /** Block `i` given its instructions and a first guess at its terminator. */
  function Introduce(plan: Plan, blocks: seq<OutBlock>, i: nat, offset: nat): (r: seq<OutBlock>)
    requires i < |plan.order| && BodiedBelow(plan, blocks, i)
    ensures BodiedBelow(plan, r, i + 1) && |r| == |blocks|
    ensures r[i].offset == offset && r[i].termOffset == |Body(plan, i)|
    ensures forall k :: 0 <= k < |blocks| && k != i ==> r[k] == blocks[k]
  {
    var body := Body(plan, i);
    var placed := blocks[i := OutBlock(body, |body|, offset)];
    placed[i := Refit(plan, placed, i, true)]
  }

  /** The first placement: offsets leave room for instructions only. */
  function InitialFrom(plan: Plan, blocks: seq<OutBlock>, i: nat, offset: nat): (r: seq<OutBlock>)
    requires i <= |plan.order| && BodiedBelow(plan, blocks, i)
    ensures Bodied(plan, r)
    decreases |plan.order| - i
  {
    if i == |plan.order| then blocks
    else InitialFrom(plan, Introduce(plan, blocks, i, offset), i + 1, offset + |Body(plan, i)|)
  }

  function Blank(n: nat): seq<OutBlock> {
    seq(n, _ => OutBlock([], 0, 0))
  }

  function Initial(plan: Plan): (r: seq<OutBlock>)
    ensures Bodied(plan, r)
  {
    InitialFrom(plan, Blank(|plan.order|), 0, 0)
  }

  // ----- what a pass leaves -----

  lemma {:induction false} PassPrefix(plan: Plan, blocks: seq<OutBlock>, i: nat, offset: nat, k: nat)
    requires i <= |plan.order| && Bodied(plan, blocks) && k < i
    ensures PassFrom(plan, blocks, i, offset)[k] == blocks[k]
    decreases |plan.order| - i
  {
    hide Advance, Body;
    if i < |plan.order| {
      var next := Advance(plan, blocks, i, offset);
      PassPrefix(plan, next, i + 1, offset + |next[i].bytecode|, k);
    }
  }

  // The first block of a pass is the one it refits first.
  lemma {:induction false} PassFirst(plan: Plan, blocks: seq<OutBlock>, i: nat, offset: nat)
    requires i < |plan.order| && Bodied(plan, blocks)
    ensures PassFrom(plan, blocks, i, offset)[i] == Advance(plan, blocks, i, offset)[i]
    ensures PassFrom(plan, blocks, i, offset)[i].offset == offset
  {
    hide Advance, Body;
    var next := Advance(plan, blocks, i, offset);
    PassPrefix(plan, next, i + 1, offset + |next[i].bytecode|, i);
  }

  /** Each block starts where the one before it ends. */
  ghost predicate Sequential(blocks: seq<OutBlock>) {
    && (|blocks| > 0 ==> blocks[0].offset == 0)
    && forall k :: 0 <= k < |blocks| - 1 ==> blocks[k + 1].offset == blocks[k].offset + |blocks[k].bytecode|
  }

  lemma {:induction false} PassSequential(plan: Plan, blocks: seq<OutBlock>, i: nat, offset: nat, k: nat)
    requires i <= |plan.order| && Bodied(plan, blocks)
    requires i <= k < |plan.order| - 1
    ensures var r := PassFrom(plan, blocks, i, offset);
            |r| == |plan.order| && r[k + 1].offset == r[k].offset + |r[k].bytecode|
    decreases |plan.order| - i
  {
    hide Advance, Body;
    var next := Advance(plan, blocks, i, offset);
    if i < k {
      PassSequential(plan, next, i + 1, offset + |next[i].bytecode|, k);
    } else {
      PassFirst(plan, blocks, i, offset);
      PassFirst(plan, next, i + 1, offset + |next[i].bytecode|);
    }
  }

  lemma PassIsSequential(plan: Plan, blocks: seq<OutBlock>)
    requires Bodied(plan, blocks)
    ensures Sequential(Pass(plan, blocks))
  {
    hide Advance, Body, PassFrom;
    if |plan.order| > 0 {
      PassFirst(plan, blocks, 0, 0);
    }
    forall k | 0 <= k < |plan.order| - 1
      ensures var r := Pass(plan, blocks);
              |r| == |plan.order| && r[k + 1].offset == r[k].offset + |r[k].bytecode|
    {
      PassSequential(plan, blocks, 0, 0, k);
    }
  }

  ghost predicate SameOffsets(a: seq<OutBlock>, b: seq<OutBlock>) {
    |a| == |b| && forall i :: 0 <= i < |a| ==> a[i].offset == b[i].offset
  }

  lemma SameTerminator(plan: Plan, a: seq<OutBlock>, b: seq<OutBlock>, i: nat, src: nat)
    requires i < |plan.order| && SameOffsets(a, b)
    ensures Terminator(plan, a, i, src) == Terminator(plan, b, i, src)
  {
  }

  /** Block `k` ends in the terminator whose displacement counts from `src`. */
  ghost predicate Ends(plan: Plan, offsets: seq<OutBlock>, b: OutBlock, k: nat, src: nat)
    requires k < |plan.order|
  {
    b.bytecode == Body(plan, k) + TermBytes(Terminator(plan, offsets, k, src))
  }

  lemma SameEnds(plan: Plan, a: seq<OutBlock>, b: seq<OutBlock>, block: OutBlock, k: nat, src: nat)
    requires k < |plan.order| && SameOffsets(a, b) && Ends(plan, a, block, k, src)
    ensures Ends(plan, b, block, k, src)
  {
    SameTerminator(plan, a, b, k, src);
  }

  // A block moved to where it already is ends in a terminator counted from where it ended before.
  lemma AdvanceInPlace(plan: Plan, blocks: seq<OutBlock>, i: nat)
    requires i < |plan.order| && Bodied(plan, blocks)
    ensures SameOffsets(blocks, Advance(plan, blocks, i, blocks[i].offset))
    ensures Ends(plan, blocks, Advance(plan, blocks, i, blocks[i].offset)[i], i,
                 blocks[i].offset + |blocks[i].bytecode|)
  {
    hide Terminator, Body, TermBytes;
    assert blocks[i := blocks[i].(offset := blocks[i].offset)] == blocks;
  }

  // A pass that moves nothing refits every block against the same offsets.
  lemma {:induction false} StillPass(plan: Plan, blocks: seq<OutBlock>, i: nat, offset: nat, k: nat)
    requires i <= k < |plan.order| && Bodied(plan, blocks)
    requires SameOffsets(blocks, PassFrom(plan, blocks, i, offset))
    ensures Ends(plan, blocks, PassFrom(plan, blocks, i, offset)[k], k, blocks[k].offset + |blocks[k].bytecode|)
    decreases |plan.order| - i
  {
    hide Advance, Body, Terminator, Ends, TermBytes;
    PassFirst(plan, blocks, i, offset);
    assert PassFrom(plan, blocks, i, offset)[i].offset == blocks[i].offset;
    AdvanceInPlace(plan, blocks, i);
    if i < k {
      var next := Advance(plan, blocks, i, offset);
      StillPass(plan, next, i + 1, offset + |next[i].bytecode|, k);
      SameEnds(plan, next, blocks, PassFrom(plan, blocks, i, offset)[k], k, blocks[k].offset + |blocks[k].bytecode|);
    }
  }

  // ----- the first placement -----

  lemma {:induction false} InitialPrefix(plan: Plan, blocks: seq<OutBlock>, i: nat, offset: nat, k: nat)
    requires i <= |plan.order| && BodiedBelow(plan, blocks, i) && k < i
    ensures |InitialFrom(plan, blocks, i, offset)| == |plan.order|
    ensures InitialFrom(plan, blocks, i, offset)[k] == blocks[k]
    decreases |plan.order| - i
  {
    hide Introduce, Body;
    if i < |plan.order| {
      InitialPrefix(plan, Introduce(plan, blocks, i, offset), i + 1, offset + |Body(plan, i)|, k);
    }
  }

  // Before the first pass, each block starts where the instructions of the one before it end.
  lemma {:induction false} InitialOffsets(plan: Plan, blocks: seq<OutBlock>, i: nat, offset: nat, k: nat)
    requires i <= k < |plan.order| && BodiedBelow(plan, blocks, i)
    ensures var r := InitialFrom(plan, blocks, i, offset);
            && |r| == |plan.order|
            && (k == i ==> r[i].offset == offset)
            && (k + 1 < |plan.order| ==> r[k + 1].offset == r[k].offset + |Body(plan, k)|)
    decreases |plan.order| - i
  {
    hide Introduce, Body;
    var next := Introduce(plan, blocks, i, offset);
    InitialPrefix(plan, next, i + 1, offset + |Body(plan, i)|, i);
    if i < k {
      InitialOffsets(plan, next, i + 1, offset + |Body(plan, i)|, k);
    } else if k + 1 < |plan.order| {
      InitialOffsets(plan, next, i + 1, offset + |Body(plan, i)|, i + 1);
    }
  }

  lemma {:induction false} InitialEnd(plan: Plan, blocks: seq<OutBlock>, offset: nat)
    requires BodiedBelow(plan, blocks, |plan.order|)
    ensures InitialFrom(plan, blocks, |plan.order|, offset) == blocks
  {
  }

  // ----- relaxation -----

  /** The blocks after some number of passes. */
  function Passes(plan: Plan, n: nat): (r: seq<OutBlock>)
    ensures Bodied(plan, r)
  {
    if n == 0 then Initial(plan) else Pass(plan, Passes(plan, n - 1))
  }

  /** Pass `n + 1` moves no block. */
  ghost predicate Still(plan: Plan, n: nat) {
    SameOffsets(Passes(plan, n), Passes(plan, n + 1))
  }

  /** The loop stops after pass `n + 1`: the first to move no block. */
  ghost predicate Settles(plan: Plan, n: nat) {
    Still(plan, n) && forall m :: 0 <= m < n ==> !Still(plan, m)
  }

  /** Block `k`'s terminator counts its displacement from where the block really ends. */
  ghost predicate Exact(plan: Plan, blocks: seq<OutBlock>, k: nat)
    requires k < |plan.order| == |blocks|
  {
    Ends(plan, blocks, blocks[k], k, blocks[k].offset + |blocks[k].bytecode|)
  }

  predicate Displaced(inst: Option<B.Inst>) {
    inst.Some? && (inst.value.Branch? || inst.value.BranchTrue? || inst.value.BranchFalse? || inst.value.UnpackBranch?)
  }

  lemma {:induction false} InitialStart(plan: Plan, k: nat)
    requires k < |plan.order| - 1
    ensures Passes(plan, 0)[k + 1].offset == Passes(plan, 0)[k].offset + |Body(plan, k)|
  {
    hide InitialFrom, Body;
    InitialOffsets(plan, Blank(|plan.order|), 0, 0, k);
  }

  lemma PassesStep(plan: Plan, n: nat)
    ensures Passes(plan, n + 1) == Pass(plan, Passes(plan, n))
  {
  }

  // Whether a block just falls through does not depend on where it ends.
  lemma NoneFromAnywhere(plan: Plan, blocks: seq<OutBlock>, k: nat, src: nat, src': nat)
    requires k < |plan.order| && |TermBytes(Terminator(plan, blocks, k, src))| == 0
    ensures Terminator(plan, blocks, k, src) == None
    ensures Terminator(plan, blocks, k, src') == None
  {
  }

  // A settled block was refitted from where its last version ended.
  lemma RefittedFrom(plan: Plan, n: nat, k: nat)
    requires Settles(plan, n) && k < |plan.order|
    ensures var last, done := Passes(plan, n), Passes(plan, n + 1);
            Ends(plan, done, done[k], k, done[k].offset + |last[k].bytecode|)
  {
    hide Terminator, Body, PassFrom, Passes, TermBytes;
    var last, done := Passes(plan, n), Passes(plan, n + 1);
    PassesStep(plan, n);
    StillPass(plan, last, 0, 0, k);
    SameTerminator(plan, last, done, k, done[k].offset + |last[k].bytecode|);
  }

  // The last pass leaves the length of every block but the last alone, unless it is the
  // first pass, when every block but the last just falls through.
  lemma LengthsHold(plan: Plan, n: nat, k: nat)
    requires Settles(plan, n) && k < |plan.order| - 1
    ensures var last, done := Passes(plan, n), Passes(plan, n + 1);
            |done[k].bytecode| == |last[k].bytecode| || |done[k].bytecode| == |Body(plan, k)|
  {
    hide Passes, Body, Pass;
    var last, done := Passes(plan, n), Passes(plan, n + 1);
    PassesStep(plan, n);
    PassIsSequential(plan, last);
    if n == 0 {
      InitialStart(plan, k);
    } else {
      PassesStep(plan, n - 1);
      PassIsSequential(plan, Passes(plan, n - 1));
    }
  }

  /** When the loop stops, every block starts where the one before it ends, and every
      block but the last ends in a terminator that counts from its real end. */
  lemma {:induction false} SettledIsExact(plan: Plan, n: nat, k: nat)
    requires Settles(plan, n) && k < |plan.order| - 1
    ensures Sequential(Passes(plan, n + 1))
    ensures Exact(plan, Passes(plan, n + 1), k)
  {
    hide Passes, Body, Pass, Terminator, TermBytes;
    var last, done := Passes(plan, n), Passes(plan, n + 1);
    PassesStep(plan, n);
    PassIsSequential(plan, last);
    RefittedFrom(plan, n, k);
    LengthsHold(plan, n, k);
    if |done[k].bytecode| == |Body(plan, k)| {
      NoneFromAnywhere(plan, done, k, done[k].offset + |last[k].bytecode|, done[k].offset + |done[k].bytecode|);
    }
  }

  lemma EncodeInjective(a: B.Inst, b: B.Inst)
    requires Encodable(a) && Encodable(b) && EncodeInst(a) == EncodeInst(b)
    ensures a == b
  {
    InstRoundTrip(EncodeInst(a), 0, a);
    InstRoundTrip(EncodeInst(b), 0, b);
  }

  ghost predicate Fits(inst: Option<B.Inst>) {
    inst.Some? ==> Encodable(inst.value)
  }

  // What a terminator encodes to depends on where it counts from exactly if it has a displacement.
  lemma SourceMatters(plan: Plan, blocks: seq<OutBlock>, k: nat, src: nat, src': nat)
    requires k < |plan.order|
    requires Fits(Terminator(plan, blocks, k, src)) && Fits(Terminator(plan, blocks, k, src'))
    ensures TermBytes(Terminator(plan, blocks, k, src)) == TermBytes(Terminator(plan, blocks, k, src'))
            <==> !Displaced(Terminator(plan, blocks, k, src')) || src == src'
  {
    hide OffsetOf, Operands, EncodeInst;
    var a, b := Terminator(plan, blocks, k, src), Terminator(plan, blocks, k, src');
    if Displaced(b) && TermBytes(a) == TermBytes(b) {
      EncodeInjective(a.value, b.value);
    }
  }

  /** The last block's terminator counts from its real end too if and only if it has no
      displacement, or the last pass did not change the block's length. */
  lemma LastIsExactWhen(plan: Plan, n: nat)
    requires Settles(plan, n) && |plan.order| > 0
    requires var last, done, k := Passes(plan, n), Passes(plan, n + 1), |plan.order| - 1;
             && Fits(Terminator(plan, done, k, done[k].offset + |last[k].bytecode|))
             && Fits(Terminator(plan, done, k, done[k].offset + |done[k].bytecode|))
    ensures var last, done, k := Passes(plan, n), Passes(plan, n + 1), |plan.order| - 1;
            Exact(plan, done, k) <==>
              || !Displaced(Terminator(plan, done, k, done[k].offset + |done[k].bytecode|))
              || |last[k].bytecode| == |done[k].bytecode|
  {
    hide Passes, Body, Terminator, TermBytes, Displaced, Fits;
    var last, done, k := Passes(plan, n), Passes(plan, n + 1), |plan.order| - 1;
    RefittedFrom(plan, n, k);
    var src, end := done[k].offset + |last[k].bytecode|, done[k].offset + |done[k].bytecode|;
    SourceMatters(plan, done, k, src, end);
    var body := Body(plan, k);
    var used, actual := TermBytes(Terminator(plan, done, k, src)), TermBytes(Terminator(plan, done, k, end));
    assert (body + used)[|body|..] == used && (body + actual)[|body|..] == actual;
  }
}
