/** The emitter's state machine (dolang-compile/src/emit.rs, `FuncEmitter`): blocks of
    output that are refitted in place, pass after pass, until no block moves. */
module FuncEmitters {

  import opened Results
  import B = Bytecode
  import opened Varint
  import opened InstCodec
  import opened FlowGraphs
  import opened Layouts
  import opened LayoutFlow
  import opened DebugSpans
  import SM = SourceMaps

  class FuncEmitter {
    ghost const plan: Plan
    const graph: seq<Block>
    const order: seq<nat>
    const sources: seq<Source>
    const blocks: array<OutBlock>
    const spans: array<seq<SpanEntry>>

    constructor (graph: seq<Block>, order: seq<nat>, sources: seq<Source>)
      requires Sourced(graph, sources)
      ensures Valid() && plan == Plan(graph, order) && this.sources == sources
      ensures fresh(blocks) && blocks[..] == Blank(|order|)
      ensures fresh(spans) && forall i :: 0 <= i < |order| ==> spans[i] == []
    {
      this.plan, this.graph, this.order, this.sources := Plan(graph, order), graph, order, sources;
      this.blocks := new OutBlock[|order|](_ => OutBlock([], 0, 0));
      this.spans := new seq<SpanEntry>[|order|](_ => []);
    }

    ghost predicate Valid()
      reads this
    {
      plan == Plan(graph, order) && blocks.Length == spans.Length == |order| && Sourced(graph, sources)
    }

    // Writes a block's instructions, and notes where those that can raise come from.
    method VisitInsts(i: nat)
      requires Valid() && i < |order| && order[i] < |graph| && blocks[i].bytecode == [] && spans[i] == []
      modifies blocks, spans
      ensures blocks[..] == old(blocks[..])[i := OutBlock(Body(plan, i), |Body(plan, i)|, old(blocks[i].offset))]
      ensures spans[..] == old(spans[..])[i := EntriesOf(sources[order[i]].insts)]
    {
      hide EncodeAll, Real, EntriesOf;
      var insts := sources[order[i]].insts;
      var k := 0;
      NothingWritten();
      while k < |insts|
        invariant k <= |insts| && blocks[i] == old(blocks[i]).(bytecode := EncodeAll(Real(insts[..k])))
        invariant spans[i] == EntriesOf(insts[..k])
        invariant forall j :: 0 <= j < |order| && j != i ==> blocks[j] == old(blocks[j]) && spans[j] == old(spans[j])
      {
        WriteInst(i, insts[..k], insts[k]);
        assert insts[..k] + [insts[k]] == insts[..k + 1];
        k := k + 1;
      }
      assert insts[..k] == insts;
      blocks[i] := blocks[i].(termOffset := |blocks[i].bytecode|);
    }

    // Writes one instruction, unless it was dropped.
    method WriteInst(i: nat, ghost before: seq<SourceInst>, next: SourceInst)
      requires Valid() && i < |order|
      requires blocks[i].bytecode == EncodeAll(Real(before)) && spans[i] == EntriesOf(before)
      modifies blocks, spans
      ensures blocks[i] == old(blocks[i]).(bytecode := EncodeAll(Real(before + [next])))
      ensures spans[i] == EntriesOf(before + [next])
      ensures forall j :: 0 <= j < |order| && j != i ==> blocks[j] == old(blocks[j]) && spans[j] == old(spans[j])
    {
      hide EncodeInst, EncodeAll, B.Raises, Real, EntriesOf;
      SourceLast(before, next);
      if next.inst.Some? {
        EncodeAllLast(Real(before), next.inst.value);
        var span := if B.Raises(next.inst.value) then next.span else None;
        spans[i] := spans[i] + [SpanEntry(|blocks[i].bytecode|, span)];
        blocks[i] := blocks[i].(bytecode := blocks[i].bytecode + EncodeInst(next.inst.value));
      }
    }

    // Where a block was last placed.
    method Dest(id: nat) returns (offset: nat)
      requires Valid()
      ensures offset == OffsetOf(plan, blocks[..], id)
    {
      var k := Position(order, id);
      offset := if k < blocks.Length then blocks[k].offset else 0;
    }

    // The terminator a block needs, given what comes next.
    method ChooseTerm(i: nat, src: nat) returns (inst: Option<B.Inst>)
      requires Valid() && i < |order| && order[i] < |graph|
      ensures inst == Terminator(plan, blocks[..], i, src)
    {
      hide OffsetOf;
      var next := if i + 1 < |order| then Some(order[i + 1]) else None;
      match graph[order[i]].term {
        case Ret => inst := Some(B.Ret);
        case ElseFallthrough(kind) => inst := Some(B.ElseFallthrough(kind));
        case NlBranch(depth, indicator) => inst := Some(B.NlBranch(depth, indicator));
        case Branch(to) =>
          if next == Some(to) {
            inst := None;
          } else {
            var dest := Dest(to);
            inst := Some(B.Branch(dest - src));
          }
        case If(yes, no) =>
          if next == Some(yes) {
            var dest := Dest(no);
            inst := Some(B.BranchFalse(dest - src));
          } else {
            var dest := Dest(yes);
            inst := Some(B.BranchTrue(dest - src));
          }
        case UnpackIf(sig, yes, no) =>
          var dest := Dest(no);
          inst := Some(B.UnpackBranch(sig, dest - src));
      }
    }

    // Replaces a block's terminator by one that counts from where the old one ended.
    method VisitTerm(i: nat, initial: bool)
      requires Valid() && i < |order| && order[i] < |graph|
      requires blocks[i].termOffset <= |blocks[i].bytecode|
      modifies blocks, spans
      ensures blocks[..] == old(blocks[..])[i := Refit(plan, old(blocks[..]), i, initial)]
      ensures spans[..] == old(spans[..])[i := Respan(old(spans[i]), SpanEntry(old(blocks[i].termOffset), sources[order[i]].term),
                                                      Terminator(plan, old(blocks[..]), i, SourceEnd(old(blocks[i]), initial)),
                                                      initial)]
    {
      hide Terminator, EncodeInst, B.Raises;
      var b := blocks[i];
      var src := b.offset + |b.bytecode| + if initial then 1 else 0;
      var kept := b.bytecode[..b.termOffset];
      if initial {
        spans[i] := spans[i] + [SpanEntry(b.termOffset, sources[order[i]].term)];
      }
      var inst := ChooseTerm(i, src);
      assert kept + [] == kept;
      if inst.None? {
        if |spans[i]| > 0 {
          spans[i] := spans[i][..|spans[i]| - 1];
        }
        blocks[i] := b.(bytecode := kept);
      } else {
        if initial && !B.Raises(inst.value) {
          spans[i] := spans[i][|spans[i]| - 1 := SpanEntry(b.termOffset, None)];
        }
        blocks[i] := b.(bytecode := kept + EncodeInst(inst.value));
      }
    }

    /** Every block written once, placed as if no block had a terminator. */
    method Begin()
      requires Valid() && Placed(plan) && blocks[..] == Blank(|order|)
      requires forall i :: 0 <= i < |order| ==> spans[i] == []
      modifies blocks, spans
      ensures blocks[..] == Initial(plan)
      ensures spans[..] == AllLeft(plan, sources, 0)
    {
      hide Introduce, InitialFrom, Body, Refit, Written, Falls, AllLeft;
      var offset := 0;
      var i := 0;
      assert BodiedBelow(plan, blocks[..], 0);
      while i < |order|
        invariant i <= |order| && BodiedBelow(plan, blocks[..], i)
        invariant InitialFrom(plan, blocks[..], i, offset) == Initial(plan)
        invariant forall k :: i <= k < |order| ==> blocks[k].bytecode == [] && spans[k] == []
        invariant forall k :: 0 <= k < |order| ==> blocks[k].offset <= offset
        invariant forall k :: 0 <= k < i ==> spans[k] == Written(plan, sources, k)
      {
        offset := BeginBlock(i, offset);
        i := i + 1;
      }
      InitialEnd(plan, blocks[..], offset);
      NoneTaken(plan, sources, spans[..]);
    }

    method BeginBlock(i: nat, offset: nat) returns (next: nat)
      requires Valid() && Placed(plan) && i < |order| && blocks[i].bytecode == [] && spans[i] == []
      requires BodiedBelow(plan, blocks[..], i) && forall k :: 0 <= k < |order| ==> blocks[k].offset <= offset
      modifies blocks, spans
      ensures BodiedBelow(plan, blocks[..], i + 1)
      ensures blocks[..] == Introduce(plan, old(blocks[..]), i, offset)
      ensures next == offset + |Body(plan, i)|
      ensures InitialFrom(plan, old(blocks[..]), i, offset) == InitialFrom(plan, blocks[..], i + 1, next)
      ensures spans[..] == old(spans[..])[i := Written(plan, sources, i)]
    {
      hide Body, Refit, Terminator, Respan, Written, EntriesOf;
      blocks[i] := blocks[i].(offset := offset);
      VisitInsts(i);
      next := offset + |blocks[i].bytecode|;
      ghost var body := Body(plan, i);
      ghost var placed := blocks[..];
      assert placed == old(blocks[..])[i := OutBlock(body, |body|, offset)];
      VisitTerm(i, true);
      FirstRespan(plan, sources, placed, i, offset);
    }

    /** One pass: every block moved to where the one before it ends, and refitted there. */
    method Relax() returns (changing: bool)
      requires Valid() && Placed(plan) && Bodied(plan, blocks[..])
      modifies blocks, spans
      ensures Bodied(plan, blocks[..])
      ensures blocks[..] == Pass(plan, old(blocks[..]))
      ensures changing <==> !SameOffsets(old(blocks[..]), blocks[..])
      ensures forall i :: 0 <= i < |order| ==>
                spans[i] == if Falls(plan, i) then DropLast(old(spans[i]), 1) else old(spans[i])
    {
      hide PassFrom, Body, Bodied, Falls;
      var offset := 0;
      changing := false;
      var i := 0;
      ghost var start := blocks[..];
      while i < |order|
        invariant i <= |order| && Bodied(plan, blocks[..])
        invariant PassFrom(plan, blocks[..], i, offset) == Pass(plan, start)
        invariant forall k :: i <= k < |order| ==> blocks[k] == start[k]
        invariant changing <==> exists k :: 0 <= k < i && blocks[k].offset != start[k].offset
        invariant forall k :: 0 <= k < |order| ==>
                    spans[k] == if k < i && Falls(plan, k) then DropLast(old(spans[k]), 1) else old(spans[k])
      {
        ghost var before := blocks[..];
        var moved;
        moved, offset := RelaxBlock(i, offset);
        assert forall k :: 0 <= k < |order| && k != i ==> blocks[..][k] == before[k];
        assert forall k :: 0 <= k < |order| && k != i ==> blocks[k] == before[k];
        assert moved <==> blocks[i].offset != start[i].offset;
        changing := changing || moved;
        i := i + 1;
      }
      PassEnd(plan, blocks[..], offset);
    }

    method RelaxBlock(i: nat, offset: nat) returns (moved: bool, next: nat)
      requires Valid() && Placed(plan) && i < |order| && Bodied(plan, blocks[..])
      modifies blocks, spans
      ensures Bodied(plan, blocks[..])
      ensures forall k :: 0 <= k < |order| && k != i ==> blocks[..][k] == old(blocks[..])[k]
      ensures moved <==> old(blocks[i].offset) != blocks[i].offset
      ensures PassFrom(plan, old(blocks[..]), i, offset) == PassFrom(plan, blocks[..], i + 1, next)
      ensures forall k :: 0 <= k < |order| ==>
                spans[k] == if k == i && Falls(plan, i) then DropLast(old(spans[k]), 1) else old(spans[k])
    {
      hide Body, Refit, Terminator, Respan, Falls;
      moved := blocks[i].offset != offset;
      if moved {
        blocks[i] := blocks[i].(offset := offset);
      }
      ghost var placed := blocks[..];
      assert placed == old(blocks[..])[i := old(blocks[i]).(offset := offset)];
      VisitTerm(i, false);
      NextRespan(plan, placed, i, SourceEnd(placed[i], false), old(spans[i]),
                 SpanEntry(placed[i].termOffset, sources[order[i]].term));
      next := offset + |blocks[i].bytecode|;
      assert blocks[..] == Advance(plan, old(blocks[..]), i, offset);
    }

    /** The bytecode once a pass moves no block. Relaxation need not end, so it is given up
        after `limit` passes, which the program does not do. */
    method Emit(limit: nat) returns (code: Option<seq<byte>>)
      requires Valid() && Placed(plan) && blocks[..] == Blank(|order|)
      requires forall i :: 0 <= i < |order| ==> spans[i] == []
      modifies blocks, spans
      ensures code.None? <==> forall n :: 0 <= n < limit ==> !Still(plan, n)
      ensures code.Some? ==>
                exists n :: 0 <= n < limit && Settles(plan, n) && blocks[..] == Passes(plan, n + 1)
                            && code.value == Code(Passes(plan, n + 1))
                            && spans[..] == AllLeft(plan, sources, n + 1)
    {
      hide Initial, Pass, Body, SameOffsets, Code, AllLeft, LeftAfter, Falls, DropLast, Written;
      Begin();
      var changing := true;
      var n := 0;
      while changing && n < limit
        invariant n <= limit && blocks[..] == Passes(plan, n) && spans[..] == AllLeft(plan, sources, n)
        invariant if changing then forall m :: 0 <= m < n ==> !Still(plan, m)
                  else n > 0 && Settles(plan, n - 1)
        decreases limit - n
      {
        PassesStep(plan, n);
        changing := Relax();
        NextLeft(plan, sources, n, spans[..]);
        n := n + 1;
      }
      if changing {
        code := None;
      } else {
        var all := Write();
        code := Some(all);
        ghost var last := n - 1;
        assert Settles(plan, last) && Still(plan, last);
      }
    }

    // The offset and span of every entry that has one, in order.
    method DebugMarks() returns (marks: seq<SM.Mark>)
      requires Valid()
      ensures marks == MarksOf(blocks[..], spans[..])
    {
      marks := [];
      var i := 0;
      while i < blocks.Length
        invariant i <= blocks.Length && marks == MarksOf(blocks[..i], spans[..i])
      {
        assert blocks[..i + 1][..i] == blocks[..i] && spans[..i + 1][..i] == spans[..i];
        var j := 0;
        ghost var before := marks;
        while j < |spans[i]|
          invariant j <= |spans[i]| && marks == before + BlockMarks(blocks[i].offset, spans[i][..j])
        {
          assert spans[i][..j + 1][..j] == spans[i][..j];
          var entry := spans[i][j];
          if entry.span.Some? {
            marks := marks + [SM.Mark(blocks[i].offset + entry.offset, entry.span.value)];
          }
          j := j + 1;
        }
        assert spans[i][..j] == spans[i];
        i := i + 1;
      }
      assert blocks[..i] == blocks[..] && spans[..i] == spans[..];
    }

    /** The source map: of the marks, or if there are none, of the definition alone. */
    method DebugTable(definition: nat) returns (sourcemap: seq<SM.Entry>)
      requires Valid()
      ensures sourcemap == MapOf(MarksOf(blocks[..], spans[..]), definition)
    {
      var marks := DebugMarks();
      sourcemap := SM.EncodeSourcemap(marks);
      if sourcemap == [] {
        sourcemap := SM.EncodeSourcemap([SM.Mark(0, definition)]);
      }
    }

    // All blocks one after another.
    method Write() returns (all: seq<byte>)
      ensures all == Code(blocks[..])
    {
      all := [];
      var k := 0;
      while k < blocks.Length
        invariant k <= blocks.Length && all == Code(blocks[..k])
      {
        assert blocks[..k + 1][..k] == blocks[..k];
        all := all + blocks[k].bytecode;
        k := k + 1;
      }
      assert blocks[..k] == blocks[..];
    }
  }

  lemma {:induction false} PassEnd(plan: Plan, blocks: seq<OutBlock>, offset: nat)
    requires Bodied(plan, blocks)
    ensures PassFrom(plan, blocks, |plan.order|, offset) == blocks
  {
  }
}
