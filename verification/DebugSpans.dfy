/** Which source spans the emitter keeps for the instructions it writes
    (dolang-compile/src/emit.rs, `SpanEntry`, `visit_term` and `debug_table`), and whether a
    backtrace finds them again (dolang-runtime/src/lib.rs, `FuncDebug::locate`). */
module DebugSpans {

  import opened Results
  import B = Bytecode
  import opened Varint
  import opened InstCodec
  import opened FlowGraphs
  import opened Layouts
  import opened LayoutFlow
  import opened Spans
  import SM = SourceMaps
  import S = Soundness
  import M = Machine

  /** An instruction as it was lowered, unless it was dropped again, and where it comes
      from, unless that is unknown. */
  datatype SourceInst = SourceInst(inst: Option<B.Inst>, span: Option<nat>)

  datatype Source = Source(insts: seq<SourceInst>, term: Option<nat>)

  /** From an offset into its block on, code comes from a span, or from the one before. */
  datatype SpanEntry = SpanEntry(offset: nat, span: Option<nat>)

  function Real(insts: seq<SourceInst>): seq<B.Inst> {
    if insts == [] then []
    else
      var last := |insts| - 1;
      Real(insts[..last]) + if insts[last].inst.None? then [] else [insts[last].inst.value]
  }

  /** Sources of the blocks of a graph. */
  ghost predicate Sourced(graph: seq<Block>, sources: seq<Source>) {
    |sources| == |graph| && forall x :: 0 <= x < |graph| ==> graph[x].insts == Real(sources[x].insts)
  }

  function SourceOf(plan: Plan, sources: seq<Source>, i: nat): Source
    requires i < |plan.order|
  {
    if plan.order[i] < |sources| then sources[plan.order[i]] else Source([], None)
  }

  // ----- entries of one block -----

  /** An entry for each instruction, with its span only if it can raise. */
  function EntriesOf(insts: seq<SourceInst>): seq<SpanEntry> {
    if insts == [] then []
    else
      var last := |insts| - 1;
      EntriesOf(insts[..last])
      + match insts[last].inst
        case None => []
        case Some(inst) =>
          [SpanEntry(|EncodeAll(Real(insts[..last]))|, if B.Raises(inst) then insts[last].span else None)]
  }

  /** The entries once the terminator has been written: the first time it gets one itself,
      and a terminator left out takes the last one away, whichever time it is. */
  function Respan(entries: seq<SpanEntry>, added: SpanEntry, inst: Option<B.Inst>, initial: bool): seq<SpanEntry> {
    var all := if initial then entries + [added] else entries;
    if all == [] then []
    else if inst.None? then all[..|all| - 1]
    else if initial && !B.Raises(inst.value) then all[|all| - 1 := added.(span := None)]
    else all
  }

  /** Where a block's old terminator ends, or is taken to at first. */
  function SourceEnd(b: OutBlock, initial: bool): nat {
    b.offset + |b.bytecode| + if initial then 1 else 0
  }

  function MapOf(marks: seq<SM.Mark>, definition: nat): seq<SM.Entry> {
    if SM.Encode(None, marks) == [] then SM.Encode(None, [SM.Mark(0, definition)]) else SM.Encode(None, marks)
  }

  function TermEntry(plan: Plan, sources: seq<Source>, i: nat): SpanEntry
    requires i < |plan.order|
  {
    SpanEntry(|Body(plan, i)|, SourceOf(plan, sources, i).term)
  }

  /** The entries of a block once it is written. */
  function Written(plan: Plan, sources: seq<Source>, i: nat): seq<SpanEntry>
    requires i < |plan.order|
  {
    var entries := EntriesOf(SourceOf(plan, sources, i).insts);
    var term := TermEntry(plan, sources, i);
    if Falls(plan, i) then entries
    else entries + [if TermOf(plan, i).Ret? then term.(span := None) else term]
  }

  function DropLast<T>(s: seq<T>, n: nat): (r: seq<T>)
    ensures r <= s && |r| == if n <= |s| then |s| - n else 0
  {
    if n <= |s| then s[..|s| - n] else []
  }

  /** The entries of a block after some passes: each pass takes one away from a block that
      falls through. */
  function LeftAfter(plan: Plan, sources: seq<Source>, i: nat, passes: nat): (r: seq<SpanEntry>)
    requires i < |plan.order|
    ensures r <= Written(plan, sources, i)
  {
    if Falls(plan, i) then DropLast(Written(plan, sources, i), passes) else Written(plan, sources, i)
  }

  function AllLeft(plan: Plan, sources: seq<Source>, passes: nat): (r: seq<seq<SpanEntry>>)
    ensures |r| == |plan.order|
    ensures forall i :: 0 <= i < |r| ==> r[i] == LeftAfter(plan, sources, i, passes)
  {
    seq(|plan.order|, i requires 0 <= i < |plan.order| => LeftAfter(plan, sources, i, passes))
  }

  // What comes of the entries when the block is first written: a branch guessed then goes back.
  lemma FirstRespan(plan: Plan, sources: seq<Source>, placed: seq<OutBlock>, i: nat, offset: nat)
    requires i < |plan.order| == |placed| && placed[i].offset == offset
    requires forall k :: 0 <= k < |placed| ==> placed[k].offset <= offset
    ensures Respan(EntriesOf(SourceOf(plan, sources, i).insts), TermEntry(plan, sources, i),
                   Terminator(plan, placed, i, SourceEnd(placed[i], true)), true)
            == Written(plan, sources, i)
  {
    hide EntriesOf, Body;
    var entries, added := EntriesOf(SourceOf(plan, sources, i).insts), TermEntry(plan, sources, i);
    assert (entries + [added])[..|entries|] == entries;
    assert (entries + [added])[|entries| := added.(span := None)] == entries + [added.(span := None)];
  }

  // And each time it is written again.
  lemma NextRespan(plan: Plan, blocks: seq<OutBlock>, i: nat, src: nat, entries: seq<SpanEntry>, added: SpanEntry)
    requires i < |plan.order|
    ensures Respan(entries, added, Terminator(plan, blocks, i, src), false)
            == if Falls(plan, i) then DropLast(entries, 1) else entries
  {
    hide OffsetOf;
  }

  lemma NoneTaken(plan: Plan, sources: seq<Source>, spans: seq<seq<SpanEntry>>)
    requires |spans| == |plan.order|
    requires forall i :: 0 <= i < |spans| ==> spans[i] == Written(plan, sources, i)
    ensures spans == AllLeft(plan, sources, 0)
  {
    hide Written;
    assert forall i :: 0 <= i < |spans| ==> spans[i] == LeftAfter(plan, sources, i, 0);
  }

  lemma {:induction false} SourceLast(insts: seq<SourceInst>, next: SourceInst)
    ensures Real(insts + [next]) == if next.inst.None? then Real(insts) else Real(insts) + [next.inst.value]
    ensures EntriesOf(insts + [next])
            == if next.inst.None? then EntriesOf(insts)
               else EntriesOf(insts) + [SpanEntry(|EncodeAll(Real(insts))|, if B.Raises(next.inst.value) then next.span else None)]
  {
    hide EncodeAll, EncodeInst, B.Raises;
    assert (insts + [next])[..|insts|] == insts;
    assert Real(insts) + [] == Real(insts) && EntriesOf(insts) + [] == EntriesOf(insts);
  }

  lemma NothingWritten()
    ensures Real([]) == [] && EntriesOf([]) == [] && EncodeAll([]) == []
  {
  }

  lemma NextLeft(plan: Plan, sources: seq<Source>, passes: nat, spans: seq<seq<SpanEntry>>)
    requires |spans| == |plan.order|
    requires forall i :: 0 <= i < |spans| ==>
               spans[i] == if Falls(plan, i) then DropLast(AllLeft(plan, sources, passes)[i], 1)
                           else AllLeft(plan, sources, passes)[i]
    ensures spans == AllLeft(plan, sources, passes + 1)
  {
    hide Written;
    forall i | 0 <= i < |spans|
      ensures spans[i] == LeftAfter(plan, sources, i, passes + 1)
    {
      var whole := Written(plan, sources, i);
      assert DropLast(DropLast(whole, passes), 1) == DropLast(whole, passes + 1);
    }
  }

  lemma {:induction false} EncodeAllLast(insts: seq<B.Inst>, inst: B.Inst)
    ensures EncodeAll(insts + [inst]) == EncodeAll(insts) + EncodeInst(inst)
  {
    hide EncodeInst;
    if insts == [] {
      assert insts + [inst] == [inst] && [inst][1..] == [];
    } else {
      assert (insts + [inst])[1..] == insts[1..] + [inst];
      EncodeAllLast(insts[1..], inst);
    }
  }

  /** Entry `j` is that of instruction `j`: it stands where the instruction does. */
  lemma {:induction false} EntriesAlign(insts: seq<SourceInst>, j: nat)
    requires j < |Real(insts)|
    ensures |EntriesOf(insts)| == |Real(insts)|
    ensures EntriesOf(insts)[j].offset == |EncodeAll(Real(insts)[..j])|
    ensures EntriesOf(insts)[j].span.Some? ==> B.Raises(Real(insts)[j])
    ensures EntriesOf(insts)[j].offset + |EncodeInst(Real(insts)[j])| <= |EncodeAll(Real(insts))|
    ensures j + 1 < |Real(insts)| ==>
              EntriesOf(insts)[j + 1].offset == EntriesOf(insts)[j].offset + |EncodeInst(Real(insts)[j])|
  {
    hide EncodeInst, EncodeAll, B.Raises;
    EntriesCount(insts);
    var last := |insts| - 1;
    var whole, init := Real(insts), Real(insts[..last]);
    if insts[last].inst.Some? {
      EncodeAllLast(init, insts[last].inst.value);
      EntriesCount(insts[..last]);
      assert whole[..|init|] == init;
    } else {
      assert whole == init;
    }
    if j < |init| {
      EntriesAlign(insts[..last], j);
      assert whole[..j] == init[..j];
      if j + 1 == |init| && j + 1 < |whole| {
        assert init == init[..j] + [init[j]];
        EncodeAllLast(init[..j], init[j]);
      }
    }
  }

  /** The instructions that were not dropped, in order. */
  function Lowered(insts: seq<SourceInst>): (r: seq<SourceInst>)
    ensures forall k :: 0 <= k < |r| ==> r[k].inst.Some?
  {
    if insts == [] then []
    else
      var last := |insts| - 1;
      Lowered(insts[..last]) + if insts[last].inst.None? then [] else [insts[last]]
  }

  /** A written instruction keeps the span it comes from exactly if the machine can raise there. */
  lemma {:induction false} EntriesKeepSpans(insts: seq<SourceInst>, j: nat)
    requires j < |Lowered(insts)|
    ensures |Lowered(insts)| == |Real(insts)| == |EntriesOf(insts)|
    ensures Real(insts)[j] == Lowered(insts)[j].inst.value
    ensures EntriesOf(insts)[j].span
            == if M.CanRaise(Lowered(insts)[j].inst.value) then Lowered(insts)[j].span else None
  {
    hide EncodeAll, B.Raises, M.CanRaise;
    var last := |insts| - 1;
    EntriesCount(insts);
    EntriesCount(insts[..last]);
    LoweredCount(insts[..last]);
    if j < |Lowered(insts[..last])| {
      EntriesKeepSpans(insts[..last], j);
    } else {
      S.RaisesAgree(insts[last].inst.value);
    }
  }

  lemma {:induction false} LoweredCount(insts: seq<SourceInst>)
    ensures |Lowered(insts)| == |Real(insts)|
  {
    if insts != [] {
      LoweredCount(insts[..|insts| - 1]);
    }
  }

  /** A terminator that is written has an entry of its own behind them, with the span it comes
      from unless it is a return. */
  lemma {:induction false} TermKeepsSpan(plan: Plan, sources: seq<Source>, i: nat)
    requires i < |plan.order|
    ensures var entries := Written(plan, sources, i);
            var own := |EntriesOf(SourceOf(plan, sources, i).insts)|;
            && entries[..own] == EntriesOf(SourceOf(plan, sources, i).insts)
            && |entries| == own + (if Falls(plan, i) then 0 else 1)
            && (!Falls(plan, i) ==>
                  && entries[own].offset == |Body(plan, i)|
                  && entries[own].span == if TermOf(plan, i) == Ret then None else SourceOf(plan, sources, i).term)
  {
    hide EntriesOf, Body;
  }

  lemma {:induction false} EntriesCount(insts: seq<SourceInst>)
    ensures |EntriesOf(insts)| == |Real(insts)|
  {
    hide EncodeInst, EncodeAll, B.Raises;
    if insts != [] {
      EntriesCount(insts[..|insts| - 1]);
    }
  }

  // ----- all blocks -----

  /** The offsets and spans handed to the source map of a block placed at an offset. */
  function BlockMarks(offset: nat, entries: seq<SpanEntry>): seq<SM.Mark> {
    if entries == [] then []
    else
      var last := |entries| - 1;
      BlockMarks(offset, entries[..last])
      + match entries[last].span
        case None => []
        case Some(span) => [SM.Mark(offset + entries[last].offset, span)]
  }

  function MarksOf(blocks: seq<OutBlock>, spans: seq<seq<SpanEntry>>): seq<SM.Mark>
    requires |spans| == |blocks|
  {
    if blocks == [] then []
    else
      var last := |blocks| - 1;
      MarksOf(blocks[..last], spans[..last]) + BlockMarks(blocks[last].offset, spans[last])
  }

  /** Entries come in order, inside their block. */
  ghost predicate Inside(b: OutBlock, entries: seq<SpanEntry>) {
    && (forall j :: 0 <= j < |entries| ==> entries[j].offset < |b.bytecode|)
    && (forall j, k :: 0 <= j < k < |entries| ==> entries[j].offset < entries[k].offset)
  }

  ghost predicate AllInside(blocks: seq<OutBlock>, spans: seq<seq<SpanEntry>>) {
    |spans| == |blocks| && forall i :: 0 <= i < |blocks| ==> Inside(blocks[i], spans[i])
  }

  /** Offsets increase and lie in a range. */
  ghost predicate Climbs(marks: seq<SM.Mark>, lo: nat, hi: nat) {
    && (forall i :: 0 <= i < |marks| ==> lo <= marks[i].offset < hi)
    && (forall i, j :: 0 <= i < j < |marks| ==> marks[i].offset < marks[j].offset)
  }

  lemma ClimbsOn(a: seq<SM.Mark>, b: seq<SM.Mark>, lo: nat, mid: nat, hi: nat)
    requires Climbs(a, lo, mid) && Climbs(b, mid, hi) && lo <= mid <= hi
    ensures Climbs(a + b, lo, hi)
  {
  }

  lemma {:induction false} BlockMarksClimb(offset: nat, entries: seq<SpanEntry>, size: nat)
    requires forall j :: 0 <= j < |entries| ==> entries[j].offset < size
    requires forall j, k :: 0 <= j < k < |entries| ==> entries[j].offset < entries[k].offset
    ensures Climbs(BlockMarks(offset, entries), offset, offset + size)
  {
    if entries != [] {
      var last := |entries| - 1;
      BlockMarksClimb(offset, entries[..last], entries[last].offset);
      if entries[last].span.Some? {
        ClimbsOn(BlockMarks(offset, entries[..last]), [SM.Mark(offset + entries[last].offset, entries[last].span.value)],
                 offset, offset + entries[last].offset, offset + size);
      }
    }
  }

  /** Over all blocks, laid end to end, offsets increase. */
  lemma {:induction false} MarksClimb(blocks: seq<OutBlock>, spans: seq<seq<SpanEntry>>)
    requires Sequential(blocks) && AllInside(blocks, spans)
    ensures Climbs(MarksOf(blocks, spans), 0, |Code(blocks)|)
  {
    if blocks != [] {
      var last := |blocks| - 1;
      SequentialSplits(blocks);
      CodeSplits(blocks);
      MarksClimb(blocks[..last], spans[..last]);
      EndsAtCode(blocks);
      hide Sequential, Code, MarksOf;
      BlockMarksClimb(blocks[last].offset, spans[last], |blocks[last].bytecode|);
      ClimbsOn(MarksOf(blocks[..last], spans[..last]), BlockMarks(blocks[last].offset, spans[last]),
               0, blocks[last].offset, |Code(blocks)|);
      MarksSplit(blocks, spans);
    }
  }

  lemma {:induction false} MarksSplit(blocks: seq<OutBlock>, spans: seq<seq<SpanEntry>>)
    requires |spans| == |blocks| > 0
    ensures var last := |blocks| - 1;
            MarksOf(blocks, spans) == MarksOf(blocks[..last], spans[..last]) + BlockMarks(blocks[last].offset, spans[last])
  {
  }

  lemma {:induction false} EndsAtCode(blocks: seq<OutBlock>)
    requires Sequential(blocks) && blocks != []
    ensures blocks[|blocks| - 1].offset == |Code(blocks[..|blocks| - 1])|
  {
    var last := |blocks| - 1;
    SequentialSplits(blocks);
    if last > 0 {
      EndsAtCode(blocks[..last]);
      CodeSplits(blocks[..last]);
      assert blocks[..last][..last - 1] == blocks[..last - 1];
    }
  }

  // ----- once relaxation is done -----

  // The entries of a block lie inside it.
  lemma {:induction false} WrittenInside(plan: Plan, sources: seq<Source>, blocks: seq<OutBlock>, b: OutBlock, i: nat, src: nat)
    requires i < |plan.order| && plan.order[i] < |plan.graph| && Sourced(plan.graph, sources)
    requires Ends(plan, blocks, b, i, src)
    ensures Inside(b, Written(plan, sources, i))
  {
    hide EncodeInst, EncodeAll, EntriesOf, Real, Terminator;
    var insts := SourceOf(plan, sources, i).insts;
    var entries := EntriesOf(insts);
    EntriesCount(insts);
    forall j | 0 <= j < |entries|
      ensures entries[j].offset < |Body(plan, i)|
    {
      EntriesAlign(insts, j);
    }
    forall j, k | 0 <= j < k < |entries|
      ensures entries[j].offset < entries[k].offset
    {
      EntriesClimb(insts, j, k);
    }
    if !Falls(plan, i) {
      TermWritten(plan, blocks, i, src);
    }
  }

  lemma {:induction false} EntriesClimb(insts: seq<SourceInst>, j: nat, k: nat)
    requires j < k < |EntriesOf(insts)|
    ensures EntriesOf(insts)[j].offset < EntriesOf(insts)[k].offset
    decreases k
  {
    hide EncodeInst, EncodeAll, EntriesOf, Real;
    EntriesCount(insts);
    EntriesAlign(insts, k - 1);
    if j < k - 1 {
      EntriesClimb(insts, j, k - 1);
    }
  }

  lemma TermWritten(plan: Plan, blocks: seq<OutBlock>, i: nat, src: nat)
    requires i < |plan.order| && !Falls(plan, i)
    ensures |TermBytes(Terminator(plan, blocks, i, src))| > 0
  {
    hide OffsetOf, EncodeInst;
  }

  ghost predicate Placed(plan: Plan) {
    forall i :: 0 <= i < |plan.order| ==> plan.order[i] < |plan.graph|
  }

  /** However many entries are left, they lie in order inside the blocks that relaxation leaves. */
  lemma {:induction false} LeftInside(plan: Plan, sources: seq<Source>, n: nat, passes: nat)
    requires Settles(plan, n) && Placed(plan) && Sourced(plan.graph, sources)
    ensures AllInside(Passes(plan, n + 1), AllLeft(plan, sources, passes))
  {
    hide Settles, Passes, Written, Sourced, Inside, Falls, DropLast, Placed;
    var blocks := Passes(plan, n + 1);
    PassesLength(plan, n + 1);
    forall i | 0 <= i < |blocks|
      ensures Inside(blocks[i], LeftAfter(plan, sources, i, passes))
    {
      BlockInside(plan, sources, n, i);
      InsidePrefix(blocks[i], LeftAfter(plan, sources, i, passes), Written(plan, sources, i));
    }
  }

  lemma {:induction false} BlockInside(plan: Plan, sources: seq<Source>, n: nat, i: nat)
    requires Settles(plan, n) && Placed(plan) && Sourced(plan.graph, sources) && i < |plan.order|
    ensures i < |Passes(plan, n + 1)| && Inside(Passes(plan, n + 1)[i], Written(plan, sources, i))
  {
    hide Settles, Passes, Written, Sourced, Ends, Inside;
    PassesLength(plan, n);
    PassesLength(plan, n + 1);
    RefittedFrom(plan, n, i);
    var blocks := Passes(plan, n + 1);
    WrittenInside(plan, sources, blocks, blocks[i], i, blocks[i].offset + |Passes(plan, n)[i].bytecode|);
  }

  lemma InsidePrefix(b: OutBlock, entries: seq<SpanEntry>, whole: seq<SpanEntry>)
    requires Inside(b, whole) && entries <= whole
    ensures Inside(b, entries)
  {
  }

  ghost predicate SpansFit(marks: seq<SM.Mark>) {
    forall k :: 0 <= k < |marks| ==> marks[k].span < SPAN_LIMIT
  }

  /** The offsets handed to the source map's encoder increase, as its subtraction demands. */
  lemma {:induction false} MarksIncrease(plan: Plan, sources: seq<Source>, n: nat, passes: nat)
    requires Settles(plan, n) && Placed(plan) && Sourced(plan.graph, sources)
    requires |Code(Passes(plan, n + 1))| <= SM.OFFSET_LIMIT
    ensures |Passes(plan, n + 1)| == |plan.order|
    ensures var marks := MarksOf(Passes(plan, n + 1), AllLeft(plan, sources, passes));
            SpansFit(marks) ==> SM.Increasing(None, marks)
  {
    hide Settles, Passes, Sourced, MarksOf, AllLeft, Code, Sequential;
    PassesLength(plan, n + 1);
    LeftInside(plan, sources, n, passes);
    RelaxedIsSequential(plan, n);
    MarksClimb(Passes(plan, n + 1), AllLeft(plan, sources, passes));
  }

  /** The map of a function of permitted size passes the file's check, whatever was taken away. */
  lemma {:induction false} EmittedMapPasses(plan: Plan, sources: seq<Source>, n: nat, passes: nat, definition: nat)
    requires Settles(plan, n) && Placed(plan) && Sourced(plan.graph, sources)
    requires |Passes(plan, n + 1)| == |plan.order| && 0 < |Code(Passes(plan, n + 1))| <= SM.FUNC_SIZE
    requires SpansFit(MarksOf(Passes(plan, n + 1), AllLeft(plan, sources, passes))) && definition < SPAN_LIMIT
    ensures SM.MapOk(MapOf(MarksOf(Passes(plan, n + 1), AllLeft(plan, sources, passes)), definition),
                     |Code(Passes(plan, n + 1))|)
  {
    hide Settles, Passes, Sourced, MarksOf, AllLeft, Code, Sequential, SM.MapOk, SM.Encode, SM.Kept;
    var blocks := Passes(plan, n + 1);
    var marks := MarksOf(blocks, AllLeft(plan, sources, passes));
    LeftInside(plan, sources, n, passes);
    RelaxedIsSequential(plan, n);
    MarksClimb(blocks, AllLeft(plan, sources, passes));
    SM.EncodeLength(None, marks);
    SM.KeptIncrease(None, marks);
    if marks != [] {
      SM.EncodedPasses(marks, |Code(blocks)|);
    } else {
      SM.EncodedPasses([SM.Mark(0, definition)], |Code(blocks)|);
    }
  }

  // ----- what the map records -----

  lemma {:induction false} InBlockMarks(offset: nat, entries: seq<SpanEntry>, m: SM.Mark)
    ensures m in BlockMarks(offset, entries) <==>
              exists j :: 0 <= j < |entries| && entries[j].span.Some?
                          && m == SM.Mark(offset + entries[j].offset, entries[j].span.value)
  {
    if entries != [] {
      var last := |entries| - 1;
      var init := entries[..last];
      InBlockMarks(offset, init, m);
      if m in BlockMarks(offset, init) {
        var j :| 0 <= j < |init| && init[j].span.Some? && m == SM.Mark(offset + init[j].offset, init[j].span.value);
        assert entries[j] == init[j];
      }
      if j :| 0 <= j < last && entries[j].span.Some? && m == SM.Mark(offset + entries[j].offset, entries[j].span.value) {
        assert init[j] == entries[j];
      }
    }
  }

  /** Entry `j` of block `i` is the source of a mark. */
  predicate Marks(blocks: seq<OutBlock>, spans: seq<seq<SpanEntry>>, i: int, j: int, m: SM.Mark) {
    && 0 <= i < |blocks| && i < |spans| && 0 <= j < |spans[i]| && spans[i][j].span.Some?
    && m == SM.Mark(blocks[i].offset + spans[i][j].offset, spans[i][j].span.value)
  }

  lemma {:induction false} InMarks(blocks: seq<OutBlock>, spans: seq<seq<SpanEntry>>, m: SM.Mark)
    requires |spans| == |blocks|
    ensures m in MarksOf(blocks, spans) <==> exists i, j :: Marks(blocks, spans, i, j, m)
  {
    if blocks != [] {
      var last := |blocks| - 1;
      InMarks(blocks[..last], spans[..last], m);
      InBlockMarks(blocks[last].offset, spans[last], m);
      MarksSplit(blocks, spans);
      hide MarksOf, BlockMarks;
      if m in MarksOf(blocks[..last], spans[..last]) {
        var i, j :| Marks(blocks[..last], spans[..last], i, j, m);
        assert Marks(blocks, spans, i, j, m);
      } else if m in BlockMarks(blocks[last].offset, spans[last]) {
        var j :| 0 <= j < |spans[last]| && spans[last][j].span.Some?
                 && m == SM.Mark(blocks[last].offset + spans[last][j].offset, spans[last][j].span.value);
        assert Marks(blocks, spans, last, j, m);
      }
      if i, j :| Marks(blocks, spans, i, j, m) {
        if i < last {
          assert Marks(blocks[..last], spans[..last], i, j, m);
        }
      }
    }
  }

  // Blocks laid end to end do not overlap.
  lemma {:induction false} Disjoint(blocks: seq<OutBlock>, i: nat, k: nat)
    requires Sequential(blocks) && i < k < |blocks|
    ensures blocks[i].offset + |blocks[i].bytecode| <= blocks[k].offset
    decreases k
  {
    if i + 1 < k {
      Disjoint(blocks, i, k - 1);
    }
    assert blocks[(k - 1) + 1].offset == blocks[k - 1].offset + |blocks[k - 1].bytecode|;
  }
}
