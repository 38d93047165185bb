/** What a backtrace finds in the source map the emitter writes: for each instruction, the
    last span left before it (dolang-compile/src/emit.rs, `debug_table`;
    dolang-runtime/src/lib.rs, `FuncDebug::locate`). */
module SpanLookups {

  import opened Results
  import B = Bytecode
  import opened Varint
  import opened InstCodec
  import opened FlowGraphs
  import opened Layouts
  import opened LayoutFlow
  import opened Spans
  import opened DebugSpans
  import LastBlocks
  import SM = SourceMaps

  // ----- what is in effect -----

  /** The last span among the entries of the blocks before block `i` and the first `k` of its own. */
  function SpanBefore(spans: seq<seq<SpanEntry>>, i: nat, k: nat): Option<nat>
    requires i < |spans| && k <= |spans[i]|
    decreases i, k
  {
    if k > 0 then
      if spans[i][k - 1].span.Some? then spans[i][k - 1].span else SpanBefore(spans, i, k - 1)
    else if i > 0 then SpanBefore(spans, i - 1, |spans[i - 1]|)
    else None
  }

  /** The first span among them. */
  function FirstBefore(spans: seq<seq<SpanEntry>>, i: nat, k: nat): Option<nat>
    requires i < |spans| && k <= |spans[i]|
    decreases i, k
  {
    if k > 0 then
      if FirstBefore(spans, i, k - 1).Some? then FirstBefore(spans, i, k - 1) else spans[i][k - 1].span
    else if i > 0 then FirstBefore(spans, i - 1, |spans[i - 1]|)
    else None
  }

  /** The first span of all; with none, that of the definition. */
  function FirstSpan(spans: seq<seq<SpanEntry>>, definition: nat): nat {
    if spans == [] then definition
    else
      var first := FirstBefore(spans, |spans| - 1, |spans[|spans| - 1]|);
      if first.Some? then first.value else definition
  }

  /** The span in effect there: the last one before, and before the first one, the first. */
  function InEffect(spans: seq<seq<SpanEntry>>, definition: nat, i: nat, k: nat): nat
    requires i < |spans| && k <= |spans[i]|
  {
    var last := SpanBefore(spans, i, k);
    if last.Some? then last.value else FirstSpan(spans, definition)
  }

  // ----- entries that need not be there -----

  /** Of each block's entries in `b`, `a` has some first ones. */
  ghost predicate Shortened(a: seq<seq<SpanEntry>>, b: seq<seq<SpanEntry>>) {
    |a| == |b| && forall i :: 0 <= i < |b| ==> a[i] <= b[i]
  }

  function Least(a: nat, b: nat): nat {
    if a < b then a else b
  }

  /** Every span that `b` has and `a` has not is the one in effect in `a` all the same. */
  ghost predicate Agrees(a: seq<seq<SpanEntry>>, b: seq<seq<SpanEntry>>, definition: nat)
    requires Shortened(a, b)
  {
    forall i, j :: 0 <= i < |b| && |a[i]| <= j < |b[i]| && b[i][j].span.Some? ==>
      b[i][j].span.value == InEffect(a, definition, i, |a[i]|)
  }

  lemma {:induction false} NoneBefore(spans: seq<seq<SpanEntry>>, i: nat, k: nat)
    requires i < |spans| && k <= |spans[i]|
    ensures SpanBefore(spans, i, k) == None <==> FirstBefore(spans, i, k) == None
    decreases i, k
  {
    if k > 0 {
      NoneBefore(spans, i, k - 1);
    } else if i > 0 {
      NoneBefore(spans, i - 1, |spans[i - 1]|);
    }
  }

  // A first span stays the first.
  lemma {:induction false} FirstStays(spans: seq<seq<SpanEntry>>, definition: nat, i: nat, k: nat)
    requires i < |spans| && k <= |spans[i]| && FirstBefore(spans, i, k).Some?
    ensures FirstSpan(spans, definition) == FirstBefore(spans, i, k).value
    decreases |spans| - i, |spans[i]| - k
  {
    if k < |spans[i]| {
      FirstStays(spans, definition, i, k + 1);
    } else if i + 1 < |spans| {
      FirstStays(spans, definition, i + 1, 0);
    }
  }

  lemma {:induction false} AgreesBefore(a: seq<seq<SpanEntry>>, b: seq<seq<SpanEntry>>, definition: nat, i: nat, k: nat)
    requires Shortened(a, b) && Agrees(a, b, definition) && i < |b| && k <= |b[i]|
    ensures SpanBefore(b, i, k) == None ==> SpanBefore(a, i, Least(k, |a[i]|)) == None
    ensures SpanBefore(b, i, k).Some? ==> SpanBefore(b, i, k).value == InEffect(a, definition, i, Least(k, |a[i]|))
    decreases i, k
  {
    hide FirstSpan;
    if k > 0 {
      AgreesBefore(a, b, definition, i, k - 1);
      if k <= |a[i]| {
        assert a[i][k - 1] == b[i][k - 1];
      }
    } else if i > 0 {
      AgreesBefore(a, b, definition, i - 1, |b[i - 1]|);
    }
  }

  lemma {:induction false} AgreesFirst(a: seq<seq<SpanEntry>>, b: seq<seq<SpanEntry>>, definition: nat, i: nat, k: nat)
    requires Shortened(a, b) && Agrees(a, b, definition) && i < |b| && k <= |b[i]|
    ensures FirstBefore(b, i, k).Some? ==> FirstBefore(b, i, k).value == FirstSpan(a, definition)
    decreases i, k
  {
    hide FirstSpan;
    if k > 0 {
      AgreesFirst(a, b, definition, i, k - 1);
      if FirstBefore(b, i, k - 1).None? && b[i][k - 1].span.Some? {
        NoneBefore(b, i, k - 1);
        AgreesBefore(a, b, definition, i, k - 1);
        if k <= |a[i]| {
          assert a[i][k - 1] == b[i][k - 1];
          NoneBefore(a, i, k - 1);
          FirstStays(a, definition, i, k);
        }
      }
    } else if i > 0 {
      AgreesFirst(a, b, definition, i - 1, |b[i - 1]|);
    }
  }

  lemma {:induction false} AgreesFirstSpan(a: seq<seq<SpanEntry>>, b: seq<seq<SpanEntry>>, definition: nat)
    requires Shortened(a, b) && Agrees(a, b, definition)
    ensures FirstSpan(a, definition) == FirstSpan(b, definition)
  {
    if b != [] {
      var last := |b| - 1;
      AgreesFirst(a, b, definition, last, |b[last]|);
      AgreesBefore(a, b, definition, last, |b[last]|);
      NoneBefore(b, last, |b[last]|);
      NoneBefore(a, last, |a[last]|);
    }
  }

  /** Then the spans in effect are the same throughout. */
  lemma {:induction false} AgreesInEffect(a: seq<seq<SpanEntry>>, b: seq<seq<SpanEntry>>, definition: nat, i: nat, k: nat)
    requires Shortened(a, b) && Agrees(a, b, definition) && i < |b| && k <= |b[i]|
    ensures InEffect(b, definition, i, k) == InEffect(a, definition, i, Least(k, |a[i]|))
  {
    hide FirstSpan, SpanBefore, Agrees;
    AgreesBefore(a, b, definition, i, k);
    AgreesFirstSpan(a, b, definition);
  }

  /** What need not be there beside fewer entries need not be there beside more. */
  lemma {:induction false} AgreesBetween(a: seq<seq<SpanEntry>>, b: seq<seq<SpanEntry>>, c: seq<seq<SpanEntry>>,
                                         definition: nat)
    requires Shortened(a, b) && Shortened(b, c) && Shortened(a, c) && Agrees(a, c, definition)
    ensures Agrees(a, b, definition) && Agrees(b, c, definition)
  {
    hide InEffect;
    forall i, j | 0 <= i < |b| && |a[i]| <= j < |b[i]| && b[i][j].span.Some?
      ensures b[i][j].span.value == InEffect(a, definition, i, |a[i]|)
    {
      assert c[i][j] == b[i][j];
    }
    assert Agrees(a, b, definition);
    forall i, j | 0 <= i < |c| && |b[i]| <= j < |c[i]| && c[i][j].span.Some?
      ensures c[i][j].span.value == InEffect(b, definition, i, |b[i]|)
    {
      AgreesInEffect(a, b, definition, i, |b[i]|);
    }
  }

  // ----- where an offset falls among the entries -----

  /** The entries placed at an offset or before it are those of the blocks before block `i`
      and the first `k` of its own. */
  ghost predicate Splits(blocks: seq<OutBlock>, spans: seq<seq<SpanEntry>>, i: nat, k: nat, offset: nat) {
    && i < |blocks| == |spans| && k <= |spans[i]|
    && forall i', j' :: 0 <= i' < |spans| && 0 <= j' < |spans[i']| ==>
         (blocks[i'].offset + spans[i'][j'].offset <= offset <==> i' < i || (i' == i && j' < k))
  }

  // The entries of the last block, the first `k` of which are placed no later than the offset.
  lemma {:induction false} BlockLookup(marks: seq<SM.Mark>, start: nat, entries: seq<SpanEntry>, k: nat, offset: nat)
    requires k <= |entries|
    requires forall j :: 0 <= j < |entries| ==> (start + entries[j].offset <= offset <==> j < k)
    ensures SM.Lookup(marks + BlockMarks(start, entries), offset)
            == if LastSpan(entries[..k]).Some? then LastSpan(entries[..k]) else SM.Lookup(marks, offset)
    decreases |entries|
  {
    if entries == [] {
      assert marks + BlockMarks(start, entries) == marks;
    } else {
      var last := |entries| - 1;
      var init := entries[..last];
      BlockLookup(marks, start, init, Least(k, last), offset);
      assert init[..Least(k, last)] == entries[..Least(k, last)];
      var before := marks + BlockMarks(start, init);
      if entries[last].span.Some? {
        var m := SM.Mark(start + entries[last].offset, entries[last].span.value);
        assert marks + BlockMarks(start, entries) == before + [m];
        assert (before + [m])[..|before|] == before;
      } else {
        assert marks + BlockMarks(start, entries) == before;
      }
      assert k == |entries| ==> entries[..k] == entries && entries[..k][..last] == init;
    }
  }

  function LastSpan(entries: seq<SpanEntry>): Option<nat> {
    if entries == [] then None
    else if entries[|entries| - 1].span.Some? then entries[|entries| - 1].span
    else LastSpan(entries[..|entries| - 1])
  }

  lemma {:induction false} LastIsBefore(spans: seq<seq<SpanEntry>>, i: nat, k: nat)
    requires i < |spans| && k <= |spans[i]|
    ensures SpanBefore(spans, i, k)
            == if LastSpan(spans[i][..k]).Some? then LastSpan(spans[i][..k]) else SpanBefore(spans, i, 0)
    decreases k
  {
    if k > 0 {
      assert spans[i][..k][..k - 1] == spans[i][..k - 1];
      LastIsBefore(spans, i, k - 1);
    }
  }

  // Later blocks do not matter.
  lemma {:induction false} BeforeInPrefix(spans: seq<seq<SpanEntry>>, n: nat, i: nat, k: nat)
    requires i < n <= |spans| && k <= |spans[i]|
    ensures SpanBefore(spans[..n], i, k) == SpanBefore(spans, i, k)
    ensures FirstBefore(spans[..n], i, k) == FirstBefore(spans, i, k)
    decreases i, k
  {
    if k > 0 {
      BeforeInPrefix(spans, n, i, k - 1);
    } else if i > 0 {
      BeforeInPrefix(spans, n, i - 1, |spans[i - 1]|);
    }
  }

  /** Among the marks of all entries, the latest no later than an offset is the last span before it. */
  lemma {:induction false} MarksLookup(blocks: seq<OutBlock>, spans: seq<seq<SpanEntry>>, i: nat, k: nat, offset: nat)
    requires Splits(blocks, spans, i, k, offset)
    ensures SM.Lookup(MarksOf(blocks, spans), offset) == SpanBefore(spans, i, k)
    decreases |blocks|
  {
    hide SM.Lookup, BlockMarks;
    var last := |blocks| - 1;
    var init := MarksOf(blocks[..last], spans[..last]);
    MarksSplit(blocks, spans);
    if i < last {
      BlockLookup(init, blocks[last].offset, spans[last], 0, offset);
      MarksLookup(blocks[..last], spans[..last], i, k, offset);
      BeforeInPrefix(spans, last, i, k);
    } else {
      BlockLookup(init, blocks[last].offset, spans[last], k, offset);
      LastIsBefore(spans, i, k);
      if last > 0 {
        MarksLookup(blocks[..last], spans[..last], last - 1, |spans[last - 1]|, offset);
        BeforeInPrefix(spans, last, last - 1, |spans[last - 1]|);
      } else {
        NoMarks(blocks[..last], spans[..last], offset);
      }
    }
  }

  lemma {:induction false} NoMarks(blocks: seq<OutBlock>, spans: seq<seq<SpanEntry>>, offset: nat)
    requires blocks == [] && spans == []
    ensures MarksOf(blocks, spans) == [] && SM.Lookup(MarksOf(blocks, spans), offset) == None
  {
  }

  function HeadSpan(marks: seq<SM.Mark>): Option<nat> {
    if marks == [] then None else Some(marks[0].span)
  }

  lemma {:induction false} BlockHead(marks: seq<SM.Mark>, spans: seq<seq<SpanEntry>>, i: nat, start: nat, k: nat)
    requires i < |spans| && k <= |spans[i]| && HeadSpan(marks) == FirstBefore(spans, i, 0)
    ensures HeadSpan(marks + BlockMarks(start, spans[i][..k])) == FirstBefore(spans, i, k)
    decreases k
  {
    if k == 0 {
      assert spans[i][..0] == [] && marks + BlockMarks(start, []) == marks;
    } else {
      assert spans[i][..k][..k - 1] == spans[i][..k - 1];
      BlockHead(marks, spans, i, start, k - 1);
      var before := marks + BlockMarks(start, spans[i][..k - 1]);
      if spans[i][k - 1].span.Some? {
        var m := SM.Mark(start + spans[i][k - 1].offset, spans[i][k - 1].span.value);
        assert marks + BlockMarks(start, spans[i][..k]) == before + [m];
      } else {
        assert marks + BlockMarks(start, spans[i][..k]) == before;
      }
    }
  }

  lemma {:induction false} MarksHead(blocks: seq<OutBlock>, spans: seq<seq<SpanEntry>>)
    requires |spans| == |blocks| > 0
    ensures HeadSpan(MarksOf(blocks, spans)) == FirstBefore(spans, |spans| - 1, |spans[|spans| - 1]|)
    decreases |blocks|
  {
    hide BlockMarks;
    var last := |blocks| - 1;
    MarksSplit(blocks, spans);
    var init := MarksOf(blocks[..last], spans[..last]);
    if last > 0 {
      MarksHead(blocks[..last], spans[..last]);
      BeforeInPrefix(spans, last, last - 1, |spans[last - 1]|);
    } else {
      NoMarks(blocks[..last], spans[..last], 0);
    }
    BlockHead(init, spans, last, blocks[last].offset, |spans[last]|);
    assert spans[last][..|spans[last]|] == spans[last];
  }

  // ----- lookups in the map -----

  lemma {:induction false} LookupSame(marks: seq<SM.Mark>, a: nat, b: nat)
    requires forall k :: 0 <= k < |marks| ==> marks[k].offset <= a || marks[k].offset > b
    requires a <= b
    ensures SM.Lookup(marks, a) == SM.Lookup(marks, b)
  {
    if marks != [] {
      LookupSame(marks[..|marks| - 1], a, b);
    }
  }

  /** Wherever in the code no other mark comes between, the map finds the span of a mark. */
  lemma {:induction false} MarkFound(marks: seq<SM.Mark>, m: SM.Mark, offset: nat)
    requires SM.Increasing(None, marks) && m in marks && m.offset <= offset
    requires forall k :: 0 <= k < |marks| ==> marks[k].offset <= m.offset || marks[k].offset > offset
    ensures SM.Lookup(SM.Decode(None, SM.Encode(None, marks)).marks, offset) == Some(m.span)
  {
    hide SM.Lookup, SM.Decode, SM.Encode, SM.Kept;
    var k :| 0 <= k < |marks| && marks[k] == m;
    SM.MapRoundTrip(None, marks);
    SM.LookupFinds(None, marks, k);
    var kept := SM.Kept(None, marks);
    assert [] + kept == kept;
    SM.KeptIncrease(None, marks);
    forall i | 0 <= i < |kept|
      ensures kept[i].offset <= m.offset || kept[i].offset > offset
    {
      if i > 0 {
        var j :| 0 <= j < |marks| && kept[i] == marks[j];
      }
    }
    LookupSame(kept, m.offset, offset);
  }

  lemma {:induction false} LatestMark(marks: seq<SM.Mark>, offset: nat) returns (k: nat)
    requires SM.Increasing(None, marks) && SM.Lookup(marks, offset).Some?
    ensures k < |marks| && marks[k].offset <= offset && SM.Lookup(marks, offset) == Some(marks[k].span)
    ensures forall l :: 0 <= l < |marks| ==> marks[l].offset <= marks[k].offset || marks[l].offset > offset
    decreases |marks|
  {
    var last := |marks| - 1;
    if marks[last].offset <= offset {
      k := last;
    } else {
      k := LatestMark(marks[..last], offset);
      assert forall l :: 0 <= l < last ==> marks[l] == marks[..last][l];
    }
  }

  lemma {:induction false} EarlierThanAll(marks: seq<SM.Mark>, offset: nat)
    requires SM.Lookup(marks, offset) == None
    ensures forall k :: 0 <= k < |marks| ==> marks[k].offset > offset
  {
    if marks != [] {
      EarlierThanAll(marks[..|marks| - 1], offset);
    }
  }

  /** A lookup in the map of some marks finds the latest mark's span; before the first mark,
      the first one's; and with none, the definition's. */
  lemma {:induction false} MapFinds(marks: seq<SM.Mark>, definition: nat, offset: nat)
    requires SM.Increasing(None, marks) && definition < SPAN_LIMIT
    ensures SM.Lookup(SM.Decode(None, MapOf(marks, definition)).marks, offset)
            == Some(if SM.Lookup(marks, offset).Some? then SM.Lookup(marks, offset).value
                    else if marks != [] then marks[0].span else definition)
  {
    hide SM.Lookup, SM.Decode, SM.Encode, SM.Kept;
    SM.EncodeLength(None, marks);
    SM.KeptIncrease(None, marks);
    if marks == [] {
      var only := [SM.Mark(0, definition)];
      MarkFound(only, only[0], offset);
      NothingFound(offset);
    } else if SM.Lookup(marks, offset).Some? {
      var k := LatestMark(marks, offset);
      MarkFound(marks, marks[k], offset);
    } else {
      EarlierThanAll(marks, offset);
      SM.MapRoundTrip(None, marks);
      var kept := SM.Kept(None, marks);
      KeptHead(marks);
      forall i | 1 <= i < |kept|
        ensures kept[i].offset > offset
      {
        var j :| 0 <= j < |marks| && kept[i] == marks[j];
      }
      SM.LookupIs(kept, 1, offset);
    }
  }

  lemma {:induction false} NothingFound(offset: nat)
    ensures SM.Lookup([], offset) == None
  {
  }

  lemma {:induction false} KeptHead(marks: seq<SM.Mark>)
    requires marks != []
    ensures SM.Kept(None, marks) != [] && SM.Kept(None, marks)[0] == SM.Mark(0, marks[0].span)
  {
  }

  /** Entry `j` of block `i` has a span, and an offset lies behind it, before the next entry
      and inside the block: by `EntriesAlign`, in the instruction or terminator it is for. */
  ghost predicate Covers(plan: Plan, sources: seq<Source>, blocks: seq<OutBlock>, i: nat, j: nat, offset: nat) {
    && i < |plan.order| == |blocks| && j < |Written(plan, sources, i)|
    && var entries, start := Written(plan, sources, i), blocks[i].offset;
       && entries[j].span.Some?
       && start + entries[j].offset <= offset
          < start + if j + 1 < |entries| then entries[j + 1].offset else |blocks[i].bytecode|
  }

  // ----- a function's map -----

  ghost predicate SpansInRange(plan: Plan, sources: seq<Source>) {
    forall i, j :: 0 <= i < |plan.order| && 0 <= j < |Written(plan, sources, i)| && Written(plan, sources, i)[j].span.Some? ==>
      Written(plan, sources, i)[j].span.value < SPAN_LIMIT
  }

  /** Blocks that relaxation may leave, in code that offsets can address. */
  ghost predicate LaidOut(plan: Plan, sources: seq<Source>, blocks: seq<OutBlock>, definition: nat) {
    && |blocks| == |plan.order| && Sequential(blocks) && |Code(blocks)| <= SM.OFFSET_LIMIT
    && AllInside(blocks, AllLeft(plan, sources, 0))
    && SpansInRange(plan, sources) && definition < SPAN_LIMIT
  }

  /** The blocks that relaxation leaves are. */
  lemma {:induction false} EmittedIsLaidOut(plan: Plan, sources: seq<Source>, n: nat, definition: nat)
    requires Settles(plan, n) && Placed(plan) && Sourced(plan.graph, sources)
    requires |Code(Passes(plan, n + 1))| <= SM.OFFSET_LIMIT && SpansInRange(plan, sources) && definition < SPAN_LIMIT
    ensures LaidOut(plan, sources, Passes(plan, n + 1), definition)
  {
    hide Settles, Passes, Sourced, Code, Written, Sequential, AllLeft, SpansInRange;
    PassesLength(plan, n + 1);
    RelaxedIsSequential(plan, n);
    LeftInside(plan, sources, n, 0);
  }

  /** What a backtrace finds at an offset, once passes have taken entries away. */
  function Found(plan: Plan, sources: seq<Source>, blocks: seq<OutBlock>, passes: nat, definition: nat, offset: nat): Option<nat>
    requires |blocks| == |plan.order|
  {
    SM.Lookup(SM.Decode(None, MapOf(MarksOf(blocks, AllLeft(plan, sources, passes)), definition)).marks, offset)
  }

  lemma {:induction false} MarksFit(blocks: seq<OutBlock>, spans: seq<seq<SpanEntry>>, whole: seq<seq<SpanEntry>>)
    requires Sequential(blocks) && AllInside(blocks, whole) && Shortened(spans, whole) && |Code(blocks)| <= SM.OFFSET_LIMIT
    requires forall i, j :: 0 <= i < |whole| && 0 <= j < |whole[i]| && whole[i][j].span.Some? ==>
               whole[i][j].span.value < SPAN_LIMIT
    ensures SM.Increasing(None, MarksOf(blocks, spans))
  {
    hide MarksOf, Code, Sequential;
    var marks := MarksOf(blocks, spans);
    forall k | 0 <= k < |marks|
      ensures marks[k].span < SPAN_LIMIT
    {
      InMarks(blocks, spans, marks[k]);
      var i, j :| Marks(blocks, spans, i, j, marks[k]);
      assert spans[i][j] == whole[i][j];
    }
    assert AllInside(blocks, spans);
    MarksClimb(blocks, spans);
  }

  // An offset behind entry `j` of block `i` and before the next one splits the entries left.
  lemma {:induction false} SplitsAfter(blocks: seq<OutBlock>, spans: seq<seq<SpanEntry>>, whole: seq<seq<SpanEntry>>,
                                       i: nat, j: nat, offset: nat)
    requires Sequential(blocks) && AllInside(blocks, whole) && Shortened(spans, whole)
    requires i < |blocks| && j < |whole[i]|
    requires blocks[i].offset + whole[i][j].offset <= offset
             < blocks[i].offset + if j + 1 < |whole[i]| then whole[i][j + 1].offset else |blocks[i].bytecode|
    ensures Splits(blocks, spans, i, Least(j + 1, |spans[i]|), offset)
  {
    hide Sequential;
    assert Inside(blocks[i], whole[i]);
    forall i', j' | 0 <= i' < |spans| && 0 <= j' < |spans[i']|
      ensures blocks[i'].offset + spans[i'][j'].offset <= offset
              <==> i' < i || (i' == i && j' < Least(j + 1, |spans[i]|))
    {
      assert Inside(blocks[i'], whole[i']) && spans[i'][j'] == whole[i'][j'];
      if i' < i {
        Disjoint(blocks, i', i);
      } else if i' > i {
        Disjoint(blocks, i, i');
      }
    }
  }

  /** At any byte of an instruction that can raise, a backtrace finds the span in effect there. */
  lemma {:induction false} FoundInEffect(plan: Plan, sources: seq<Source>, blocks: seq<OutBlock>, passes: nat, definition: nat,
                                         i: nat, j: nat, offset: nat)
    requires LaidOut(plan, sources, blocks, definition) && Covers(plan, sources, blocks, i, j, offset)
    ensures Found(plan, sources, blocks, passes, definition, offset)
            == Some(InEffect(AllLeft(plan, sources, passes), definition, i, Least(j + 1, |AllLeft(plan, sources, passes)[i]|)))
  {
    hide MarksOf, Code, Sequential, Written, LeftAfter, SM.Lookup, SM.Decode, MapOf, FirstBefore, SpanBefore;
    hide SM.Increasing, Splits;
    var left, whole := AllLeft(plan, sources, passes), AllLeft(plan, sources, 0);
    WholeIsWritten(plan, sources);
    LeftShortens(plan, sources, passes, 0);
    MarksFit(blocks, left, whole);
    MapFinds(MarksOf(blocks, left), definition, offset);
    SplitsAfter(blocks, left, whole, i, j, offset);
    MarksLookup(blocks, left, i, Least(j + 1, |left[i]|), offset);
    MarksHead(blocks, left);
  }

  /** That is the instruction's own, unless it was taken away: then it is the last one left
      before it, and the instruction's own if and only if they are the same. */
  lemma {:induction false} OwnSpanFoundWhen(plan: Plan, sources: seq<Source>, blocks: seq<OutBlock>, passes: nat,
                                            definition: nat, i: nat, j: nat, offset: nat)
    requires LaidOut(plan, sources, blocks, definition) && Covers(plan, sources, blocks, i, j, offset)
    ensures var left := AllLeft(plan, sources, passes)[i];
            Found(plan, sources, blocks, passes, definition, offset) == Written(plan, sources, i)[j].span
            <==> || j < |left|
                 || InEffect(AllLeft(plan, sources, passes), definition, i, |left|) == Written(plan, sources, i)[j].span.value
  {
    hide LaidOut, Found, Written, FirstBefore;
    FoundInEffect(plan, sources, blocks, passes, definition, i, j, offset);
    var left := AllLeft(plan, sources, passes);
    if j < |left[i]| {
      assert left[i][j] == Written(plan, sources, i)[j];
    }
  }

  /** An instruction that can raise is found at its own span. */
  ghost predicate OwnFound(plan: Plan, sources: seq<Source>, blocks: seq<OutBlock>, passes: nat, definition: nat,
                           i: nat, j: nat, offset: nat)
  {
    Covers(plan, sources, blocks, i, j, offset) ==>
      Found(plan, sources, blocks, passes, definition, offset) == Written(plan, sources, i)[j].span
  }

  /** Every one is, at each of its bytes. */
  ghost predicate AllFound(plan: Plan, sources: seq<Source>, blocks: seq<OutBlock>, passes: nat, definition: nat) {
    forall i, j, offset :: OwnFound(plan, sources, blocks, passes, definition, i, j, offset)
  }

  lemma LeftShortens(plan: Plan, sources: seq<Source>, more: nat, fewer: nat)
    requires fewer <= more
    ensures Shortened(AllLeft(plan, sources, more), AllLeft(plan, sources, fewer))
  {
    hide Written;
  }

  // An entry is at least one byte long.
  lemma CoversItsStart(plan: Plan, sources: seq<Source>, blocks: seq<OutBlock>, definition: nat, i: nat, j: nat)
    requires LaidOut(plan, sources, blocks, definition) && i < |plan.order| && j < |Written(plan, sources, i)|
    requires Written(plan, sources, i)[j].span.Some?
    ensures Covers(plan, sources, blocks, i, j, blocks[i].offset + Written(plan, sources, i)[j].offset)
  {
    hide Code, Written, Sequential;
    WholeIsWritten(plan, sources);
    assert Inside(blocks[i], AllLeft(plan, sources, 0)[i]);
  }

  /** Every instruction is found at its own span if and only if each span that passes have
      taken away is the one left in effect where it was. */
  lemma {:induction false} AllFoundWhen(plan: Plan, sources: seq<Source>, blocks: seq<OutBlock>, passes: nat, definition: nat)
    requires LaidOut(plan, sources, blocks, definition)
    ensures Shortened(AllLeft(plan, sources, passes), AllLeft(plan, sources, 0))
    ensures AllFound(plan, sources, blocks, passes, definition)
            <==> Agrees(AllLeft(plan, sources, passes), AllLeft(plan, sources, 0), definition)
  {
    hide LaidOut, Written, Found, InEffect, Covers, LeftAfter;
    var left: seq<seq<SpanEntry>>, whole: seq<seq<SpanEntry>> := AllLeft(plan, sources, passes), AllLeft(plan, sources, 0);
    LeftShortens(plan, sources, passes, 0);
    WholeIsWritten(plan, sources);
    if AllFound(plan, sources, blocks, passes, definition) {
      forall i, j | 0 <= i < |whole| && |left[i]| <= j < |whole[i]| && whole[i][j].span.Some?
        ensures whole[i][j].span.value == InEffect(left, definition, i, |left[i]|)
      {
        LaidOutCounts(plan, sources, blocks, definition);
        var offset := blocks[i].offset + Written(plan, sources, i)[j].offset;
        CoversItsStart(plan, sources, blocks, definition, i, j);
        OwnSpanFoundWhen(plan, sources, blocks, passes, definition, i, j, offset);
        assert OwnFound(plan, sources, blocks, passes, definition, i, j, offset);
      }
    }
    if Agrees(left, whole, definition) {
      forall i: nat, j: nat, offset: nat
        ensures OwnFound(plan, sources, blocks, passes, definition, i, j, offset)
      {
        if Covers(plan, sources, blocks, i, j, offset) {
          CoversSpan(plan, sources, blocks, i, j, offset);
          OwnSpanFoundWhen(plan, sources, blocks, passes, definition, i, j, offset);
        }
      }
    }
  }

  lemma LaidOutCounts(plan: Plan, sources: seq<Source>, blocks: seq<OutBlock>, definition: nat)
    requires LaidOut(plan, sources, blocks, definition)
    ensures |blocks| == |plan.order|
  {
  }

  lemma CoversSpan(plan: Plan, sources: seq<Source>, blocks: seq<OutBlock>, i: nat, j: nat, offset: nat)
    requires Covers(plan, sources, blocks, i, j, offset)
    ensures i < |plan.order| && j < |Written(plan, sources, i)| && Written(plan, sources, i)[j].span.Some?
  {
  }

  lemma WholeIsWritten(plan: Plan, sources: seq<Source>)
    ensures forall i :: 0 <= i < |plan.order| ==> AllLeft(plan, sources, 0)[i] == Written(plan, sources, i)
  {
    hide Written;
  }

  /** The more passes, the more is lost. */
  lemma {:induction false} MorePassesLose(plan: Plan, sources: seq<Source>, blocks: seq<OutBlock>, fewer: nat, more: nat, definition: nat)
    requires LaidOut(plan, sources, blocks, definition) && fewer <= more
    requires AllFound(plan, sources, blocks, more, definition)
    ensures AllFound(plan, sources, blocks, fewer, definition)
  {
    hide LaidOut, AllFound, Agrees, AllLeft;
    LeftShortens(plan, sources, more, fewer);
    LeftShortens(plan, sources, fewer, 0);
    AllFoundWhen(plan, sources, blocks, more, definition);
    AllFoundWhen(plan, sources, blocks, fewer, definition);
    AgreesBetween(AllLeft(plan, sources, more), AllLeft(plan, sources, fewer), AllLeft(plan, sources, 0), definition);
  }

  // ----- whatever the number of passes -----

  /** The entries no pass takes away: those of the blocks that do not fall through. */
  function Lasting(plan: Plan, sources: seq<Source>): (r: seq<seq<SpanEntry>>)
    ensures |r| == |plan.order|
    ensures forall i :: 0 <= i < |r| ==> r[i] == if Falls(plan, i) then [] else Written(plan, sources, i)
  {
    seq(|plan.order|, i requires 0 <= i < |plan.order| => if Falls(plan, i) then [] else Written(plan, sources, i))
  }

  /** Whatever the number of passes, every instruction is found at its own span if and only if
      every span in a block that falls through is the one that the blocks that do not put in
      effect there. */
  lemma {:induction false} AlwaysFoundWhen(plan: Plan, sources: seq<Source>, blocks: seq<OutBlock>, definition: nat)
    requires LaidOut(plan, sources, blocks, definition)
    ensures Shortened(Lasting(plan, sources), AllLeft(plan, sources, 0))
    ensures (forall passes :: AllFound(plan, sources, blocks, passes, definition))
            <==> Agrees(Lasting(plan, sources), AllLeft(plan, sources, 0), definition)
  {
    hide LaidOut, AllFound, Agrees, Written;
    var lasting, whole := Lasting(plan, sources), AllLeft(plan, sources, 0);
    WholeIsWritten(plan, sources);
    if forall passes :: AllFound(plan, sources, blocks, passes, definition) {
      var passes := Longest(whole, |whole|);
      assert AllFound(plan, sources, blocks, passes, definition);
      AllFoundWhen(plan, sources, blocks, passes, definition);
      LongestLasts(plan, sources);
    }
    if Agrees(lasting, whole, definition) {
      forall passes
        ensures AllFound(plan, sources, blocks, passes, definition)
      {
        LastingShortens(plan, sources, passes);
        LeftShortens(plan, sources, passes, 0);
        AgreesBetween(lasting, AllLeft(plan, sources, passes), whole, definition);
        AllFoundWhen(plan, sources, blocks, passes, definition);
      }
    }
  }

  lemma LastingShortens(plan: Plan, sources: seq<Source>, passes: nat)
    ensures Shortened(Lasting(plan, sources), AllLeft(plan, sources, passes))
  {
    hide Written;
  }

  function Longest(spans: seq<seq<SpanEntry>>, n: nat): (r: nat)
    requires n <= |spans|
    ensures forall i :: 0 <= i < n ==> |spans[i]| <= r
  {
    if n == 0 then 0
    else
      var rest := Longest(spans, n - 1);
      if rest < |spans[n - 1]| then |spans[n - 1]| else rest
  }

  lemma LongestLasts(plan: Plan, sources: seq<Source>)
    ensures var whole := AllLeft(plan, sources, 0);
            AllLeft(plan, sources, Longest(whole, |whole|)) == Lasting(plan, sources)
  {
    hide Written;
    WholeIsWritten(plan, sources);
    var whole := AllLeft(plan, sources, 0);
    forall i | 0 <= i < |plan.order|
      ensures AllLeft(plan, sources, Longest(whole, |whole|))[i] == Lasting(plan, sources)[i]
    {
      assert |whole[i]| <= Longest(whole, |whole|);
    }
  }

  /** From the first pass on, not all are found as soon as a block that falls through ends in
      a span of its own: one that is not in effect before it already. */
  lemma {:induction false} OwnLastSpanIsLost(plan: Plan, sources: seq<Source>, blocks: seq<OutBlock>, passes: nat, definition: nat, i: nat)
    requires LaidOut(plan, sources, blocks, definition)
    requires passes > 0 && i < |plan.order| && Falls(plan, i)
    requires var whole := AllLeft(plan, sources, 0);
             && whole[i] != [] && whole[i][|whole[i]| - 1].span.Some?
             && whole[i][|whole[i]| - 1].span.value != InEffect(whole, definition, i, |whole[i]| - 1)
    ensures !AllFound(plan, sources, blocks, passes, definition)
  {
    hide LaidOut, AllFound, Written, InEffect;
    if AllFound(plan, sources, blocks, passes, definition) {
      var left, whole := AllLeft(plan, sources, 1), AllLeft(plan, sources, 0);
      MorePassesLose(plan, sources, blocks, 1, passes, definition);
      AllFoundWhen(plan, sources, blocks, 1, definition);
      WholeIsWritten(plan, sources);
      var last := |whole[i]| - 1;
      assert |left[i]| == last;
      AgreesInEffect(left, whole, definition, i, last);
    }
  }

  /** So it is of the map the emitter writes, after the passes it took. */
  lemma {:induction false} EmittedFoundWhen(plan: Plan, sources: seq<Source>, n: nat, definition: nat)
    requires Settles(plan, n) && Placed(plan) && Sourced(plan.graph, sources)
    requires |Code(Passes(plan, n + 1))| <= SM.OFFSET_LIMIT && SpansInRange(plan, sources) && definition < SPAN_LIMIT
    ensures LaidOut(plan, sources, Passes(plan, n + 1), definition)
    ensures Shortened(AllLeft(plan, sources, n + 1), AllLeft(plan, sources, 0))
    ensures Shortened(Lasting(plan, sources), AllLeft(plan, sources, 0))
    ensures AllFound(plan, sources, Passes(plan, n + 1), n + 1, definition)
            <==> Agrees(AllLeft(plan, sources, n + 1), AllLeft(plan, sources, 0), definition)
    ensures Agrees(Lasting(plan, sources), AllLeft(plan, sources, 0), definition)
            ==> AllFound(plan, sources, Passes(plan, n + 1), n + 1, definition)
  {
    hide Settles, Placed, Sourced, Passes, Code, SpansInRange, LaidOut, AllFound, Agrees, AllLeft, Lasting;
    var blocks := Passes(plan, n + 1);
    EmittedIsLaidOut(plan, sources, n, definition);
    AllFoundWhen(plan, sources, blocks, n + 1, definition);
    AlwaysFoundWhen(plan, sources, blocks, definition);
  }

  // ----- a span that is lost -----

  /** Two instructions that can raise, in a block that falls into a loop. */
  function Tail(): Plan {
    Plan([Block([B.Add, B.Index], Branch(1), {}), Block([], Branch(1), {0, 1})], [0, 1])
  }

  function TailSources(a: nat, b: nat): seq<Source> {
    [Source([SourceInst(Some(B.Add), Some(a)), SourceInst(Some(B.Index), Some(b))], None), Source([], None)]
  }

  lemma TailIsChain()
    ensures LastBlocks.Chain(Tail()) && Placed(Tail())
  {
    hide EncodeAll;
    var plan := Tail();
    assert plan.order[0] == 0 && plan.order[1] == 1;
    assert Succs(plan.graph[0].term) == {1} && Succs(plan.graph[1].term) == {1};
    assert TermLayable(plan, 0) && TermLayable(plan, 1);
  }

  lemma TailWritten(a: nat, b: nat)
    ensures Sourced(Tail().graph, TailSources(a, b))
    ensures |Body(Tail(), 0)| == 2 && |Body(Tail(), 1)| == 0
    ensures Written(Tail(), TailSources(a, b), 0) == [SpanEntry(0, Some(a)), SpanEntry(1, Some(b))]
    ensures Written(Tail(), TailSources(a, b), 1) == [SpanEntry(0, None)]
  {
    var insts := TailSources(a, b)[0].insts;
    assert insts[..1] == [insts[0]] && insts[..1][..0] == [];
    assert Real(insts[..1]) == [B.Add] && Real(insts) == [B.Add, B.Index];
    OneByte(B.Add);
    OneByte(B.Index);
    hide EncodeInst;
    assert [B.Add][1..] == [] && [B.Add, B.Index][1..] == [B.Index] && [B.Index][1..] == [];
    assert |EncodeAll([B.Add])| == 1;
    assert EncodeAll([B.Add, B.Index]) == EncodeInst(B.Add) + EncodeAll([B.Index]);
    assert Real(insts[..0]) == [] && EncodeAll([]) == [] && EntriesOf(insts[..0]) == [];
    assert insts[..1][..0] == insts[..0];
    assert EntriesOf(insts[..1]) == [SpanEntry(0, Some(a))];
    assert EntriesOf(insts) == EntriesOf(insts[..1]) + [SpanEntry(1, Some(b))];
  }

  lemma OneByte(inst: B.Inst)
    requires |Operands(inst)| == 0
    ensures |EncodeInst(inst)| == 1
  {
  }

  lemma TailLaidOut(a: nat, b: nat, definition: nat)
    requires a < SPAN_LIMIT && b < SPAN_LIMIT && definition < SPAN_LIMIT
    ensures Settles(Tail(), 0) && |Passes(Tail(), 1)| == |Tail().order| == 2
    ensures LaidOut(Tail(), TailSources(a, b), Passes(Tail(), 1), definition)
    ensures Passes(Tail(), 1)[0].offset == 0 && |Passes(Tail(), 1)[0].bytecode| >= 2
  {
    hide Settles, Passes, Body, Written, EncodeAll, Sourced, Sequential, Code, LastBlocks.Chain, LastBlocks.BackLen;
    hide LastBlocks.Back, EncodeInst;
    var plan := Tail();
    TailIsChain();
    TailWritten(a, b);
    LastBlocks.ChainSettles(plan);
    LastBlocks.ChainStarts(plan, 0);
    LastBlocks.ChainStarts(plan, 1);
    LastBlocks.ChainFinal(plan);
    var d := -(LastBlocks.Back(plan) + 1 + LastBlocks.BackLen(LastBlocks.Back(plan) + 1));
    LastBlocks.BranchLength(d);
    RelaxedIsSequential(plan, 0);
    CodeSlice(Passes(plan, 1), 1);
    assert Bodied(plan, Passes(plan, 1));
    EmittedIsLaidOut(plan, TailSources(a, b), 0, definition);
  }

  /** Its second instruction is found where the first is. */
  lemma {:induction false} TailMisplaced(a: nat, b: nat, definition: nat)
    requires a < SPAN_LIMIT && b < SPAN_LIMIT && definition < SPAN_LIMIT
    ensures Settles(Tail(), 0) && |Passes(Tail(), 1)| == |Tail().order|
    ensures Covers(Tail(), TailSources(a, b), Passes(Tail(), 1), 0, 1, 1)
    ensures Written(Tail(), TailSources(a, b), 0)[1] == SpanEntry(1, Some(b))
    ensures Found(Tail(), TailSources(a, b), Passes(Tail(), 1), 1, definition, 1) == Some(a)
    ensures AllFound(Tail(), TailSources(a, b), Passes(Tail(), 1), 1, definition) <==> a == b
  {
    hide Settles, Passes, Written, Found, Sourced, LastBlocks.Chain, Code, SpansInRange;
    var plan, sources := Tail(), TailSources(a, b);
    TailLaidOut(a, b, definition);
    TailWritten(a, b);
    FoundInEffect(plan, sources, Passes(plan, 1), 1, definition, 0, 1, 1);
    AllFoundWhen(plan, sources, Passes(plan, 1), 1, definition);
    var left, whole := AllLeft(plan, sources, 1), AllLeft(plan, sources, 0);
    WholeIsWritten(plan, sources);
    assert left[0] == [SpanEntry(0, Some(a))] && left[1] == [SpanEntry(0, None)];
    assert SpanBefore(left, 0, 1) == Some(a);
  }
}
