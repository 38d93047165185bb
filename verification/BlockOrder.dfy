/** The order in which the emitter lays out blocks (dolang-compile/src/emit.rs,
    `topological_sort` and `topological_sort_rec`): a depth-first traversal that
    adds a trampoline where both successors of an `If` are already placed. */
module BlockOrders {

  import opened Graphs
  import opened FlowGraphs

  ghost predicate Distinct(out: seq<nat>) {
    forall i, j :: 0 <= i < j < |out| ==> out[i] != out[j]
  }

  /** `graph` is the original `base` with empty trampolines added after it: skipping
      them gives the original back. */
  ghost predicate Extends(base: seq<Block>, graph: seq<Block>) {
    && |base| <= |graph|
    && WellFormed(graph)
    && (forall x :: 0 <= x < |base| ==>
          && graph[x].insts == base[x].insts
          && Collapse(graph, |base|, graph[x].term) == base[x].term)
    && (forall y :: |base| <= y < |graph| ==>
          graph[y].insts == [] && graph[y].term.Branch? && graph[y].term.to < |base|)
  }

  /** Blocks not placed yet are as they were. */
  ghost predicate Untouched(base: seq<Block>, graph: seq<Block>, seen: set<nat>) {
    |base| <= |graph| && forall x :: 0 <= x < |base| && x !in seen ==> graph[x].term == base[x].term
  }

  /** Block `out[k]` is the entry, a trampoline, or the successor of one placed before it. */
  ghost predicate HasParent(base: seq<Block>, out: seq<nat>, k: nat)
    requires k < |out|
  {
    || k == 0 || out[k] >= |base|
    || exists j :: 0 <= j < k && out[j] < |base| && out[k] in Succs(base[out[j]].term)
  }

  /** The entry comes first, each block comes once, and all trampolines are placed. */
  ghost predicate Placed(base: seq<Block>, graph: seq<Block>, enter: nat, out: seq<nat>, seen: set<nat>) {
    && |out| > 0 && out[0] == enter < |base|
    && Distinct(out)
    && (forall k :: 0 <= k < |out| ==> out[k] < |graph| && out[k] in seen)
    && (forall x :: x in seen ==> x in out)
    && (forall y :: |base| <= y < |graph| ==> y in seen)
    && (forall k :: 0 <= k < |out| ==> HasParent(base, out, k))
  }

  ghost predicate Sound(base: seq<Block>, graph: seq<Block>, enter: nat, out: seq<nat>, seen: set<nat>) {
    && WellFormed(base)
    && Extends(base, graph)
    && Untouched(base, graph, seen)
    && Placed(base, graph, enter, out, seen)
  }

  /** Block `yes` is neither the entry nor the successor of a block other than `x`. */
  ghost predicate OnlyFrom(base: seq<Block>, enter: nat, x: nat, yes: nat) {
    yes != enter && forall z :: 0 <= z < |base| && yes in Succs(base[z].term) ==> z == x
  }

  /** Every successor of block `out[k]` is placed; one successor of an `If`, and the
      success block of an `UnpackIf` that alone leads to it, comes next. */
  ghost predicate Laid(base: seq<Block>, graph: seq<Block>, enter: nat, out: seq<nat>, k: nat)
    requires k < |out|
  {
    && out[k] < |graph|
    && var term := graph[out[k]].term;
       && (forall y :: y in Succs(term) ==> y in out)
       && (term.If? ==> k + 1 < |out| && (out[k + 1] == term.yes || out[k + 1] == term.no))
       && (term.UnpackIf? && OnlyFrom(base, enter, out[k], term.yes) ==> k + 1 < |out| && out[k + 1] == term.yes)
  }

  // ----- one placement -----

  lemma PlaceKeeps(base: seq<Block>, graph: seq<Block>, enter: nat, out: seq<nat>, seen: set<nat>, id: nat, b: nat)
    requires Sound(base, graph, enter, out, seen)
    requires id in out && id < |base| && b in Succs(base[id].term) && b !in seen
    ensures Sound(base, graph, enter, out + [b], seen + {b})
  {
    assert b < |base|;
    var j :| 0 <= j < |out| && out[j] == id;
    assert b !in out;
    var out' := out + [b];
    forall k | 0 <= k < |out'|
      ensures HasParent(base, out', k)
    {
      if k < |out| {
        assert HasParent(base, out, k);
        if k > 0 && out[k] < |base| {
          var i :| 0 <= i < k && out[i] < |base| && out[k] in Succs(base[out[i]].term);
          assert out'[i] == out[i];
        }
      } else {
        assert out'[j] == id;
      }
    }
  }

  // The graph after a trampoline to `no` is added behind block `id`.
  function WithTrampoline(graph: seq<Block>, id: nat, yes: nat, no: nat): seq<Block>
    requires id < |graph| && no < |graph|
  {
    var t := |graph|;
    var grown := graph + [Block([], Branch(no), {id})];
    var linked := grown[id := grown[id].(term := If(yes, t))];
    linked[no := linked[no].(inbound := linked[no].inbound - {id} + {t})]
  }

  /** Every block lists exactly the blocks that go to it. */
  ghost predicate InboundExact(graph: seq<Block>) {
    forall x, y :: 0 <= y < |graph| ==> InboundAgrees(graph, x, y)
  }

  ghost predicate InboundAgrees(graph: seq<Block>, x: nat, y: nat)
    requires y < |graph|
  {
    x in graph[y].inbound <==> x < |graph| && y in Succs(graph[x].term)
  }

  /** A trampoline leaves the lists of inbound blocks exact if and only if it was not added
      for an `If` with one block for both successors, which loses that block's entry. */
  lemma TrampolineInbound(graph: seq<Block>, id: nat, yes: nat, no: nat)
    requires InboundExact(graph) && WellFormed(graph)
    requires id < |graph| && graph[id].term == If(yes, no) && no < |graph|
    ensures InboundExact(WithTrampoline(graph, id, yes, no)) <==> yes != no
  {
    var graph' := WithTrampoline(graph, id, yes, no);
    if yes == no {
      assert !InboundAgrees(graph', id, yes);
    } else {
      forall x: nat, y: nat | y < |graph'|
        ensures InboundAgrees(graph', x, y)
      {
        if y < |graph| {
          assert InboundAgrees(graph, x, y);
        }
        if x < |graph| {
          assert forall z :: z in Succs(graph[x].term) ==> z < |graph|;
        }
      }
    }
  }

  // Skipping the new trampoline too gives what skipping the others gave.
  lemma TrampolineCollapses(base: seq<Block>, graph: seq<Block>, id: nat, yes: nat, no: nat, x: nat)
    requires Extends(base, graph) && id < |base| && base[id].term == If(yes, no)
    requires graph[id].term == base[id].term && WellFormed(base) && no < |base| && x < |base|
    ensures Collapse(WithTrampoline(graph, id, yes, no), |base|, WithTrampoline(graph, id, yes, no)[x].term) == base[x].term
  {
    var graph' := WithTrampoline(graph, id, yes, no);
    if x != id {
      assert forall y :: y in Succs(graph[x].term) ==> y < |graph|;
      assert Collapse(graph', |base|, graph[x].term) == Collapse(graph, |base|, graph[x].term);
    } else {
      assert yes in Succs(base[id].term) && no in Succs(base[id].term);
    }
  }

  lemma TrampolineExtends(base: seq<Block>, graph: seq<Block>, id: nat, yes: nat, no: nat)
    requires Extends(base, graph) && id < |base| && base[id].term == If(yes, no)
    requires graph[id].term == base[id].term && WellFormed(base) && no < |base|
    ensures Extends(base, WithTrampoline(graph, id, yes, no))
    ensures forall x :: 0 <= x < |graph| && x != id ==> WithTrampoline(graph, id, yes, no)[x].term == graph[x].term
    ensures WithTrampoline(graph, id, yes, no)[id].term == If(yes, |graph|)
  {
    var graph' := WithTrampoline(graph, id, yes, no);
    assert yes in Succs(base[id].term) && no in Succs(base[id].term);
    forall x | 0 <= x < |base|
      ensures Collapse(graph', |base|, graph'[x].term) == base[x].term
    {
      TrampolineCollapses(base, graph, id, yes, no, x);
    }
    hide Collapse;
    forall x, y | 0 <= x < |graph'| && y in Succs(graph'[x].term)
      ensures y < |graph'|
    {
      if x < |graph| && x != id {
        assert y in Succs(graph[x].term);
      }
    }
  }

  lemma TrampolineKeeps(base: seq<Block>, graph: seq<Block>, enter: nat, out: seq<nat>, seen: set<nat>,
                        id: nat, yes: nat, no: nat)
    requires Sound(base, graph, enter, out, seen)
    requires id < |base| && base[id].term == If(yes, no) && graph[id].term == base[id].term && id in seen
    requires no < |base|
    ensures Sound(base, WithTrampoline(graph, id, yes, no), enter, out + [|graph|], seen + {|graph|})
  {
    TrampolineExtends(base, graph, id, yes, no);
    var out' := out + [|graph|];
    assert |graph| !in out;
    forall k | 0 <= k < |out'|
      ensures HasParent(base, out', k)
    {
      if k < |out| {
        assert HasParent(base, out, k);
        if k > 0 && out[k] < |base| {
          var i :| 0 <= i < k && out[i] < |base| && out[k] in Succs(base[out[i]].term);
          assert out'[i] == out[i];
        }
      }
    }
  }

  // Later placements and changes to other blocks leave a laid block laid.
  lemma LaidStays(base: seq<Block>, graph: seq<Block>, graph': seq<Block>, enter: nat, out: seq<nat>, out': seq<nat>, k: nat)
    requires k < |out| <= |out'| && out == out'[..|out|]
    requires Laid(base, graph, enter, out, k)
    requires out[k] < |graph'| && graph'[out[k]].term == graph[out[k]].term
    ensures Laid(base, graph', enter, out', k)
  {
    assert out'[k] == out[k];
    forall y | y in Succs(graph[out[k]].term)
      ensures y in out'
    {
      var i :| 0 <= i < |out| && out[i] == y;
      assert out'[i] == y;
    }
    if k + 1 < |out| {
      assert out'[k + 1] == out[k + 1];
    }
  }

  // The success block of the last block placed, if nothing else leads to it, is not placed.
  lemma SuccessIsNew(base: seq<Block>, graph: seq<Block>, enter: nat, out: seq<nat>, seen: set<nat>, yes: nat)
    requires Sound(base, graph, enter, out, seen)
    requires var id := out[|out| - 1]; id < |base| && yes in Succs(base[id].term) && OnlyFrom(base, enter, id, yes)
    ensures yes !in seen
  {
    forall k | 0 <= k < |out|
      ensures out[k] != yes
    {
      assert HasParent(base, out, k);
    }
  }

  ghost predicate KeepsTerms(graph: seq<Block>, graph': seq<Block>, placed: seq<nat>) {
    |graph| <= |graph'| && forall x :: 0 <= x < |graph| && x in placed ==> graph'[x].term == graph[x].term
  }

  /** Every block placed from position `k` on is laid. */
  ghost predicate LaidFrom(base: seq<Block>, graph: seq<Block>, enter: nat, out: seq<nat>, k: nat) {
    forall i :: k <= i < |out| ==> Laid(base, graph, enter, out, i)
  }

  lemma LaidAgain(base: seq<Block>, graph: seq<Block>, graph': seq<Block>, enter: nat,
                  out: seq<nat>, out': seq<nat>, k: nat)
    requires LaidFrom(base, graph, enter, out, k) && k <= |out| && out <= out'
    requires KeepsTerms(graph, graph', out) && LaidFrom(base, graph', enter, out', |out|)
    ensures LaidFrom(base, graph', enter, out', k)
  {
    forall i | k <= i < |out'|
      ensures Laid(base, graph', enter, out', i)
    {
      if i < |out| {
        assert out[i] in out;
        LaidStays(base, graph, graph', enter, out, out', i);
      }
    }
  }

  // Following both successors of the last block placed lays it and everything after it.
  lemma BothLaid(base: seq<Block>, enter: nat, id: nat, yes: nat, no: nat, graph0: seq<Block>, out0: seq<nat>,
                 graph1: seq<Block>, out1: seq<nat>, graph2: seq<Block>, out2: seq<nat>)
    requires |out0| > 0 && out0[|out0| - 1] == id < |graph0|
    requires out0 <= out1 <= out2 && KeepsTerms(graph0, graph1, out0) && KeepsTerms(graph1, graph2, out1)
    requires LaidFrom(base, graph1, enter, out1, |out0|) && LaidFrom(base, graph2, enter, out2, |out1|)
    requires yes in out1 && no in out2
    requires yes !in out0 ==> |out1| > |out0| && out1[|out0|] == yes
    requires no !in out1 ==> |out2| > |out1| && out2[|out1|] == no
    requires var term := graph0[id].term;
             || (term == If(yes, no) && (yes !in out0 || no !in out0))
             || (term.UnpackIf? && term.yes == yes && term.no == no && (OnlyFrom(base, enter, id, yes) ==> yes !in out0))
    requires yes in out0 ==> out1 == out0
    ensures KeepsTerms(graph0, graph2, out0[..|out0| - 1])
    ensures LaidFrom(base, graph2, enter, out2, |out0| - 1)
  {
    var at := |out0| - 1;
    LaidAgain(base, graph1, graph2, enter, out1, out2, at + 1);
    assert out0[at] in out0 && out1[at] in out1;
    assert out2[at] == id && graph2[id].term == graph0[id].term;
    assert yes in out2 by {
      var i :| 0 <= i < |out1| && out1[i] == yes;
      assert out2[i] == yes;
    }
    assert Laid(base, graph2, enter, out2, at);
    forall x | 0 <= x < |graph0| && x in out0[..at]
      ensures graph2[x].term == graph0[x].term
    {
      var i :| 0 <= i < at && out0[i] == x;
      assert out0[i] in out0 && out1[i] in out1;
    }
  }

  class BlockOrder {
    ghost const base: seq<Block>
    const enter: nat
    var graph: seq<Block>
    var seen: set<nat>
    var out: seq<nat>

    constructor (graph: seq<Block>, enter: nat)
      ensures this.base == graph && this.graph == graph && this.enter == enter
      ensures seen == {} && out == []
    {
      this.base, this.graph, this.enter := graph, graph, enter;
      seen, out := {}, [];
    }

    ghost predicate Valid()
      reads this
    {
      Sound(base, graph, enter, out, seen)
    }

    ghost function Unplaced(): set<nat>
      reads this
    {
      (set x: nat | x < |base| && x !in seen)
    }

    // Places a block next.
    method Place(id: nat, b: nat)
      requires Valid() && id in out && id < |base| && b in Succs(base[id].term) && b !in seen
      modifies this`seen, this`out
      ensures Valid() && out == old(out) + [b] && seen == old(seen) + {b}
    {
      PlaceKeeps(base, graph, enter, out, seen, id, b);
      seen := seen + {b};
      out := out + [b];
    }

    // Both successors of `id` are placed already: falls through to a new block that
    // branches to the second.
    method AddTrampoline(id: nat, yes: nat, no: nat)
      requires Valid() && |out| > 0 && out[|out| - 1] == id < |base|
      requires graph[id].term == base[id].term == If(yes, no) && yes in seen && no in seen && no < |base|
      modifies this
      ensures Valid() && out == old(out) + [|old(graph)|] && old(seen) <= seen
      ensures |old(graph)| <= |graph|
      ensures forall x :: 0 <= x < |old(graph)| && x != id ==> graph[x].term == old(graph)[x].term
      ensures Laid(base, graph, enter, out, |old(out)| - 1)
      ensures Laid(base, graph, enter, out, |old(out)|)
      ensures graph == WithTrampoline(old(graph), id, yes, no)
    {
      TrampolineKeeps(base, graph, enter, out, seen, id, yes, no);
      TrampolineExtends(base, graph, id, yes, no);
      var trampoline := |graph|;
      graph := graph + [Block([], Branch(no), {id})];
      graph := graph[id := graph[id].(term := If(yes, trampoline))];
      graph := graph[no := graph[no].(inbound := graph[no].inbound - {id} + {trampoline})];
      seen := seen + {trampoline};
      out := out + [trampoline];
      assert yes in old(out) && no in old(out);
    }

    // One successor at least has to come next: if both are placed, a trampoline does.
    method VisitIf(id: nat, yes: nat, no: nat)
      requires Valid() && |out| > 0 && out[|out| - 1] == id < |base|
      requires graph[id].term == base[id].term == If(yes, no)
      modifies this
      ensures Valid() && old(out) <= out && old(seen) <= seen && |old(graph)| <= |graph|
      ensures KeepsTerms(old(graph), graph, old(out)[..|old(out)| - 1])
      ensures LaidFrom(base, graph, enter, out, |old(out)| - 1)
      decreases Unplaced(), 2
    {
      hide Laid;
      if yes in seen && no in seen {
        AddTrampoline(id, yes, no);
      } else {
        FollowBoth(id, yes, no);
      }
    }

    /** Places every block reachable from `id` that is not placed yet, after it. */
    method Visit(id: nat)
      requires Valid() && |out| > 0 && out[|out| - 1] == id < |base|
      requires graph[id].term == base[id].term
      modifies this
      ensures Valid() && old(out) <= out && old(seen) <= seen && |old(graph)| <= |graph|
      ensures KeepsTerms(old(graph), graph, old(out)[..|old(out)| - 1])
      ensures LaidFrom(base, graph, enter, out, |old(out)| - 1)
      decreases Unplaced(), 3
    {
      match graph[id].term
      case Ret | NlBranch(_, _) | ElseFallthrough(_) =>
      case Branch(to) => Follow(id, to);
      case If(yes, no) => VisitIf(id, yes, no);
      case UnpackIf(_, yes, no) => FollowBoth(id, yes, no);
    }

    // Places and visits the successors of `id`, the first one first.
    method FollowBoth(id: nat, yes: nat, no: nat)
      requires Valid() && |out| > 0 && out[|out| - 1] == id < |base| && graph[id].term == base[id].term
      requires graph[id].term == If(yes, no) ==> yes !in seen || no !in seen
      requires graph[id].term == If(yes, no) || (graph[id].term.UnpackIf? && graph[id].term.yes == yes && graph[id].term.no == no)
      modifies this
      ensures Valid() && old(out) <= out && old(seen) <= seen && |old(graph)| <= |graph|
      ensures KeepsTerms(old(graph), graph, old(out)[..|old(out)| - 1])
      ensures LaidFrom(base, graph, enter, out, |old(out)| - 1)
      decreases Unplaced(), 1
    {
      ghost var graph0, out0, seen0 := graph, out, seen;
      if graph[id].term.UnpackIf? && OnlyFrom(base, enter, id, yes) {
        SuccessIsNew(base, graph, enter, out, seen, yes);
      }
      Follow(id, yes);
      ghost var graph1, out1, seen1 := graph, out, seen;
      Follow(id, no);
      BothLaid(base, enter, id, yes, no, graph0, out0, graph1, out1, graph, out);
    }

    // Places and visits a successor of `id`, unless it is placed.
    method Follow(id: nat, b: nat)
      requires Valid() && id in out && id < |base| && b in Succs(base[id].term) && b < |base|
      modifies this
      ensures Valid() && old(out) <= out && old(seen) <= seen && |old(graph)| <= |graph|
      ensures b in out
      ensures b !in old(seen) ==> |out| > |old(out)| && out[|old(out)|] == b
      ensures b in old(seen) ==> out == old(out)
      ensures KeepsTerms(old(graph), graph, old(out))
      ensures LaidFrom(base, graph, enter, out, |old(out)|)
      decreases Unplaced(), 0
    {
      if b !in seen {
        ghost var before := Unplaced();
        Place(id, b);
        assert b in before && b !in Unplaced();
        Visit(b);
      }
    }

    /** The whole order: the entry, and then everything a traversal from it places. */
    method Sort()
      requires graph == base && seen == {} && out == [] && WellFormed(base) && enter < |base|
      modifies this
      ensures Ordered(base, graph, enter, out)
    {
      out := [enter];
      seen := {enter};
      assert Extends(base, graph) by {
        UntouchedExtends(base);
      }
      Visit(enter);
      OrderedWhenLaid(base, graph, enter, out, seen);
    }
  }

  lemma UntouchedExtends(base: seq<Block>)
    requires WellFormed(base)
    ensures Extends(base, base)
  {
    forall x | 0 <= x < |base|
      ensures Collapse(base, |base|, base[x].term) == base[x].term
    {
      assert forall y :: y in Succs(base[x].term) ==> y < |base|;
    }
  }

  /** What the traversal promises: the entry first, every reachable block exactly once,
      every block laid, and the original graph once trampolines are skipped. */
  ghost predicate Ordered(base: seq<Block>, graph: seq<Block>, enter: nat, out: seq<nat>) {
    && Extends(base, graph)
    && |out| > 0 && out[0] == enter < |base|
    && Distinct(out)
    && (forall x :: 0 <= x < |base| ==> (x in out <==> Reachable(Edges(base), enter, x)))
    && (forall k :: 0 <= k < |out| ==> Laid(base, graph, enter, out, k))
  }

  lemma OrderedWhenLaid(base: seq<Block>, graph: seq<Block>, enter: nat, out: seq<nat>, seen: set<nat>)
    requires Sound(base, graph, enter, out, seen) && LaidFrom(base, graph, enter, out, 0)
    ensures Ordered(base, graph, enter, out)
  {
    forall x | 0 <= x < |base|
      ensures x in out <==> Reachable(Edges(base), enter, x)
    {
      if x in out {
        var k :| 0 <= k < |out| && out[k] == x;
        PlacedIsReachable(base, graph, enter, out, seen, k);
      }
      if Reachable(Edges(base), enter, x) {
        ReachableIsPlaced(base, graph, enter, out, x);
      }
    }
  }

  lemma {:induction false} PlacedIsReachable(base: seq<Block>, graph: seq<Block>, enter: nat, out: seq<nat>,
                                             seen: set<nat>, k: nat)
    requires Sound(base, graph, enter, out, seen) && k < |out| && out[k] < |base|
    ensures Reachable(Edges(base), enter, out[k])
  {
    assert HasParent(base, out, k);
    if k == 0 {
      ReachesItself(Edges(base), enter);
    } else {
      var j :| 0 <= j < k && out[j] < |base| && out[k] in Succs(base[out[j]].term);
      PlacedIsReachable(base, graph, enter, out, seen, j);
      assert Edge(Edges(base), out[j], out[k]);
      ReachExtends(Edges(base), enter, out[j], out[k]);
    }
  }

  // A successor in the original graph is a successor now, or the target of a trampoline that is.
  lemma SuccessorPlaced(base: seq<Block>, graph: seq<Block>, enter: nat, out: seq<nat>, a: nat, b: nat)
    requires Extends(base, graph) && LaidFrom(base, graph, enter, out, 0)
    requires a in out && a < |base| && b in Succs(base[a].term)
    ensures b in out
  {
    var k :| 0 <= k < |out| && out[k] == a;
    assert Laid(base, graph, enter, out, k);
    var y :| y in Succs(graph[a].term) && Resolve(graph, |base|, y) == b;
    if y != b {
      var t :| 0 <= t < |out| && out[t] == y;
      assert Laid(base, graph, enter, out, t);
      assert b in Succs(graph[y].term);
    }
  }

  lemma ReachableIsPlaced(base: seq<Block>, graph: seq<Block>, enter: nat, out: seq<nat>, x: nat)
    requires Extends(base, graph) && LaidFrom(base, graph, enter, out, 0) && enter in out && enter < |base|
    requires WellFormed(base) && Reachable(Edges(base), enter, x)
    ensures x in out
  {
    var inside := set y | y in out && y < |base|;
    forall a: nat, b: nat | a in inside && Edge(Edges(base), a, b)
      ensures b in inside
    {
      SuccessorPlaced(base, graph, enter, out, a, b);
    }
    ReachStays(Edges(base), enter, x, inside);
  }
}
