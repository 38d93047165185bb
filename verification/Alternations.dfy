/** One alternative after another (dolang-compile/src/elab.rs, `visit_alternation`). */
module Alternations {

  import opened Results
  import opened Patterns
  import opened Elaborations

  /** An alternation is entered. */
  function Entered(pre: State): State {
    pre.(alts := pre.alts + [Frame(map[], 0, {})])
  }

  /** Alternative `k` begins: the names in scope are those before the alternation. */
  function Begun(names: map<nat, nat>, st: State, k: nat): State
    requires |st.alts| > 0
  {
    var last := |st.alts| - 1;
    st.(index := names, alts := st.alts[last := st.alts[last].(current := k, seen := {})])
  }

  function Inner(st: State): Frame
    requires |st.alts| > 0
  {
    st.alts[|st.alts| - 1]
  }

  /** What the first alternative binds that the current one has not. */
  predicate Misses(st: State)
    requires |st.alts| > 0
  {
    exists s :: s in Inner(st).first && s !in Inner(st).seen
  }

  function Ended(st: State, k: nat): State
    requires |st.alts| > 0
  {
    if k > 0 && Misses(st) then st.(fail := true) else st
  }

  /** The alternation is left: what every alternative binds comes into scope. */
  function Left(names: map<nat, nat>, st: State): State
    requires |st.alts| > 0
  {
    st.(index := names + Inner(st).first, alts := st.alts[..|st.alts| - 1])
  }

  ghost predicate AltEffect(pre: State, names: set<nat>, st: State)
    requires |st.alts| == |pre.alts| + 1
  {
    && pre.vars <= st.vars
    && Inner(st).first.Keys == names
    && NamedIn(pre, names, Inner(st).first, st)
    && FramesAfter(pre.alts, names, Inner(st).first, st.alts[..|pre.alts|])
  }

  /** Some alternatives are done: they fail exactly if they do not all bind the same names
      or those do not fit, and otherwise the first has bound the names. */
  ghost predicate Alternating(pre: State, ask: Ask, names: set<nat>, st: State) {
    && Ranged(st) && |pre.vars| <= |st.vars|
    && |st.alts| == |pre.alts| + 1 && SameShape(pre.alts, st.alts[..|pre.alts|])
    && (st.fail <==> pre.fail || !Fits(ask, names, pre))
    && (!st.fail ==> AltEffect(pre, names, st))
  }

  lemma EnterAlternating(pre: State)
    requires Sane(pre)
    ensures Alternating(pre, NOTHING, {}, Entered(pre))
  {
    var st := Entered(pre);
    assert st.alts[..|pre.alts|] == pre.alts;
    FramesUntouched(pre.alts, Inner(st).first);
  }

  // ----- an alternative begins -----

  lemma SharedInFirst(pre: State, st: State)
    requires |st.alts| == |pre.alts| + 1 && SameShape(pre.alts, st.alts[..|pre.alts|])
    ensures Shared(st.alts) == if Inner(st).current > 0 then Some(|pre.alts|) else Shared(pre.alts)
  {
    assert st.alts[..|st.alts| - 1] == st.alts[..|pre.alts|];
    SameShared(pre.alts, st.alts[..|pre.alts|]);
  }

  lemma BegunVisible(pre: State, st: State, k: nat)
    requires Ranged(pre) && pre.vars <= st.vars && |st.alts| > 0
    ensures Visible(Begun(pre.index, st, k)) == Visible(pre)
  {
    var b := Begun(pre.index, st, k);
    forall s | s in pre.index
      ensures b.vars[pre.index[s]] == pre.vars[pre.index[s]]
    {
    }
  }

  lemma BegunRanged(pre: State, ask: Ask, names: set<nat>, st: State, k: nat)
    requires Sane(pre) && Alternating(pre, ask, names, st)
    ensures Ranged(Begun(pre.index, st, k))
  {
    var b := Begun(pre.index, st, k);
    forall j, s | 0 <= j < |b.alts| && s in b.alts[j].first
      ensures b.alts[j].first[s] < |b.vars|
    {
      assert b.alts[j].first == st.alts[j].first;
    }
  }

  // Wherever a name is noted as bound by a first alternative, its variable is pending.
  lemma FirstsPending(pre: State, ask: Ask, names: set<nat>, st: State, j: nat, s: nat)
    requires Sane(pre) && Alternating(pre, ask, names, st) && !st.fail
    requires j < |st.alts| && s in st.alts[j].first
    ensures s != WILDCARD && IsPending(st, s, st.alts[j].first[s])
  {
    if j < |pre.alts| {
      assert st.alts[..|pre.alts|][j] == st.alts[j];
      assert FrameAfter(pre.alts, j, names, Inner(st).first, st.alts[j]);
      if s in names && st.alts[j].first != pre.alts[j].first {
      } else {
        PendingStays(pre, st, s, pre.alts[j].first[s]);
      }
    }
  }

  lemma BegunShape(pre: State, ask: Ask, names: set<nat>, st: State, k: nat)
    requires Alternating(pre, ask, names, st)
    ensures var b := Begun(pre.index, st, k);
            && |b.alts| == |pre.alts| + 1 && SameShape(pre.alts, b.alts[..|pre.alts|])
            && b.alts[..|pre.alts|] == st.alts[..|pre.alts|]
            && Shared(b.alts) == if k > 0 then Some(|pre.alts|) else Shared(pre.alts)
  {
    var b := Begun(pre.index, st, k);
    assert b.alts[..|pre.alts|] == st.alts[..|pre.alts|];
    SharedInFirst(pre, b);
  }

  lemma BegunSane(pre: State, ask: Ask, names: set<nat>, st: State, k: nat)
    requires Sane(pre) && Alternating(pre, ask, names, st)
    requires k == 0 ==> names == {}
    ensures Sane(Begun(pre.index, st, k))
  {
    hide AltEffect, Ranged;
    var b := Begun(pre.index, st, k);
    BegunRanged(pre, ask, names, st, k);
    BegunShape(pre, ask, names, st, k);
    if !b.fail {
      forall j, s | 0 <= j < |b.alts| && s in b.alts[j].first
        ensures s != WILDCARD && IsPending(b, s, b.alts[j].first[s])
      {
        assert b.alts[j].first == st.alts[j].first;
        FirstsPending(pre, ask, names, st, j, s);
      }
      AltVars(pre, names, st);
      BegunVisible(pre, st, k);
      if k == 0 && Shared(pre.alts).Some? {
        OuterUnseen(pre, names, st);
      }
    }
  }

  lemma AltVars(pre: State, names: set<nat>, st: State)
    requires |st.alts| == |pre.alts| + 1 && AltEffect(pre, names, st)
    ensures pre.vars <= st.vars
  {
  }

  lemma OuterUnseen(pre: State, names: set<nat>, st: State)
    requires |st.alts| == |pre.alts| + 1 && AltEffect(pre, names, st) && names == {} && Shared(pre.alts).Some?
    ensures st.alts[Shared(pre.alts).value].seen == pre.alts[Shared(pre.alts).value].seen
    ensures st.alts[Shared(pre.alts).value].first == pre.alts[Shared(pre.alts).value].first
  {
    var d := Shared(pre.alts).value;
    assert st.alts[..|pre.alts|][d] == st.alts[d];
    assert FrameAfter(pre.alts, d, names, Inner(st).first, st.alts[d]);
  }

  // ----- the first alternative -----

  lemma FirstFits(pre: State, st: State, ask: Ask, names: set<nat>)
    requires Sane(pre) && Alternating(pre, NOTHING, {}, st) && !st.fail
    ensures Fits(ask, names, Begun(pre.index, st, 0)) <==> Fits(ask, names, pre)
  {
    BegunShape(pre, NOTHING, {}, st, 0);
    BegunVisible(pre, st, 0);
    if Shared(pre.alts).Some? {
      OuterUnseen(pre, {}, st);
      assert st.alts[..|pre.alts|][Shared(pre.alts).value] == st.alts[Shared(pre.alts).value];
    }
  }

  lemma FirstFrames(pre: State, st: State, names: set<nat>, post: State)
    requires Sane(pre) && Alternating(pre, NOTHING, {}, st) && !st.fail
    requires Effect(Begun(pre.index, st, 0), names, post)
    ensures |post.alts| == |pre.alts| + 1
    ensures FramesAfter(pre.alts, names, post.index, post.alts[..|pre.alts|])
    ensures Inner(post).first.Keys == names
    ensures forall s :: s in names ==> s in post.index && Inner(post).first[s] == post.index[s]
  {
    var b := Begun(pre.index, st, 0);
    BegunShape(pre, NOTHING, {}, st, 0);
    forall k | 0 <= k < |pre.alts|
      ensures FrameAfter(pre.alts, k, names, post.index, post.alts[..|pre.alts|][k])
    {
      assert st.alts[..|pre.alts|][k] == b.alts[k];
      assert FrameAfter(pre.alts, k, {}, Inner(st).first, b.alts[k]);
      assert FrameAfter(b.alts, k, names, post.index, post.alts[k]);
    }
    assert FrameAfter(b.alts, |pre.alts|, names, post.index, post.alts[|pre.alts|]);
  }

  lemma FirstNamed(pre: State, st: State, names: set<nat>, post: State, s: nat)
    requires Sane(pre) && Alternating(pre, NOTHING, {}, st) && !st.fail
    requires Effect(Begun(pre.index, st, 0), names, post) && s in names
    ensures s != WILDCARD && s in post.index && IsPending(post, s, post.index[s]) && PlacedAt(pre, s, post.index[s])
  {
    hide Visible, FrameAfter;
    BegunShape(pre, NOTHING, {}, st, 0);
    if Shared(pre.alts).Some? {
      OuterUnseen(pre, {}, st);
      assert st.alts[..|pre.alts|][Shared(pre.alts).value] == st.alts[Shared(pre.alts).value];
    }
  }

  lemma FirstEffect(pre: State, st: State, names: set<nat>, post: State)
    requires Sane(pre) && Alternating(pre, NOTHING, {}, st) && !st.fail
    requires Effect(Begun(pre.index, st, 0), names, post)
    ensures |post.alts| == |pre.alts| + 1 && AltEffect(pre, names, post)
  {
    hide FrameAfter, Visible, Sane;
    FirstFrames(pre, st, names, post);
    forall s | s in names
      ensures s != WILDCARD && s in Inner(post).first && IsPending(post, s, Inner(post).first[s])
      ensures s in Inner(post).first && PlacedAt(pre, s, Inner(post).first[s])
    {
      FirstNamed(pre, st, names, post, s);
    }
    FramesAnyMap(pre.alts, names, post.index, Inner(post).first, post.alts[..|pre.alts|]);
    assert pre.vars <= st.vars <= post.vars;
  }

  lemma ShapeKept(pre: State, ask: Ask, names: set<nat>, st: State, k: nat, post: State)
    requires Alternating(pre, ask, names, st) && SameShape(Begun(pre.index, st, k).alts, post.alts)
    ensures |post.alts| == |pre.alts| + 1 && SameShape(pre.alts, post.alts[..|pre.alts|])
  {
    BegunShape(pre, ask, names, st, k);
    var b := Begun(pre.index, st, k);
    forall j | 0 <= j < |pre.alts|
      ensures post.alts[..|pre.alts|][j].current == pre.alts[j].current
    {
      assert b.alts[..|pre.alts|][j] == b.alts[j];
    }
  }

  /** The first alternative settles the names. */
  lemma FirstAlternating(pre: State, st: State, ask: Ask, names: set<nat>, post: State)
    requires Sane(pre) && Alternating(pre, NOTHING, {}, st)
    requires Outcome(Begun(pre.index, st, 0), ask, names, post)
    ensures Alternating(pre, ask, names, post)
  {
    hide AltEffect, Effect, Fits, Ranged, FrameAfter, Sane;
    ShapeKept(pre, NOTHING, {}, st, 0, post);
    if !st.fail {
      FirstFits(pre, st, ask, names);
      if !post.fail {
        FirstEffect(pre, st, names, post);
      }
    } else {
      EmptyFits(pre);
    }
  }

  lemma EmptyFits(pre: State)
    ensures Fits(NOTHING, {}, pre)
  {
  }

  // ----- the other alternatives -----

  lemma LaterFits(pre: State, ask: Ask, names: set<nat>, st: State, k: nat, ask': Ask, more: set<nat>)
    requires Sane(pre) && Alternating(pre, ask, names, st) && !st.fail && k > 0
    ensures Fits(ask', more, Begun(pre.index, st, k)) <==> ask'.ok && more <= names && ask'.tests !! Visible(pre)
  {
    BegunShape(pre, ask, names, st, k);
    BegunVisible(pre, st, k);
  }

  lemma LaterEffect(pre: State, ask: Ask, names: set<nat>, st: State, k: nat, more: set<nat>, post: State)
    requires Sane(pre) && Alternating(pre, ask, names, st) && !st.fail && k > 0
    requires Effect(Begun(pre.index, st, k), more, post)
    ensures |post.alts| == |pre.alts| + 1
    ensures post.alts[..|pre.alts|] == st.alts[..|pre.alts|]
    ensures Inner(post).first == Inner(st).first && Inner(post).seen == more
    ensures forall s :: s in more ==> s in Inner(st).first && s in post.index && post.index[s] == Inner(st).first[s]
  {
    var b := Begun(pre.index, st, k);
    BegunShape(pre, ask, names, st, k);
    forall j | 0 <= j < |pre.alts|
      ensures post.alts[j] == st.alts[j]
    {
      assert FrameAfter(b.alts, j, more, post.index, post.alts[j]);
    }
    assert FrameAfter(b.alts, |pre.alts|, more, post.index, post.alts[|pre.alts|]);
  }

  lemma LaterAltEffect(pre: State, ask: Ask, names: set<nat>, st: State, k: nat, more: set<nat>, post: State)
    requires Sane(pre) && Alternating(pre, ask, names, st) && !st.fail && k > 0
    requires Effect(Begun(pre.index, st, k), more, post)
    ensures |post.alts| == |pre.alts| + 1 && AltEffect(pre, names, post)
    ensures Misses(post) <==> !(names <= more)
  {
    hide FrameAfter, Sane;
    LaterEffect(pre, ask, names, st, k, more, post);
    assert pre.vars <= st.vars <= post.vars;
    forall s | s in names
      ensures s in Inner(post).first && IsPending(post, s, Inner(post).first[s])
    {
      PendingStays(st, post, s, Inner(st).first[s]);
    }
  }

  /** A later alternative must bind the same names. */
  lemma LaterAlternating(pre: State, ask: Ask, names: set<nat>, st: State, k: nat,
                         ask': Ask, more: set<nat>, post: State)
    requires Sane(pre) && Alternating(pre, ask, names, st) && k > 0
    requires Outcome(Begun(pre.index, st, k), ask', more, post)
    ensures |post.alts| > 0
    ensures Alternating(pre, Ask(ask.ok && ask'.ok && more == names, ask.tests + ask'.tests), names, Ended(post, k))
  {
    hide AltEffect, Effect, FrameAfter, Sane, Misses;
    ShapeKept(pre, ask, names, st, k, post);
    if !st.fail {
      hide Fits;
      LaterFits(pre, ask, names, st, k, ask', more);
      FitsAlso(pre, ask, names, Ask(ask'.ok && more == names, ask'.tests));
      if !post.fail {
        LaterAltEffect(pre, ask, names, st, k, more, post);
      }
    }
  }

  lemma FitsAlso(pre: State, ask: Ask, names: set<nat>, ask': Ask)
    ensures Fits(Ask(ask.ok && ask'.ok, ask.tests + ask'.tests), names, pre)
            <==> Fits(ask, names, pre) && ask'.ok && ask'.tests !! Visible(pre)
  {
  }

  // ----- the alternation ends -----

  lemma LeftEffect(pre: State, names: set<nat>, st: State)
    requires |st.alts| == |pre.alts| + 1 && AltEffect(pre, names, st)
    ensures Effect(pre, names, Left(pre.index, st))
  {
    hide FrameAfter;
    var post := Left(pre.index, st);
    FramesAnyMap(pre.alts, names, Inner(st).first, post.index, post.alts);
    assert post.alts == st.alts[..|pre.alts|];
    forall s | s in names
      ensures IsPending(post, s, post.index[s])
    {
      assert IsPending(st, s, Inner(st).first[s]);
    }
  }

  lemma LeftRanged(pre: State, ask: Ask, names: set<nat>, st: State)
    requires Sane(pre) && Alternating(pre, ask, names, st)
    ensures Ranged(Left(pre.index, st))
  {
    hide AltEffect, Fits;
    var post := Left(pre.index, st);
    forall j, s | 0 <= j < |post.alts| && s in post.alts[j].first
      ensures post.alts[j].first[s] < |post.vars|
    {
      assert post.alts[j] == st.alts[j];
    }
    forall s | s in post.index
      ensures post.index[s] < |post.vars|
    {
      assert s in Inner(st).first || s in pre.index;
    }
  }

  /** Seen from outside, an alternation binds the names of its alternatives once. */
  lemma LeftOutcome(pre: State, ask: Ask, names: set<nat>, st: State)
    requires Sane(pre) && Alternating(pre, ask, names, st)
    ensures Outcome(pre, ask, names, Left(pre.index, st))
  {
    hide AltEffect, Effect, Ranged, Fits, Sane;
    LeftRanged(pre, ask, names, st);
    assert st.alts[..|st.alts| - 1] == st.alts[..|pre.alts|];
    if !st.fail {
      LeftEffect(pre, names, st);
    }
  }

  /** The variable that says which alternative matched is in no scope. */
  function Synthesized(st: State): State {
    st.(vars := st.vars + [Var(WILDCARD, false)])
  }

  lemma SynthesizedOutcome(pre: State, ask: Ask, names: set<nat>, st: State)
    requires Outcome(pre, ask, names, st)
    ensures Outcome(pre, ask, names, Synthesized(st))
  {
    hide Fits, FramesAfter;
    var post := Synthesized(st);
    forall i | 0 <= i < |post.vars| && post.vars[i].pending
      ensures i in post.marked
    {
      assert i < |st.vars| && st.vars[i].pending;
    }
    if !st.fail {
      forall s | s in names
        ensures IsPending(post, s, post.index[s])
      {
        assert IsPending(st, s, st.index[s]);
      }
    }
  }
}
