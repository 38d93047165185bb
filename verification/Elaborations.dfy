/** The state an elaboration keeps (dolang-compile/src/elab.rs, `Scope`, `AltFrame`),
    and what visiting a pattern does to it. */
module Elaborations {

  import opened Results
  import opened Patterns

  /** A variable; `pending` while the pattern that binds it is elaborated. */
  datatype Var = Var(sym: nat, pending: bool)

  /** An alternation being elaborated: what its first alternative binds, which
      alternative is current, and what that one has bound, if it is not the first. */
  datatype Frame = Frame(first: map<nat, nat>, current: nat, seen: set<nat>)

  datatype State = State(vars: seq<Var>, marked: seq<nat>, index: map<nat, nat>, alts: seq<Frame>, fail: bool)

  /** The innermost alternation whose first alternative is done. */
  function Shared(alts: seq<Frame>): (r: Option<nat>)
    ensures r.Some? ==> r.value < |alts| && alts[r.value].current > 0
    ensures forall k :: (if r.Some? then r.value + 1 else 0) <= k < |alts| ==> alts[k].current == 0
  {
    if alts == [] then None
    else if alts[|alts| - 1].current > 0 then Some(|alts| - 1)
    else Shared(alts[..|alts| - 1])
  }

  /** The names in scope that the pattern being elaborated has bound. */
  function Visible(st: State): set<nat> {
    set s | s in st.index && s != WILDCARD && st.index[s] < |st.vars| && st.vars[st.index[s]].pending
  }

  // ----- what always holds -----

  ghost predicate Ranged(st: State) {
    && (forall s :: s in st.index ==> st.index[s] < |st.vars|)
    && (forall i :: 0 <= i < |st.marked| ==> st.marked[i] < |st.vars|)
    && (forall i :: 0 <= i < |st.vars| && st.vars[i].pending ==> i in st.marked)
    && (forall k, s :: 0 <= k < |st.alts| && s in st.alts[k].first ==> st.alts[k].first[s] < |st.vars|)
  }

  ghost predicate IsPending(st: State, sym: nat, i: nat) {
    i < |st.vars| && st.vars[i] == Var(sym, true)
  }

  /** Unless elaboration has failed, the variables alternatives share are pending, and
      what the current alternative has bound is in scope. */
  ghost predicate Sane(st: State) {
    && Ranged(st)
    && (!st.fail ==>
          && (forall k, s :: 0 <= k < |st.alts| && s in st.alts[k].first ==>
                s != WILDCARD && IsPending(st, s, st.alts[k].first[s]))
          && (Shared(st.alts).Some? ==> st.alts[Shared(st.alts).value].seen <= Visible(st)))
  }

  // ----- what a visit does -----

  /** What a visit asks: to be well bound in itself, and that certain classes are not
      names the pattern has bound already. */
  datatype Ask = Ask(ok: bool, tests: set<nat>)

  const NOTHING: Ask := Ask(true, {})

  function AskOf(p: Pattern): Ask {
    Ask(WellBound(p), Tests(p))
  }

  function AskOfItems(items: seq<Pattern>, k: nat): Ask
    requires k <= |items|
  {
    Ask(ItemsWell(items, k), ItemTests(items, k))
  }

  function AskOfAlts(alts: seq<Pattern>, k: nat): Ask
    requires k <= |alts|
  {
    Ask(AltsWell(alts, k), ItemTests(alts, k))
  }

  /** What two visits in a row ask. */
  function Both(ask: Ask, names: set<nat>, ask': Ask, more: set<nat>): Ask {
    Ask(ask.ok && ask'.ok && names !! more + ask'.tests, ask.tests + ask'.tests)
  }

  /** The names can be bound here: none is bound already, nor are the classes tested for, and
      in an alternative after the first, the first binds them all. */
  ghost predicate Fits(ask: Ask, names: set<nat>, pre: State) {
    && ask.ok && names + ask.tests !! Visible(pre)
    && (Shared(pre.alts).Some? ==> names <= pre.alts[Shared(pre.alts).value].first.Keys)
  }

  /** A name's variable is the first alternative's, or a new one. */
  ghost predicate PlacedAt(pre: State, s: nat, i: nat) {
    match Shared(pre.alts)
    case Some(d) => s in pre.alts[d].first && i == pre.alts[d].first[s]
    case None => i >= |pre.vars|
  }

  /** Frame `k` has noted the names: as bound by the current alternative, or, in frames
      inside, by the first. */
  ghost predicate FrameAfter(pre: seq<Frame>, k: nat, names: set<nat>, vars: map<nat, nat>, post: Frame)
    requires k < |pre|
  {
    var d := Shared(pre);
    if d.Some? && k < d.value then post == pre[k]
    else if d.Some? && k == d.value then post == pre[k].(seen := pre[k].seen + names)
    else
      && post.current == pre[k].current && post.seen == pre[k].seen
      && post.first.Keys == pre[k].first.Keys + names
      && forall s :: s in post.first ==>
           if s in names then s in vars && post.first[s] == vars[s] else post.first[s] == pre[k].first[s]
  }

  ghost predicate FramesAfter(pre: seq<Frame>, names: set<nat>, vars: map<nat, nat>, post: seq<Frame>) {
    |post| == |pre| && forall k :: 0 <= k < |pre| ==> FrameAfter(pre, k, names, vars, post[k])
  }

  ghost predicate NamedIn(pre: State, names: set<nat>, vars: map<nat, nat>, post: State) {
    forall s :: s in names ==>
      s != WILDCARD && s in vars && IsPending(post, s, vars[s]) && PlacedAt(pre, s, vars[s])
  }

  /** Names bound: their variables are in scope, other names are as they were. */
  ghost predicate Effect(pre: State, names: set<nat>, post: State) {
    && pre.vars <= post.vars
    && NamedIn(pre, names, post.index, post)
    && (forall s :: s != WILDCARD && s !in names ==>
          && (s in post.index <==> s in pre.index)
          && (s in pre.index ==> post.index[s] == pre.index[s]))
    && FramesAfter(pre.alts, names, post.index, post.alts)
  }

  ghost predicate SameShape(pre: seq<Frame>, post: seq<Frame>) {
    |post| == |pre| && forall k :: 0 <= k < |pre| ==> post[k].current == pre[k].current
  }

  /** A visit fails exactly if the names do not fit, and otherwise binds them. */
  ghost predicate Outcome(pre: State, ask: Ask, names: set<nat>, post: State) {
    && Ranged(post) && |pre.vars| <= |post.vars| && SameShape(pre.alts, post.alts)
    && (post.fail <==> pre.fail || !Fits(ask, names, pre))
    && (!post.fail ==> Effect(pre, names, post))
  }

  // ----- variables without names -----

  /** Variables are only added, and keep their names. */
  predicate Grows(a: seq<Var>, b: seq<Var>) {
    |a| <= |b| && forall i :: 0 <= i < |a| ==> b[i].sym == a[i].sym
  }

  /** The variables were made one after another from `lo` on, without a name. */
  predicate Unnamed(vars: seq<Var>, made: seq<nat>, lo: nat) {
    && (forall i :: 0 <= i < |made| ==> lo <= made[i] < |vars| && vars[made[i]].sym == WILDCARD)
    && (forall i, j :: 0 <= i < j < |made| ==> made[i] < made[j])
  }

  lemma UnnamedChain(lo: nat, mid: seq<Var>, post: seq<Var>, made: seq<nat>, more: seq<nat>)
    requires lo <= |mid| && Grows(mid, post) && Unnamed(mid, made, lo) && Unnamed(post, more, |mid|)
    ensures Unnamed(post, made + more, lo)
  {
    var all := made + more;
    assert forall i :: 0 <= i < |made| ==> all[i] == made[i] && all[i] < |mid|;
    assert forall i :: |made| <= i < |all| ==> all[i] == more[i - |made|] && all[i] >= |mid|;
  }

  lemma NameGrows(st: State, sym: nat)
    requires Ranged(st)
    ensures Grows(st.vars, WithName(st, sym).vars)
    ensures sym == WILDCARD ==> Unnamed(WithName(st, sym).vars, [VarOf(st, sym)], |st.vars|)
  {
  }

  lemma {:induction false} SameShared(a: seq<Frame>, b: seq<Frame>)
    requires SameShape(a, b)
    ensures Shared(a) == Shared(b)
  {
    if a != [] {
      SameShared(a[..|a| - 1], b[..|b| - 1]);
    }
  }

  // The names bound come to be visible.
  lemma VisibleAfter(pre: State, names: set<nat>, post: State)
    requires Ranged(pre) && Effect(pre, names, post)
    ensures Visible(post) == Visible(pre) + names
  {
    forall s
      ensures s in Visible(post) <==> s in Visible(pre) + names
    {
      if s in names {
      } else if s != WILDCARD && s in pre.index {
        assert post.vars[pre.index[s]] == pre.vars[pre.index[s]];
      }
    }
  }

  lemma PendingStays(pre: State, post: State, s: nat, i: nat)
    requires IsPending(pre, s, i) && pre.vars <= post.vars
    ensures IsPending(post, s, i)
  {
    assert post.vars[i] == pre.vars[i];
  }

  lemma SeenVisible(pre: State, names: set<nat>, post: State)
    requires Sane(pre) && Effect(pre, names, post) && !pre.fail
    ensures Shared(pre.alts) == Shared(post.alts)
    ensures Shared(post.alts).Some? ==> post.alts[Shared(post.alts).value].seen <= Visible(post)
  {
    forall k | 0 <= k < |pre.alts|
      ensures post.alts[k].current == pre.alts[k].current
    {
      assert FrameAfter(pre.alts, k, names, post.index, post.alts[k]);
    }
    SameShared(pre.alts, post.alts);
    VisibleAfter(pre, names, post);
    if Shared(pre.alts).Some? {
      var d := Shared(pre.alts).value;
      assert FrameAfter(pre.alts, d, names, post.index, post.alts[d]);
    }
  }

  lemma StaysSane(pre: State, ask: Ask, names: set<nat>, post: State)
    requires Sane(pre) && Outcome(pre, ask, names, post)
    ensures Sane(post)
  {
    if !post.fail {
      SeenVisible(pre, names, post);
      forall k, s | 0 <= k < |post.alts| && s in post.alts[k].first
        ensures s != WILDCARD && IsPending(post, s, post.alts[k].first[s])
      {
        assert FrameAfter(pre.alts, k, names, post.index, post.alts[k]);
        if s in names && post.alts[k].first != pre.alts[k].first {
        } else {
          PendingStays(pre, post, s, pre.alts[k].first[s]);
        }
      }
    }
  }

  // ----- one name -----

  function Extended(alts: seq<Frame>, start: nat, sym: nat, i: nat): (r: seq<Frame>)
    ensures |r| == |alts|
    ensures forall k :: 0 <= k < |alts| ==>
              r[k] == if k < start then alts[k] else alts[k].(first := alts[k].first[sym := i])
  {
    seq(|alts|, k requires 0 <= k < |alts| =>
      if k < start then alts[k] else alts[k].(first := alts[k].first[sym := i]))
  }

  function SharedFor(st: State, sym: nat): Option<nat> {
    if sym == WILDCARD then None else Shared(st.alts)
  }

  /** The alternative being elaborated has bound the name already. */
  predicate Taken(st: State, sym: nat) {
    && sym != WILDCARD
    && (sym in Visible(st) || (Shared(st.alts).Some? && sym in st.alts[Shared(st.alts).value].seen))
  }

  /** The variable the first alternative gave the name. */
  function Known(st: State, sym: nat): Option<nat> {
    match SharedFor(st, sym)
    case Some(d) => if sym in st.alts[d].first then Some(st.alts[d].first[sym]) else None
    case None => None
  }

  function VarOf(st: State, sym: nat): nat {
    if Known(st, sym).Some? then Known(st, sym).value else |st.vars|
  }

  function VarsWith(st: State, sym: nat): seq<Var> {
    if Known(st, sym).Some? then st.vars else st.vars + [Var(sym, false)]
  }

  function FramesWith(st: State, sym: nat): seq<Frame> {
    if sym == WILDCARD then st.alts
    else
      match Shared(st.alts)
      case Some(d) =>
        Extended(st.alts[d := st.alts[d].(seen := st.alts[d].seen + {sym})], d + 1, sym, VarOf(st, sym))
      case None => Extended(st.alts, 0, sym, VarOf(st, sym))
  }

  /** The state after a name is bound. */
  function WithName(st: State, sym: nat): State
    requires Ranged(st)
  {
    var i := VarOf(st, sym);
    var vars := VarsWith(st, sym);
    State(vars[i := vars[i].(pending := true)], st.marked + [i], st.index[sym := i], FramesWith(st, sym),
          st.fail || Taken(st, sym) || (SharedFor(st, sym).Some? && Known(st, sym).None?))
  }

  lemma NameRanged(st: State, sym: nat)
    requires Ranged(st)
    ensures Ranged(WithName(st, sym)) && SameShape(st.alts, WithName(st, sym).alts)
    ensures |st.vars| <= |WithName(st, sym).vars|
  {
    var post := WithName(st, sym);
    var i := VarOf(st, sym);
    assert post.marked[|st.marked|] == i;
    forall v | 0 <= v < |post.vars| && post.vars[v].pending
      ensures v in post.marked
    {
      if v != i {
        var k :| 0 <= k < |st.marked| && st.marked[k] == v;
        assert post.marked[k] == v;
      }
    }
  }

  lemma NameFits(st: State, sym: nat)
    requires Sane(st)
    ensures var names := if sym == WILDCARD then {} else {sym};
            WithName(st, sym).fail <==> st.fail || !Fits(NOTHING, names, st)
  {
  }

  lemma NameFrames(st: State, sym: nat)
    requires sym != WILDCARD
    ensures FramesAfter(st.alts, {sym}, map[sym := VarOf(st, sym)], FramesWith(st, sym))
  {
    forall k | 0 <= k < |st.alts|
      ensures FrameAfter(st.alts, k, {sym}, map[sym := VarOf(st, sym)], FramesWith(st, sym)[k])
    {
    }
  }

  lemma FramesAnyMap(pre: seq<Frame>, names: set<nat>, m: map<nat, nat>, n: map<nat, nat>, post: seq<Frame>)
    requires FramesAfter(pre, names, m, post)
    requires forall s :: s in names && s in m ==> s in n && n[s] == m[s]
    ensures FramesAfter(pre, names, n, post)
  {
    forall k | 0 <= k < |pre|
      ensures FrameAfter(pre, k, names, n, post[k])
    {
      assert FrameAfter(pre, k, names, m, post[k]);
    }
  }

  lemma FramesUntouched(pre: seq<Frame>, vars: map<nat, nat>)
    ensures FramesAfter(pre, {}, vars, pre)
  {
    forall k | 0 <= k < |pre|
      ensures FrameAfter(pre, k, {}, vars, pre[k])
    {
    }
  }

  lemma NameVars(st: State, sym: nat)
    requires Sane(st) && !WithName(st, sym).fail
    ensures st.vars <= WithName(st, sym).vars
    ensures sym != WILDCARD ==> IsPending(WithName(st, sym), sym, VarOf(st, sym)) && PlacedAt(st, sym, VarOf(st, sym))
  {
    hide FramesWith, Visible;
    if Known(st, sym).Some? {
      assert IsPending(st, sym, VarOf(st, sym));
      var vars := st.vars;
      var i := VarOf(st, sym);
      assert vars[i := vars[i].(pending := true)] == vars;
    }
  }

  lemma NameEffect(st: State, sym: nat)
    requires Sane(st) && !WithName(st, sym).fail
    ensures Effect(st, if sym == WILDCARD then {} else {sym}, WithName(st, sym))
  {
    hide VarOf, VarsWith, Visible, FramesAfter, IsPending, Known, Taken, PlacedAt;
    NameVars(st, sym);
    var post := WithName(st, sym);
    assert post.index == st.index[sym := VarOf(st, sym)];
    if sym == WILDCARD {
      FramesUntouched(st.alts, post.index);
    } else {
      hide FramesWith;
      NameFrames(st, sym);
      FramesAnyMap(st.alts, {sym}, map[sym := VarOf(st, sym)], post.index, post.alts);
    }
  }

  /** Binding a name fails exactly if the name does not fit, and otherwise binds it. */
  lemma NameOutcome(st: State, sym: nat)
    requires Sane(st)
    ensures Outcome(st, NOTHING, if sym == WILDCARD then {} else {sym}, WithName(st, sym))
  {
    hide WithName, Fits, Effect;
    NameRanged(st, sym);
    NameFits(st, sym);
    if !WithName(st, sym).fail {
      NameEffect(st, sym);
    }
  }

  // ----- one class -----

  function TestAsk(cls: nat): Ask {
    Ask(true, if cls == WILDCARD then {} else {cls})
  }

  /** The state after a class is tested for. */
  function WithTest(st: State, cls: nat): State {
    st.(fail := st.fail || cls in Visible(st))
  }

  /** Testing for a class fails exactly if the pattern has bound its name. */
  lemma TestOutcome(st: State, cls: nat)
    requires Sane(st)
    ensures Outcome(st, TestAsk(cls), {}, WithTest(st, cls))
  {
    FramesUntouched(st.alts, st.index);
  }

  lemma {:induction false} TestAsks(cls: nat, q: Pattern)
    ensures Both(TestAsk(cls), {}, AskOf(q), Names(q)) == AskOf(TypeTest(cls, q))
    ensures {} + Names(q) == Names(TypeTest(cls, q))
  {
  }

  // ----- one thing after another -----

  lemma FitsBoth(pre: State, names: set<nat>, mid: State, ask: Ask, more: set<nat>, ask': Ask)
    requires Sane(pre) && Outcome(pre, ask, names, mid) && !mid.fail
    ensures Fits(Both(ask, names, ask', more), names + more, pre) <==> Fits(ask', more, mid)
  {
    VisibleAfter(pre, names, mid);
    SameShared(pre.alts, mid.alts);
    if Shared(pre.alts).Some? {
      var d := Shared(pre.alts).value;
      assert FrameAfter(pre.alts, d, names, mid.index, mid.alts[d]);
      assert mid.alts[d].first == pre.alts[d].first;
    }
  }

  lemma FramesBoth(pre: seq<Frame>, names: set<nat>, m: map<nat, nat>, mid: seq<Frame>,
                   more: set<nat>, n: map<nat, nat>, post: seq<Frame>)
    requires FramesAfter(pre, names, m, mid) && FramesAfter(mid, more, n, post) && SameShape(pre, mid)
    requires forall s :: s in names && s !in more && s in m ==> s in n && n[s] == m[s]
    ensures FramesAfter(pre, names + more, n, post)
  {
    SameShared(pre, mid);
    forall k | 0 <= k < |pre|
      ensures FrameAfter(pre, k, names + more, n, post[k])
    {
      assert FrameAfter(pre, k, names, m, mid[k]) && FrameAfter(mid, k, more, n, post[k]);
    }
  }

  lemma NamedBoth(pre: State, names: set<nat>, mid: State, more: set<nat>, post: State)
    requires Effect(pre, names, mid) && Effect(mid, more, post) && SameShape(pre.alts, mid.alts)
    ensures NamedIn(pre, names + more, post.index, post)
  {
    hide FrameAfter;
    SameShared(pre.alts, mid.alts);
    forall s | s in names + more
      ensures s != WILDCARD && s in post.index && IsPending(post, s, post.index[s]) && PlacedAt(pre, s, post.index[s])
    {
      if s in more {
        if Shared(pre.alts).Some? {
          var d := Shared(pre.alts).value;
          assert FramesAfter(pre.alts, names, mid.index, mid.alts);
          SharedFirst(pre, names, mid);
        }
      } else {
        PendingStays(mid, post, s, mid.index[s]);
      }
    }
  }

  lemma SharedFirst(pre: State, names: set<nat>, mid: State)
    requires FramesAfter(pre.alts, names, mid.index, mid.alts) && Shared(pre.alts).Some?
    ensures mid.alts[Shared(pre.alts).value].first == pre.alts[Shared(pre.alts).value].first
  {
    var d := Shared(pre.alts).value;
    assert FrameAfter(pre.alts, d, names, mid.index, mid.alts[d]);
  }

  lemma EffectBoth(pre: State, names: set<nat>, mid: State, more: set<nat>, post: State)
    requires Effect(pre, names, mid) && Effect(mid, more, post) && SameShape(pre.alts, mid.alts)
    ensures Effect(pre, names + more, post)
  {
    hide FramesAfter, NamedIn;
    NamedBoth(pre, names, mid, more, post);
    forall s | s in names && s !in more && s in mid.index
      ensures s in post.index && post.index[s] == mid.index[s]
    {
      assert s != WILDCARD by {
        NamedNotWild(pre, names, mid, s);
      }
    }
    FramesBoth(pre.alts, names, mid.index, mid.alts, more, post.index, post.alts);
  }

  lemma NamedNotWild(pre: State, names: set<nat>, mid: State, s: nat)
    requires NamedIn(pre, names, mid.index, mid) && s in names
    ensures s != WILDCARD
  {
  }

  /** Two visits in a row act as one that binds both lots of names, which must not overlap. */
  lemma OutcomesChain(pre: State, ask: Ask, names: set<nat>, mid: State, ask': Ask, more: set<nat>, post: State)
    requires Sane(pre) && Outcome(pre, ask, names, mid) && Outcome(mid, ask', more, post)
    ensures Outcome(pre, Both(ask, names, ask', more), names + more, post)
  {
    hide Effect, Fits, Ranged;
    if !mid.fail {
      FitsBoth(pre, names, mid, ask, more, ask');
      if !post.fail {
        EffectBoth(pre, names, mid, more, post);
      }
    } else {
      FitsLess(pre, ask, names, ask', more);
    }
  }

  lemma FitsLess(pre: State, ask: Ask, names: set<nat>, ask': Ask, more: set<nat>)
    ensures Fits(Both(ask, names, ask', more), names + more, pre) ==> Fits(ask, names, pre)
  {
  }

  lemma NothingHappens(pre: State)
    requires Sane(pre)
    ensures Outcome(pre, NOTHING, {}, pre)
  {
    FramesUntouched(pre.alts, pre.index);
  }
}
