/** The elaboration of patterns (dolang-compile/src/elab.rs, `bind_ident`,
    `visit_alternation`, `visit_pattern_inner` and `visit_pattern`). */
module Elaborators {

  import opened Results
  import opened Patterns
  import opened Elaborations
  import opened Alternations

  class Elaborator {
    var vars: seq<Var>
    var patternPending: seq<nat>
    var index: map<nat, nat>
    var alts: seq<Frame>
    var fail: bool

    constructor (vars: seq<Var>, index: map<nat, nat>)
      ensures this.vars == vars && this.index == index
      ensures patternPending == [] && alts == [] && !fail
    {
      this.vars, this.index := vars, index;
      patternPending, alts, fail := [], [], false;
    }

    ghost function Now(): State
      reads this
    {
      State(vars, patternPending, index, alts, fail)
    }

    ghost predicate Valid()
      reads this
    {
      Sane(Now())
    }

    // What has been visited since `before` has its indicators, and only made variables.
    ghost predicate Anonymized(before: seq<Var>, done: seq<Bound>)
      reads this
    {
      && Grows(before, vars) && (forall j :: 0 <= j < |done| ==> Indicated(done[j]))
      && Unnamed(vars, AllAnonymous(done, |done|), |before|)
    }

    // ----- scopes -----

    method Insert(sym: nat) returns (i: nat)
      modifies this`vars, this`index
      ensures i == |old(vars)| && vars == old(vars) + [Var(sym, false)] && index == old(index)[sym := i]
    {
      i := |vars|;
      vars := vars + [Var(sym, false)];
      index := index[sym := i];
    }

    method MarkPatternBinding(i: nat)
      requires i < |vars|
      modifies this`vars, this`patternPending
      ensures vars == old(vars)[i := old(vars)[i].(pending := true)] && patternPending == old(patternPending) + [i]
    {
      vars := vars[i := vars[i].(pending := true)];
      patternPending := patternPending + [i];
    }

    method PendingLocal(sym: nat) returns (pending: bool)
      requires Ranged(Now())
      ensures pending == (sym in index && vars[index[sym]].pending)
    {
      pending := sym in index && vars[index[sym]].pending;
    }

    // ----- one name -----

    // The innermost alternation whose first alternative is done.
    method FindShared() returns (r: Option<nat>)
      ensures r == Shared(alts)
    {
      var k := |alts|;
      assert alts[..k] == alts;
      while k > 0
        invariant 0 <= k <= |alts| && Shared(alts) == Shared(alts[..k])
      {
        if alts[k - 1].current > 0 {
          return Some(k - 1);
        }
        assert alts[..k][..k - 1] == alts[..k - 1];
        k := k - 1;
      }
      return None;
    }

    // Whether the pattern has bound the name already.
    method CheckDuplicate(sym: nat, shared: Option<nat>) returns (taken: bool)
      requires Ranged(Now()) && shared == SharedFor(Now(), sym)
      ensures taken <==> Taken(Now(), sym)
    {
      if shared.Some? && sym in alts[shared.value].seen {
        return true;
      }
      var pending := PendingLocal(sym);
      return sym != WILDCARD && pending;
    }

    // Notes in the alternations from `start` on what their first alternative binds.
    method NoteFirst(start: nat, sym: nat, i: nat)
      requires start <= |alts|
      modifies this`alts
      ensures alts == Extended(old(alts), start, sym, i)
    {
      var k := start;
      while k < |alts|
        invariant start <= k <= |alts| == |old(alts)|
        invariant forall j :: 0 <= j < |alts| ==>
                    alts[j] == if start <= j < k then old(alts)[j].(first := old(alts)[j].first[sym := i]) else old(alts)[j]
      {
        alts := alts[k := alts[k].(first := alts[k].first[sym := i])];
        k := k + 1;
      }
    }

    // The variable the first alternative gave the name, which it must have bound.
    method LookupFirst(sym: nat, shared: Option<nat>) returns (known: Option<nat>)
      requires shared == SharedFor(Now(), sym)
      modifies this`alts, this`index, this`fail
      ensures known == Known(old(Now()), sym)
      ensures alts == if shared.None? then old(alts)
                      else old(alts)[shared.value := old(alts)[shared.value].(seen := old(alts)[shared.value].seen + {sym})]
      ensures index == if known.None? then old(index) else old(index)[sym := known.value]
      ensures fail <==> old(fail) || (shared.Some? && known.None?)
    {
      known := None;
      if shared.Some? {
        var frame := alts[shared.value];
        alts := alts[shared.value := frame.(seen := frame.seen + {sym})];
        if sym in frame.first {
          known := Some(frame.first[sym]);
          index := index[sym := frame.first[sym]];
        } else {
          fail := true;
        }
      }
    }

    /** Gives a name a variable: its own, or in a later alternative the first one's. */
    method BindIdent(sym: nat) returns (i: nat)
      requires Valid()
      modifies this
      ensures Now() == WithName(old(Now()), sym) && i == VarOf(old(Now()), sym)
      ensures Grows(old(vars), vars) && (sym == WILDCARD ==> Unnamed(vars, [i], |old(vars)|))
    {
      hide Extended, Sane, Visible, Taken, Known, Shared, Ranged;
      SaneRanged(Now());
      KnownRanged(Now(), sym);
      ghost var st := Now();
      var wildcard := sym == WILDCARD;
      var found := FindShared();
      var shared := if wildcard then None else found;
      var taken := CheckDuplicate(sym, shared);
      fail := fail || taken;
      KnownByFrames(st, Now(), sym);
      var known := LookupFirst(sym, shared);
      if known.Some? {
        i := known.value;
      } else {
        i := Insert(sym);
      }
      if !wildcard {
        NoteFirst(if shared.Some? then shared.value + 1 else 0, sym, i);
      }
      MarkPatternBinding(i);
      NameGrows(st, sym);
    }

    // The class of a type test must not be a name that the pattern itself has bound.
    method VisitClass(cls: nat)
      requires Valid()
      modifies this`fail
      ensures Now() == WithTest(old(Now()), cls)
    {
      SaneRanged(Now());
      var pending := PendingLocal(cls);
      fail := fail || (cls != WILDCARD && pending);
    }

    // ----- patterns -----

    /** Visiting a pattern fails exactly if it is not well bound or does not fit, and
        otherwise binds its names, each occurrence to the variable now in scope. */
    method VisitPatternInner(p: Pattern) returns (b: Bound)
      requires Valid()
      modifies this
      ensures Valid() && Outcome(old(Now()), AskOf(p), Names(p), Now())
      ensures Erase(b) == p && (!fail ==> Follows(b, index))
      ensures Grows(old(vars), vars) && Indicated(b) && Unnamed(vars, Anonymous(b), |old(vars)|)
      decreases p, 1
    {
      hide Sane, Outcome;
      ghost var pre := Now();
      match p
      case Constant =>
        NothingHappens(pre);
        return BoundConstant;
      case Name(sym, computed) =>
        var i := BindIdent(sym);
        NameOutcome(pre, sym);
        StaysSane(pre, NOTHING, Names(p), Now());
        return BoundName(sym, computed, i);
      case TypeTest(cls, q) =>
        VisitClass(cls);
        ghost var mid := Now();
        TestOutcome(pre, cls);
        StaysSane(pre, TestAsk(cls), {}, mid);
        var c := VisitPatternInner(q);
        OutcomesChain(pre, TestAsk(cls), {}, mid, AskOf(q), Names(q), Now());
        TestAsks(cls, q);
        return BoundTest(cls, c);
      case Param(q, computed) =>
        var c := VisitPatternInner(q);
        return BoundParam(c, computed);
      case Unpack(items) =>
        b := VisitUnpack(items);
      case Alt(alternatives) =>
        b := VisitAlternation(alternatives);
    }

    method VisitUnpack(items: seq<Pattern>) returns (b: Bound)
      requires Valid()
      modifies this
      ensures Valid() && Outcome(old(Now()), AskOfItems(items, |items|), ItemNames(items, |items|), Now())
      ensures Erase(b) == Unpack(items) && (!fail ==> Follows(b, index))
      ensures Grows(old(vars), vars) && Indicated(b) && Unnamed(vars, Anonymous(b), |old(vars)|)
      decreases items, 0
    {
      hide Sane, Outcome, Follows, Erase;
      ghost var pre := Now();
      NothingHappens(pre);
      var done: seq<Bound> := [];
      var k := 0;
      while k < |items|
        invariant k == |done| <= |items| && Valid()
        invariant Outcome(pre, AskOfItems(items, k), ItemNames(items, k), Now())
        invariant forall j :: 0 <= j < k ==> Erase(done[j]) == items[j]
        invariant !fail ==> forall j :: 0 <= j < k ==> Follows(done[j], index)
        invariant Anonymized(old(vars), done)
      {
        ghost var mid := Now();
        var c := VisitPatternInner(items[k]);
        AnonymizedOn(old(vars), mid.vars, vars, done, c);
        OutcomesChain(pre, AskOfItems(items, k), ItemNames(items, k), mid, AskOf(items[k]), Names(items[k]), Now());
        ItemsFollowOn(pre, items, done, k, mid, Now());
        done := done + [c];
        k := k + 1;
      }
      b := BoundUnpack(done);
      UnpackErases(items, done);
    }

    // Visits the alternatives in turn.
    method VisitAlternation(alternatives: seq<Pattern>) returns (b: Bound)
      requires Valid()
      modifies this
      ensures Valid() && Outcome(old(Now()), AskOfAlts(alternatives, |alternatives|), Names(Alt(alternatives)), Now())
      ensures Erase(b) == Alt(alternatives) && (!fail ==> Follows(b, index))
      ensures Grows(old(vars), vars) && Indicated(b) && Unnamed(vars, Anonymous(b), |old(vars)|)
      decreases alternatives, 0
    {
      hide Sane, Outcome, Follows, Erase, Alternating, Indicated, Unnamed, AllAnonymous, Grows, HasComputed;
      ghost var pre := Now();
      var names := index;
      alts := alts + [Frame(map[], 0, {})];
      EnterAlternating(pre);
      var done := VisitEach(alternatives, names, pre);
      ghost var st := Now();
      var frame := alts[|alts| - 1];
      alts := alts[..|alts| - 1];
      index := names + frame.first;
      LeftOutcome(pre, AskOfAlts(alternatives, |alternatives|), Names(Alt(alternatives)), st);
      ghost var left := Now();
      var indicator := InsertIndicator(alternatives);
      if indicator.Some? {
        SynthesizedOutcome(pre, AskOfAlts(alternatives, |alternatives|), Names(Alt(alternatives)), left);
      }
      StaysSane(pre, AskOfAlts(alternatives, |alternatives|), Names(Alt(alternatives)), Now());
      b := BoundAlt(done, indicator);
      AltErases(alternatives, done, indicator);
      AltAnonymized(pre.vars, left.vars, vars, alternatives, done, indicator);
      if !fail {
        AltFollows(pre, alternatives, done, indicator, st);
      }
    }

    // Visits each alternative in turn, in the frame of the alternation.
    method VisitEach(alternatives: seq<Pattern>, names: map<nat, nat>, ghost pre: State) returns (done: seq<Bound>)
      requires Sane(pre) && names == pre.index && |alts| > 0 && vars == pre.vars
      requires Alternating(pre, AskOfAlts(alternatives, 0), NamesSoFar(alternatives, 0), Now())
      modifies this
      ensures |alts| > 0 && |done| == |alternatives|
      ensures Alternating(pre, AskOfAlts(alternatives, |alternatives|), Names(Alt(alternatives)), Now())
      ensures forall j :: 0 <= j < |done| ==> Erase(done[j]) == alternatives[j]
      ensures !fail ==> forall j :: 0 <= j < |done| ==> Follows(done[j], Inner(Now()).first)
      ensures Anonymized(pre.vars, done)
      decreases alternatives, 0, |alternatives| + 1
    {
      hide Sane, Outcome, Follows, Erase, Alternating, Indicated, Unnamed, AllAnonymous, Grows;
      GrowsItself(vars);
      done := [];
      var k := 0;
      while k < |alternatives|
        invariant k == |done| <= |alternatives|
        invariant Alternating(pre, AskOfAlts(alternatives, k), NamesSoFar(alternatives, k), Now())
        invariant |alts| > 0
        invariant forall j :: 0 <= j < k ==> Erase(done[j]) == alternatives[j]
        invariant !fail ==> forall j :: 0 <= j < k ==> Follows(done[j], Inner(Now()).first)
        invariant Anonymized(pre.vars, done)
      {
        ghost var mid := vars;
        var c := VisitAlternative(alternatives, k, names, pre, done);
        AnonymizedOn(pre.vars, mid, vars, done, c);
        done := done + [c];
        k := k + 1;
      }
      assert NamesSoFar(alternatives, k) == Names(Alt(alternatives));
    }

    // Which alternative matched is kept if one of them has a default to compute.
    method InsertIndicator(alternatives: seq<Pattern>) returns (indicator: Option<nat>)
      modifies this`vars
      ensures indicator == if exists i :: 0 <= i < |alternatives| && HasComputed(alternatives[i]) then Some(|old(vars)|)
                           else None
      ensures vars == if indicator.Some? then old(vars) + [Var(WILDCARD, false)] else old(vars)
    {
      indicator := None;
      if exists i :: 0 <= i < |alternatives| && HasComputed(alternatives[i]) {
        indicator := Some(|vars|);
        vars := vars + [Var(WILDCARD, false)];
      }
    }

    // Visits one alternative, with the names in scope that were before the alternation.
    method VisitAlternative(alternatives: seq<Pattern>, k: nat, names: map<nat, nat>,
                            ghost pre: State, ghost done: seq<Bound>) returns (c: Bound)
      requires Sane(pre) && names == pre.index && k < |alternatives| && |alts| > 0
      requires Alternating(pre, AskOfAlts(alternatives, k), NamesSoFar(alternatives, k), Now())
      requires k == |done| && forall j :: 0 <= j < k ==> Erase(done[j]) == alternatives[j]
      requires !fail ==> forall j :: 0 <= j < k ==> Follows(done[j], Inner(Now()).first)
      modifies this
      ensures |alts| > 0
      ensures Alternating(pre, AskOfAlts(alternatives, k + 1), NamesSoFar(alternatives, k + 1), Now())
      ensures Erase(c) == alternatives[k]
      ensures !fail ==> (forall j :: 0 <= j < k ==> Follows(done[j], Inner(Now()).first))
      ensures !fail ==> Follows(c, Inner(Now()).first)
      ensures Grows(old(vars), vars) && Indicated(c) && Unnamed(vars, Anonymous(c), |old(vars)|)
      decreases alternatives, 0, k
    {
      hide Sane, Outcome, Follows, Erase, Alternating;
      ghost var st := Now();
      var last := |alts| - 1;
      alts := alts[last := alts[last].(current := k, seen := {})];
      index := names;
      BegunSane(pre, AskOfAlts(alternatives, k), NamesSoFar(alternatives, k), st, k);
      c := VisitPatternInner(alternatives[k]);
      ghost var post := Now();
      AlternativeDone(pre, alternatives, k, st, post);
      if k > 0 {
        var frame := alts[|alts| - 1];
        var missing := exists s :: s in frame.first && s !in frame.seen;
        assert frame == Inner(post) && missing == Misses(post);
        fail := fail || missing;
        assert Now() == Ended(post, k) by {
          EndedIs(post, k, fail);
        }
      }
      if !fail {
        AlternativeFollows(pre, alternatives, k, st, post, done, c);
      }
    }

    /** Elaborates a pattern: it adds a failure exactly if the pattern is not well bound, and
        otherwise the alternatives share their variables. */
    method VisitPattern(p: Pattern) returns (b: Bound)
      requires Ranged(Now()) && alts == []
      requires forall i :: 0 <= i < |vars| ==> !vars[i].pending
      modifies this
      ensures Erase(b) == p && alts == [] && patternPending == []
      ensures forall i :: 0 <= i < |vars| ==> !vars[i].pending
      ensures fail <==> old(fail) || !WellBound(p)
      ensures Indicated(b) && Unnamed(vars, Anonymous(b), |old(vars)|)
      ensures !fail ==>
                && Follows(b, index) && Shares(b)
                && (forall s, i :: (s, i) in Bindings(b) <==> s in Names(p) && s in index && index[s] == i)
                && (forall s :: s in Names(p) ==>
                      s in index && |old(vars)| <= index[s] < |vars| && vars[index[s]] == Var(s, false))
                && (forall s :: s != WILDCARD && s !in Names(p) ==>
                      && (s in index <==> s in old(index))
                      && (s in index ==> index[s] == old(index)[s]))
    {
      hide Follows, Erase, Shares, Bindings;
      ghost var pre := Now();
      assert Visible(pre) == {};
      b := VisitPatternInner(p);
      ghost var post := Now();
      assert fail <==> old(fail) || !WellBound(p);
      FinishPattern();
      if !fail {
        FollowingShares(b, index);
        forall s | s in Names(p)
          ensures s in index && |old(vars)| <= index[s] < |vars| && vars[index[s]] == Var(s, false)
        {
          assert IsPending(post, s, index[s]) && PlacedAt(pre, s, index[s]);
        }
      }
    }

    // No variable is pending any more.
    method FinishPattern()
      requires Ranged(Now())
      modifies this`vars, this`patternPending
      ensures |vars| == |old(vars)| && patternPending == []
      ensures forall i :: 0 <= i < |vars| ==> vars[i] == old(vars)[i].(pending := false)
    {
      var k := 0;
      while k < |patternPending|
        invariant k <= |patternPending| && patternPending == old(patternPending) && |vars| == |old(vars)|
        invariant forall i :: 0 <= i < |vars| ==>
                    vars[i] == if i in patternPending[..k] then old(vars)[i].(pending := false) else old(vars)[i]
      {
        var i := patternPending[k];
        assert patternPending[..k + 1] == patternPending[..k] + [i];
        vars := vars[i := vars[i].(pending := false)];
        k := k + 1;
      }
      assert patternPending[..k] == patternPending;
      forall i | 0 <= i < |vars|
        ensures vars[i] == old(vars)[i].(pending := false)
      {
        assert old(Now()).vars[i].pending ==> i in old(Now()).marked;
      }
      patternPending := [];
    }
  }

  // One more part visited.
  lemma {:induction false} AnonymizedOn(before: seq<Var>, mid: seq<Var>, post: seq<Var>, done: seq<Bound>, c: Bound)
    requires Grows(before, mid) && Grows(mid, post)
    requires (forall j :: 0 <= j < |done| ==> Indicated(done[j])) && Indicated(c)
    requires Unnamed(mid, AllAnonymous(done, |done|), |before|) && Unnamed(post, Anonymous(c), |mid|)
    ensures Grows(before, post) && forall j :: 0 <= j < |done + [c]| ==> Indicated((done + [c])[j])
    ensures Unnamed(post, AllAnonymous(done + [c], |done + [c]|), |before|)
  {
    hide Indicated, Anonymous;
    AnonymousAppend(done, c);
    UnnamedChain(|before|, mid, post, AllAnonymous(done, |done|), Anonymous(c));
  }

  lemma AllErase(alternatives: seq<Pattern>, done: seq<Bound>)
    requires |done| == |alternatives| && forall j :: 0 <= j < |done| ==> Erase(done[j]) == alternatives[j]
    ensures (exists i :: 0 <= i < |alternatives| && HasComputed(alternatives[i]))
            <==> exists i :: 0 <= i < |done| && HasComputed(Erase(done[i]))
  {
    hide Erase, HasComputed;
    forall i | 0 <= i < |done|
      ensures HasComputed(alternatives[i]) <==> HasComputed(Erase(done[i]))
    {
    }
  }

  lemma GrowsItself(vars: seq<Var>)
    ensures Grows(vars, vars) && Unnamed(vars, AllAnonymous([], 0), |vars|)
  {
  }

  // The indicator, if there is one, is made last.
  lemma {:induction false} AltAnonymized(before: seq<Var>, mid: seq<Var>, post: seq<Var>, alternatives: seq<Pattern>, done: seq<Bound>,
                      indicator: Option<nat>)
    requires |done| == |alternatives| && forall j :: 0 <= j < |done| ==> Erase(done[j]) == alternatives[j]
    requires Grows(before, mid) && (forall j :: 0 <= j < |done| ==> Indicated(done[j]))
    requires Unnamed(mid, AllAnonymous(done, |done|), |before|)
    requires indicator == if exists i :: 0 <= i < |alternatives| && HasComputed(alternatives[i]) then Some(|mid|) else None
    requires post == if indicator.Some? then mid + [Var(WILDCARD, false)] else mid
    ensures Grows(before, post) && Indicated(BoundAlt(done, indicator))
    ensures Unnamed(post, Anonymous(BoundAlt(done, indicator)), |before|)
  {
    hide AllAnonymous, HasComputed, Erase;
    AllErase(alternatives, done);
    var made := AllAnonymous(done, |done|);
    if indicator.Some? {
      UnnamedChain(|before|, mid, post, made, [|mid|]);
    } else {
      assert made + [] == made;
    }
  }

  function NamesSoFar(alternatives: seq<Pattern>, k: nat): set<nat>
    requires k <= |alternatives|
  {
    if k == 0 then {} else Names(alternatives[0])
  }

  lemma KnownByFrames(a: State, b: State, sym: nat)
    requires a.alts == b.alts
    ensures Known(a, sym) == Known(b, sym)
  {
  }

  lemma KnownRanged(st: State, sym: nat)
    requires Ranged(st)
    ensures Known(st, sym).Some? ==> Known(st, sym).value < |st.vars|
  {
  }

  lemma SaneRanged(st: State)
    requires Sane(st)
    ensures Ranged(st)
  {
  }

  lemma EndedIs(post: State, k: nat, failed: bool)
    requires |post.alts| > 0 && k > 0 && failed == (post.fail || Misses(post))
    ensures Ended(post, k) == post.(fail := failed)
  {
  }

  // Items visited earlier keep their variables.
  lemma {:induction false} ItemsFollowOn(pre: State, items: seq<Pattern>, done: seq<Bound>, k: nat, mid: State, post: State)
    requires Sane(pre) && k == |done| < |items|
    requires forall j :: 0 <= j < k ==> Erase(done[j]) == items[j]
    requires !mid.fail ==> forall j :: 0 <= j < k ==> Follows(done[j], mid.index)
    requires Outcome(pre, AskOfItems(items, k), ItemNames(items, k), mid)
    requires Outcome(mid, AskOf(items[k]), Names(items[k]), post)
    ensures !post.fail ==> forall j :: 0 <= j < k ==> Follows(done[j], post.index)
  {
    hide Follows, Erase, FramesAfter, Sane, Ranged;
    if !post.fail {
      VisibleAfter(pre, ItemNames(items, k), mid) by {
        SaneRanged(pre);
      }
      ItemsWellEach(items, k);
      forall j | 0 <= j < k
        ensures Follows(done[j], post.index)
      {
        forall s | s in Names(items[j])
          ensures s in ItemNames(items, k)
        {
          InItemNames(items, k, s);
        }
        FollowsAgain(done[j], mid.index, post.index);
      }
    }
  }

  lemma UnpackErases(items: seq<Pattern>, done: seq<Bound>)
    requires |done| == |items| && forall j :: 0 <= j < |items| ==> Erase(done[j]) == items[j]
    ensures Erase(BoundUnpack(done)) == Unpack(items)
    ensures forall m: map<nat, nat> :: (forall j :: 0 <= j < |items| ==> Follows(done[j], m)) ==> Follows(BoundUnpack(done), m)
  {
    assert Erase(BoundUnpack(done)).items == items;
  }

  lemma {:induction false} AltErases(alternatives: seq<Pattern>, done: seq<Bound>, indicator: Option<nat>)
    requires |done| == |alternatives| && forall j :: 0 <= j < |alternatives| ==> Erase(done[j]) == alternatives[j]
    ensures Erase(BoundAlt(done, indicator)) == Alt(alternatives)
  {
    assert Erase(BoundAlt(done, indicator)).alts == alternatives;
  }

  lemma AlternativeDone(pre: State, alternatives: seq<Pattern>, k: nat, st: State, post: State)
    requires Sane(pre) && k < |alternatives|
    requires Alternating(pre, AskOfAlts(alternatives, k), NamesSoFar(alternatives, k), st)
    requires Outcome(Begun(pre.index, st, k), AskOf(alternatives[k]), Names(alternatives[k]), post)
    ensures |post.alts| > 0
    ensures Alternating(pre, AskOfAlts(alternatives, k + 1), NamesSoFar(alternatives, k + 1), Ended(post, k))
  {
    hide Sane, Outcome, Alternating;
    if k == 0 {
      assert AskOfAlts(alternatives, 0) == NOTHING && AskOfAlts(alternatives, 1) == AskOf(alternatives[0]);
      FirstAlternating(pre, st, AskOf(alternatives[0]), Names(alternatives[0]), post);
      AlternatingInside(pre, AskOf(alternatives[0]), Names(alternatives[0]), post);
    } else {
      LaterAlternating(pre, AskOfAlts(alternatives, k), Names(alternatives[0]), st, k,
                       AskOf(alternatives[k]), Names(alternatives[k]), post);
    }
  }

  lemma AlternatingInside(pre: State, ask: Ask, names: set<nat>, st: State)
    requires Alternating(pre, ask, names, st)
    ensures |st.alts| > 0
  {
  }

  // The variables of an alternative are those its frame notes.
  lemma {:induction false} AlternativeFollows(pre: State, alternatives: seq<Pattern>, k: nat, st: State, post: State,
                           done: seq<Bound>, c: Bound)
    requires Sane(pre) && k == |done| < |alternatives|
    requires Alternating(pre, AskOfAlts(alternatives, k), NamesSoFar(alternatives, k), st)
    requires Outcome(Begun(pre.index, st, k), AskOf(alternatives[k]), Names(alternatives[k]), post) && !post.fail
    requires |st.alts| > 0 && (!st.fail ==> forall j :: 0 <= j < k ==> Follows(done[j], Inner(st).first))
    requires Erase(c) == alternatives[k] && Follows(c, post.index)
    ensures |post.alts| > 0
    ensures forall j :: 0 <= j < k ==> Follows(done[j], Inner(post).first)
    ensures Follows(c, Inner(post).first)
  {
    hide Follows, Erase, Sane, FrameAfter, AltEffect;
    if k == 0 {
      FirstFrames(pre, st, Names(alternatives[0]), post);
    } else {
      LaterEffect(pre, AskOfAlts(alternatives, k), Names(alternatives[0]), st, k, Names(alternatives[k]), post);
    }
    FollowsAgain(c, post.index, Inner(post).first);
  }

  // What the frame notes is in scope after the alternation.
  lemma {:induction false} AltFollows(pre: State, alternatives: seq<Pattern>, done: seq<Bound>, indicator: Option<nat>, st: State)
    requires |done| == |alternatives| && forall j :: 0 <= j < |alternatives| ==> Erase(done[j]) == alternatives[j]
    requires Alternating(pre, AskOfAlts(alternatives, |alternatives|), NamesSoFar(alternatives, |alternatives|), st) && !st.fail
    requires |st.alts| > 0 && forall j :: 0 <= j < |alternatives| ==> Follows(done[j], Inner(st).first)
    ensures Follows(BoundAlt(done, indicator), pre.index + Inner(st).first)
  {
    hide Erase, AltEffect;
    AltsWellEach(alternatives, |alternatives|);
    forall j | 0 <= j < |alternatives|
      ensures Follows(done[j], pre.index + Inner(st).first)
    {
      FollowsAgain(done[j], Inner(st).first, pre.index + Inner(st).first);
    }
  }
}
