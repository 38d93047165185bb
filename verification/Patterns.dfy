/** Patterns with alternatives, and what elaborating one does to the names in scope
    (dolang-compile/src/elab.rs, `Pattern`, `Scope` and `AltFrame`). */
module Patterns {

  import opened Results

  /** The symbol `_`, which a pattern may bind any number of times. */
  const WILDCARD: nat := 0

  /** A pattern, as far as it binds names and tests for classes. `computed` says that a name, or a
      parameter of an `Unpack`, has a default that is not a constant. */
  datatype Pattern =
    | Constant
    | Name(sym: nat, computed: bool)
    | TypeTest(cls: nat, pattern: Pattern)
    | Param(bind: Pattern, computed: bool)
    | Unpack(items: seq<Pattern>)
    | Alt(alts: seq<Pattern>)

  /** A pattern whose names have been given variables. */
  datatype Bound =
    | BoundConstant
    | BoundName(sym: nat, computed: bool, index: nat)
    | BoundTest(cls: nat, pattern: Bound)
    | BoundParam(bind: Bound, computed: bool)
    | BoundUnpack(items: seq<Bound>)
    | BoundAlt(alts: seq<Bound>, indicator: Option<nat>)

  // ----- what a pattern should be -----

  /** The names a pattern binds; of alternatives, those of the first. */
  function Names(p: Pattern): set<nat>
    decreases p, 0
  {
    match p
    case Constant => {}
    case Name(sym, _) => if sym == WILDCARD then {} else {sym}
    case TypeTest(_, q) => Names(q)
    case Param(q, _) => Names(q)
    case Unpack(items) => ItemNames(items, |items|)
    case Alt(alts) => if alts == [] then {} else Names(alts[0])
  }

  function ItemNames(items: seq<Pattern>, k: nat): set<nat>
    requires k <= |items|
    decreases items, k
  {
    if k == 0 then {} else ItemNames(items, k - 1) + Names(items[k - 1])
  }

  /** The classes a pattern tests for. */
  function Tests(p: Pattern): set<nat>
    decreases p, 0
  {
    match p
    case Constant => {}
    case Name(_, _) => {}
    case TypeTest(cls, q) => (if cls == WILDCARD then {} else {cls}) + Tests(q)
    case Param(q, _) => Tests(q)
    case Unpack(items) => ItemTests(items, |items|)
    case Alt(alts) => ItemTests(alts, |alts|)
  }

  function ItemTests(items: seq<Pattern>, k: nat): set<nat>
    requires k <= |items|
    decreases items, k
  {
    if k == 0 then {} else ItemTests(items, k - 1) + Tests(items[k - 1])
  }

  /** No name is bound twice or names a class tested for later in the pattern, and all
      alternatives bind the same names. */
  predicate WellBound(p: Pattern)
    decreases p, 0
  {
    match p
    case Constant => true
    case Name(_, _) => true
    case TypeTest(_, q) => WellBound(q)
    case Param(q, _) => WellBound(q)
    case Unpack(items) => ItemsWell(items, |items|)
    case Alt(alts) => AltsWell(alts, |alts|)
  }

  predicate ItemsWell(items: seq<Pattern>, k: nat)
    requires k <= |items|
    decreases items, k
  {
    || k == 0
    || (ItemsWell(items, k - 1) && WellBound(items[k - 1])
        && ItemNames(items, k - 1) !! Names(items[k - 1]) + Tests(items[k - 1]))
  }

  predicate AltsWell(alts: seq<Pattern>, k: nat)
    requires k <= |alts|
    decreases alts, k
  {
    k == 0 || (AltsWell(alts, k - 1) && WellBound(alts[k - 1]) && Names(alts[k - 1]) == Names(alts[0]))
  }

  predicate HasComputed(p: Pattern) {
    match p
    case Constant => false
    case Name(_, computed) => computed
    case TypeTest(_, q) => HasComputed(q)
    case Param(q, computed) => computed || HasComputed(q)
    case Unpack(items) => exists i :: 0 <= i < |items| && HasComputed(items[i])
    case Alt(alts) => exists i :: 0 <= i < |alts| && HasComputed(alts[i])
  }

  function Children(p: Pattern): seq<Pattern> {
    match p
    case Constant => []
    case Name(_, _) => []
    case TypeTest(_, q) => [q]
    case Param(q, _) => [q]
    case Unpack(items) => items
    case Alt(alts) => alts
  }

  /** `q` occurs in `p`, at whatever depth. */
  ghost predicate Occurs(q: Pattern, p: Pattern) {
    q == p || exists i :: 0 <= i < |Children(p)| && Children(p)[i] < p && Occurs(q, Children(p)[i])
  }

  predicate DefaultComputed(p: Pattern) {
    (p.Name? || p.Param?) && p.computed
  }

  /** A pattern has a default to compute exactly if a name or parameter in it has. */
  lemma {:induction false} ComputedOccurs(p: Pattern)
    ensures HasComputed(p) <==> exists q :: Occurs(q, p) && DefaultComputed(q)
  {
    if DefaultComputed(p) {
      assert Occurs(p, p);
    }
    forall i | 0 <= i < |Children(p)|
      ensures HasComputed(Children(p)[i]) <==> exists q :: Occurs(q, Children(p)[i]) && DefaultComputed(q)
      ensures Children(p)[i] < p
    {
      ComputedOccurs(Children(p)[i]);
    }
    ComputedChild(p);
    hide HasComputed;
    if !DefaultComputed(p) {
      if i :| 0 <= i < |Children(p)| && HasComputed(Children(p)[i]) {
        var q :| Occurs(q, Children(p)[i]) && DefaultComputed(q);
        assert Occurs(q, p);
      } else {
        forall q | Occurs(q, p)
          ensures !DefaultComputed(q)
        {
        }
      }
    }
  }

  lemma {:induction false} ComputedChild(p: Pattern)
    ensures HasComputed(p) <==>
              DefaultComputed(p) || exists i :: 0 <= i < |Children(p)| && HasComputed(Children(p)[i])
  {
    match p
    case Constant => assert Children(p) == [];
    case Name(_, _) => assert Children(p) == [];
    case TypeTest(_, q) => assert Children(p)[0] == q;
    case Param(q, _) => assert Children(p)[0] == q;
    case Unpack(items) =>
      assert Children(p) == items && (HasComputed(p) <==> exists i :: 0 <= i < |items| && HasComputed(items[i]));
    case Alt(alts) =>
      assert Children(p) == alts && (HasComputed(p) <==> exists i :: 0 <= i < |alts| && HasComputed(alts[i]));
  }

  // ----- what a bound pattern says -----

  function Erase(b: Bound): Pattern {
    match b
    case BoundConstant => Constant
    case BoundName(sym, computed, _) => Name(sym, computed)
    case BoundTest(cls, c) => TypeTest(cls, Erase(c))
    case BoundParam(c, computed) => Param(Erase(c), computed)
    case BoundUnpack(items) => Unpack(seq(|items|, i requires 0 <= i < |items| => Erase(items[i])))
    case BoundAlt(alts, _) => Alt(seq(|alts|, i requires 0 <= i < |alts| => Erase(alts[i])))
  }

  /** Wherever a name occurs, it has the variable that `index` gives. */
  ghost predicate Follows(b: Bound, index: map<nat, nat>) {
    match b
    case BoundConstant => true
    case BoundName(sym, _, i) => sym != WILDCARD ==> sym in index && index[sym] == i
    case BoundTest(_, c) => Follows(c, index)
    case BoundParam(c, _) => Follows(c, index)
    case BoundUnpack(items) => forall i :: 0 <= i < |items| ==> Follows(items[i], index)
    case BoundAlt(alts, _) => forall i :: 0 <= i < |alts| ==> Follows(alts[i], index)
  }

  /** Each name a bound pattern binds, with its variable. */
  ghost function Bindings(b: Bound): set<(nat, nat)> {
    match b
    case BoundConstant => {}
    case BoundName(sym, _, i) => if sym == WILDCARD then {} else {(sym, i)}
    case BoundTest(_, c) => Bindings(c)
    case BoundParam(c, _) => Bindings(c)
    case BoundUnpack(items) => set i, x | 0 <= i < |items| && x in Bindings(items[i]) :: x
    case BoundAlt(alts, _) => set i, x | 0 <= i < |alts| && x in Bindings(alts[i]) :: x
  }

  /** Wherever there are alternatives, each binds the same names to the same variables. */
  ghost predicate Shares(b: Bound) {
    match b
    case BoundConstant => true
    case BoundName(_, _, _) => true
    case BoundTest(_, c) => Shares(c)
    case BoundParam(c, _) => Shares(c)
    case BoundUnpack(items) => forall i :: 0 <= i < |items| ==> Shares(items[i])
    case BoundAlt(alts, _) =>
      && (forall i :: 0 <= i < |alts| ==> Shares(alts[i]))
      && (forall i, j :: 0 <= i < j < |alts| ==> Bindings(alts[i]) == Bindings(alts[j]))
  }

  /** The variables a bound pattern has that no name leads to, in the order they were made: those
      of wildcards, and after alternatives their indicator. */
  ghost function Anonymous(b: Bound): seq<nat>
    decreases b, 0
  {
    match b
    case BoundConstant => []
    case BoundName(sym, _, i) => if sym == WILDCARD then [i] else []
    case BoundTest(_, c) => Anonymous(c)
    case BoundParam(c, _) => Anonymous(c)
    case BoundUnpack(items) => AllAnonymous(items, |items|)
    case BoundAlt(alts, indicator) => AllAnonymous(alts, |alts|) + if indicator.Some? then [indicator.value] else []
  }

  ghost function AllAnonymous(items: seq<Bound>, k: nat): seq<nat>
    requires k <= |items|
    decreases items, k
  {
    if k == 0 then [] else AllAnonymous(items, k - 1) + Anonymous(items[k - 1])
  }

  lemma {:induction false} AnonymousPrefix(items: seq<Bound>, c: Bound, k: nat)
    requires k <= |items|
    ensures AllAnonymous(items + [c], k) == AllAnonymous(items, k)
    decreases k
  {
    if k > 0 {
      AnonymousPrefix(items, c, k - 1);
    }
  }

  lemma {:induction false} AnonymousAppend(items: seq<Bound>, c: Bound)
    ensures AllAnonymous(items + [c], |items| + 1) == AllAnonymous(items, |items|) + Anonymous(c)
  {
    AnonymousPrefix(items, c, |items|);
  }

  /** Wherever there are alternatives, an indicator of the one that matched is kept if and only if
      one of them has a default that must be computed. */
  ghost predicate Indicated(b: Bound) {
    match b
    case BoundConstant => true
    case BoundName(_, _, _) => true
    case BoundTest(_, c) => Indicated(c)
    case BoundParam(c, _) => Indicated(c)
    case BoundUnpack(items) => forall i :: 0 <= i < |items| ==> Indicated(items[i])
    case BoundAlt(alts, indicator) =>
      && (indicator.Some? <==> exists i :: 0 <= i < |alts| && HasComputed(Erase(alts[i])))
      && (forall i :: 0 <= i < |alts| ==> Indicated(alts[i]))
  }

  lemma {:induction false} InItemNames(items: seq<Pattern>, k: nat, s: nat)
    requires k <= |items|
    ensures s in ItemNames(items, k) <==> exists i :: 0 <= i < k && s in Names(items[i])
    decreases k
  {
    if k > 0 {
      InItemNames(items, k - 1, s);
    }
  }

  lemma {:induction false} ItemsWellEach(items: seq<Pattern>, k: nat)
    requires k <= |items| && ItemsWell(items, k)
    ensures forall i :: 0 <= i < k ==> WellBound(items[i])
    decreases k
  {
    if k > 0 {
      ItemsWellEach(items, k - 1);
    }
  }

  lemma {:induction false} AltsWellEach(alts: seq<Pattern>, k: nat)
    requires k <= |alts| && AltsWell(alts, k)
    ensures forall i :: 0 <= i < k ==> WellBound(alts[i]) && Names(alts[i]) == Names(alts[0])
    decreases k
  {
    if k > 0 {
      AltsWellEach(alts, k - 1);
    }
  }

  /** Where every occurrence of a name has one variable, a well-bound pattern binds
      exactly its names, each to that variable, and its alternatives share them. */
  lemma {:induction false} FollowingShares(b: Bound, index: map<nat, nat>)
    requires WellBound(Erase(b)) && Follows(b, index)
    ensures forall s, i :: (s, i) in Bindings(b) <==> s in Names(Erase(b)) && s in index && index[s] == i
    ensures forall s :: s in Names(Erase(b)) ==> s in index
    ensures Shares(b)
    decreases b, 1
  {
    match b
    case BoundConstant =>
    case BoundName(_, _, _) =>
    case BoundTest(_, c) => FollowingShares(c, index);
    case BoundParam(c, _) => FollowingShares(c, index);
    case BoundUnpack(items) => ItemsShare(b, index);
    case BoundAlt(alts, _) => AltsShare(b, index);
  }

  lemma {:induction false} ItemsShare(b: Bound, index: map<nat, nat>)
    requires b.BoundUnpack? && WellBound(Erase(b)) && Follows(b, index)
    ensures forall s, i :: (s, i) in Bindings(b) <==> s in Names(Erase(b)) && s in index && index[s] == i
    ensures forall s :: s in Names(Erase(b)) ==> s in index
    ensures Shares(b)
    decreases b, 0
  {
    var items := b.items;
    var erased := Erase(b).items;
    ItemsWellEach(erased, |erased|);
    forall i | 0 <= i < |items|
      ensures forall s, v :: (s, v) in Bindings(items[i])
                             <==> s in Names(erased[i]) && s in index && index[s] == v
      ensures forall s :: s in Names(erased[i]) ==> s in index
      ensures Shares(items[i])
    {
      assert erased[i] == Erase(items[i]);
      FollowingShares(items[i], index);
    }
    forall s
      ensures s in Names(Erase(b)) <==> exists i :: 0 <= i < |erased| && s in Names(erased[i])
    {
      InItemNames(erased, |erased|, s);
    }
  }

  lemma {:induction false} AltsShare(b: Bound, index: map<nat, nat>)
    requires b.BoundAlt? && WellBound(Erase(b)) && Follows(b, index)
    ensures forall s, i :: (s, i) in Bindings(b) <==> s in Names(Erase(b)) && s in index && index[s] == i
    ensures forall s :: s in Names(Erase(b)) ==> s in index
    ensures Shares(b)
    decreases b, 0
  {
    var alts := b.alts;
    var erased := Erase(b).alts;
    AltsWellEach(erased, |erased|);
    forall i | 0 <= i < |alts|
      ensures forall s, v :: (s, v) in Bindings(alts[i]) <==> s in Names(erased[0]) && s in index && index[s] == v
      ensures forall s :: s in Names(erased[0]) ==> s in index
      ensures Shares(alts[i])
    {
      assert erased[i] == Erase(alts[i]);
      FollowingShares(alts[i], index);
      assert Names(erased[i]) == Names(erased[0]);
    }
    forall i, j | 0 <= i < j < |alts|
      ensures Bindings(alts[i]) == Bindings(alts[j])
    {
      SamePairs(Bindings(alts[i]), Bindings(alts[j]));
    }
  }

  lemma SamePairs(a: set<(nat, nat)>, b: set<(nat, nat)>)
    requires forall s, v :: (s, v) in a <==> (s, v) in b
    ensures a == b
  {
    forall x
      ensures x in a <==> x in b
    {
      assert x == (x.0, x.1);
    }
  }

  // Only what a pattern's names map to matters.
  lemma {:induction false} FollowsAgain(b: Bound, m: map<nat, nat>, n: map<nat, nat>)
    requires Follows(b, m) && WellBound(Erase(b))
    requires forall s :: s in Names(Erase(b)) && s in m ==> s in n && n[s] == m[s]
    ensures Follows(b, n)
  {
    match b
    case BoundConstant =>
    case BoundName(_, _, _) =>
    case BoundTest(_, c) => FollowsAgain(c, m, n);
    case BoundParam(c, _) => FollowsAgain(c, m, n);
    case BoundUnpack(items) =>
      var erased := Erase(b).items;
      ItemsWellEach(erased, |erased|);
      forall i | 0 <= i < |items|
        ensures Follows(items[i], n)
      {
        forall s | s in Names(erased[i])
          ensures s in Names(Erase(b))
        {
          InItemNames(erased, |erased|, s);
        }
        assert erased[i] == Erase(items[i]);
        FollowsAgain(items[i], m, n);
      }
    case BoundAlt(alts, _) =>
      var erased := Erase(b).alts;
      AltsWellEach(erased, |erased|);
      forall i | 0 <= i < |alts|
        ensures Follows(alts[i], n)
      {
        assert Names(erased[i]) == Names(erased[0]) && erased[i] == Erase(alts[i]);
        FollowsAgain(alts[i], m, n);
      }
  }
}
