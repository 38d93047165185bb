/** The indentation machine of the lexer (dolang-compile/src/lex.rs, `Lexer`): indents
    and dedents are emitted one by one as the level moves to that of the new line. */
module Indentation {

  import opened Results

  datatype Token = Indent | Dedent | StmtSep | BadIndent

  /** What one check of the indentation comes to. A level popped off an empty stack is a panic. */
  datatype Check = Level | Emitted(token: Token) | Panicked

  /** The fields of the lexer that bear on indentation. No baseline is Offset::MAX there. */
  datatype State = State(current: nat, target: nat, baseline: Option<nat>, stack: seq<nat>)

  function Count(tokens: seq<Token>, t: Token): nat {
    if tokens == [] then 0 else Count(tokens[..|tokens| - 1], t) + if tokens[|tokens| - 1] == t then 1 else 0
  }

  lemma {:induction false} CountAppend(a: seq<Token>, b: seq<Token>, t: Token)
    ensures Count(a + b, t) == Count(a, t) + Count(b, t)
    decreases |b|
  {
    if b == [] {
      assert a + b == a;
    } else {
      assert (a + b)[..|a + b| - 1] == a + b[..|b| - 1];
      CountAppend(a, b[..|b| - 1], t);
    }
  }

  lemma {:induction false} CountsAppend(a: seq<Token>, b: seq<Token>)
    ensures forall t :: Count(a + b, t) == Count(a, t) + Count(b, t)
  {
    forall t ensures Count(a + b, t) == Count(a, t) + Count(b, t) {
      CountAppend(a, b, t);
    }
  }

  lemma {:induction false} CountOne(token: Token)
    ensures forall t :: Count([token], t) == if token == t then 1 else 0
  {
    assert [token][..0] == [];
  }

  // ----- one check -----

  predicate AtLevel(s: State) {
    s.baseline == None || s.baseline.value <= s.target == s.current
  }

  function NextCheck(s: State): Check {
    if AtLevel(s) then Level
    else if s.target > s.current then Emitted(Indent)
    else if s.target < s.baseline.value then Emitted(BadIndent)
    else if s.stack == [] then Panicked
    else if s.target > s.stack[|s.stack| - 1] then Emitted(BadIndent)
    else Emitted(Dedent)
  }

  function AfterCheck(s: State): State
    requires NextCheck(s).Emitted?
  {
    if s.target > s.current then s.(stack := s.stack + [s.current], current := s.target)
    else if s.target < s.baseline.value then s.(baseline := Some(s.target), current := s.target)
    else
      var below := s.stack[..|s.stack| - 1];
      var prev := s.stack[|s.stack| - 1];
      if s.target > prev then
        s.(stack := below + [s.target], baseline := if below == [] then None else s.baseline)
      else s.(stack := below, current := prev)
  }

  // ----- all the checks a line takes -----

  /** How many levels of the stack there are up to the innermost one no deeper than a target. */
  function Kept(stack: seq<nat>, target: nat): (n: nat)
    ensures n <= |stack| && (n > 0 ==> stack[n - 1] <= target)
    ensures forall i :: n <= i < |stack| ==> stack[i] > target
  {
    if stack == [] then 0
    else if stack[|stack| - 1] <= target then |stack|
    else Kept(stack[..|stack| - 1], target)
  }

  lemma {:induction false} KeptIs(stack: seq<nat>, target: nat, n: nat)
    requires n <= |stack| && (n > 0 ==> stack[n - 1] <= target)
    requires forall i :: n <= i < |stack| ==> stack[i] > target
    ensures Kept(stack, target) == n
  {
  }

  function Least(a: nat, b: nat): nat {
    if a < b then a else b
  }

  /** Where checks end up, if none of them panics: a deeper line opens a level, one under the
      baseline moves the baseline there, and any other closes every deeper level and takes
      the place of the first one that is not. If that was the outermost one and does not
      match, the next line begins anew. */
  function Drained(s: State): Option<State> {
    if AtLevel(s) then Some(s)
    else if s.target > s.current then
      Some(State(s.target, s.target, Some(Least(s.baseline.value, s.target)), s.stack + [s.current]))
    else if s.target < s.baseline.value then Some(s.(baseline := Some(s.target), current := s.target))
    else
      var n := Kept(s.stack, s.target);
      if n == 0 then None
      else if n > 1 || s.stack[0] == s.target then Some(s.(current := s.target, stack := s.stack[..n - 1]))
      else Some(State((s.stack + [s.current])[1], s.target, None, [s.target]))
  }

  /** One of the checks reports bad indentation. */
  predicate Reports(s: State) {
    && s.baseline.Some?
    && (s.target < s.baseline.value
        || (var n := Kept(s.stack, s.target); s.target < s.current && n > 0 && s.stack[n - 1] < s.target))
  }

  // How far the checks are from their end.
  function Remaining(s: State): nat {
    if AtLevel(s) then 0
    else if s.target > s.current then 2
    else if s.target < s.baseline.value then 1
    else 2 + 2 * |s.stack| + (if s.stack != [] && s.stack[|s.stack| - 1] < s.target then 1 else 0)
  }

  lemma CheckProgress(s: State)
    requires NextCheck(s).Emitted?
    ensures Remaining(AfterCheck(s)) < Remaining(s)
    ensures NextCheck(s).token in {Indent, Dedent, BadIndent}
    ensures |AfterCheck(s).stack| == |s.stack| + (if NextCheck(s).token == Indent then 1 else 0)
                                     - (if NextCheck(s).token == Dedent then 1 else 0)
  {
  }

  // The innermost level closes, or gives way to the target.
  lemma {:induction false} PopKept(stack: seq<nat>, target: nat)
    requires stack != []
    ensures stack[|stack| - 1] > target ==> Kept(stack[..|stack| - 1], target) == Kept(stack, target)
    ensures stack[|stack| - 1] <= target ==> Kept(stack, target) == |stack|
    ensures Kept(stack[..|stack| - 1] + [target], target) == |stack|
  {
    KeptIs(stack[..|stack| - 1] + [target], target, |stack|);
  }

  lemma CheckKeepsDrained(s: State)
    requires NextCheck(s).Emitted?
    ensures Drained(AfterCheck(s)) == Drained(s)
  {
    hide Kept;
    if s.baseline.value <= s.target < s.current {
      PopKeepsDrained(s);
    }
  }

  lemma PopKeepsDrained(s: State)
    requires s.baseline.Some? && s.baseline.value <= s.target < s.current && s.stack != []
    ensures Drained(AfterCheck(s)) == Drained(s)
  {
    hide Kept;
    var last := |s.stack| - 1;
    var below := s.stack[..last];
    var n := Kept(s.stack, s.target);
    PopKept(s.stack, s.target);
    if s.stack[last] > s.target {
      assert AfterCheck(s) == s.(stack := below, current := s.stack[last]);
      if n > 0 {
        assert below[..n - 1] == s.stack[..n - 1] && s.stack[0] == below[0];
        assert (below + [s.stack[last]])[1] == (s.stack + [s.current])[1];
      }
    } else if s.stack[last] < s.target && last > 0 {
      assert AfterCheck(s) == s.(stack := below + [s.target]);
      assert (below + [s.target])[..last] == below;
    }
  }

  lemma CheckReports(s: State)
    requires NextCheck(s).Emitted?
    ensures Reports(s) <==> NextCheck(s).token == BadIndent || Reports(AfterCheck(s))
    ensures NextCheck(s).token == BadIndent ==> !Reports(AfterCheck(s))
  {
    hide Kept;
    if s.baseline.value <= s.target < s.current {
      PopKept(s.stack, s.target);
      assert AfterCheck(s).stack == s.stack[..|s.stack| - 1] || AfterCheck(s).stack == s.stack[..|s.stack| - 1] + [s.target];
    }
  }

  function Dedents(n: nat): seq<Token> {
    seq(n, _ => Dedent)
  }

  /** The tokens of all the checks there are until one emits none: a deeper line indents, one
      under the baseline is reported, and any other closes every deeper level and the one at its
      own; in place of that one, a level that does not match is reported, and then closed too
      unless it was the outermost. */
  function Emits(s: State): seq<Token> {
    if AtLevel(s) then []
    else if s.target > s.current then [Indent] + if s.target < s.baseline.value then [BadIndent] else []
    else if s.target < s.baseline.value then [BadIndent]
    else
      var n := Kept(s.stack, s.target);
      Dedents(|s.stack| - n)
      + (if n == 0 then []
         else if s.stack[n - 1] == s.target then [Dedent]
         else [BadIndent] + if n > 1 then [Dedent] else [])
  }

  lemma LastEmits(s: State)
    requires !NextCheck(s).Emitted?
    ensures Emits(s) == []
  {
  }

  /** The checks emit one token at a time. */
  lemma CheckEmits(s: State)
    requires NextCheck(s).Emitted?
    ensures Emits(s) == [NextCheck(s).token] + Emits(AfterCheck(s))
  {
    hide Kept;
    if s.baseline.value <= s.target < s.current {
      PopEmits(s);
    }
  }

  lemma PopEmits(s: State)
    requires s.baseline.Some? && s.baseline.value <= s.target < s.current && s.stack != []
    ensures Emits(s) == [NextCheck(s).token] + Emits(AfterCheck(s))
  {
    hide Kept;
    var last := |s.stack| - 1;
    var below := s.stack[..last];
    PopKept(s.stack, s.target);
    if s.stack[last] > s.target {
      assert AfterCheck(s) == s.(stack := below, current := s.stack[last]);
      assert Dedents(|s.stack| - Kept(s.stack, s.target)) == [Dedent] + Dedents(last - Kept(s.stack, s.target));
    } else if s.stack[last] < s.target && last > 0 {
      assert AfterCheck(s) == s.(stack := below + [s.target]);
    }
  }

  // No check separates statements.
  lemma EmitsNoSeparator(s: State)
    ensures StmtSep !in Emits(s)
  {
  }

  // ----- when a check panics -----

  /** Some open level lies at the baseline or under it, so that the baseline can be reached. */
  ghost predicate Grounded(s: State) {
    s.baseline.Some? ==>
      || s.current <= s.baseline.value
      || exists i :: 0 <= i < |s.stack| && s.stack[i] <= s.baseline.value
  }

  /** A line's indentation becomes the target, and the baseline too if there is none. */
  function WithIndent(s: State, indent: nat): State {
    if s.baseline == None then State(indent, indent, Some(indent), s.stack) else s.(target := indent)
  }

  function Nested(s: State, level: nat): State {
    State(level, level, s.baseline, s.stack + [s.current])
  }

  /** The end of the input closes every level but the baseline. */
  function AtEnd(s: State): State {
    s.(target := if s.baseline.Some? then s.baseline.value else 0)
  }

  /** The checks of a line panic exactly if it is shallower than the current level, not under
      the baseline, and every level on the stack is deeper. */
  lemma LinePanics(s: State, indent: nat)
    ensures Drained(WithIndent(s, indent)) == None <==>
              && s.baseline.Some? && s.baseline.value <= indent < s.current
              && forall i :: 0 <= i < |s.stack| ==> s.stack[i] > indent
  {
    if forall i :: 0 <= i < |s.stack| ==> s.stack[i] > indent {
      KeptIs(s.stack, indent, 0);
    }
  }

  /** The end of the input panics exactly if the state is not grounded. */
  lemma EndPanics(s: State)
    ensures Drained(AtEnd(s)) == None <==> !Grounded(s)
  {
    if s.baseline.Some? {
      LinePanics(s, s.baseline.value);
    }
  }

  /** No line panics exactly if the state is grounded. */
  lemma GroundedMeans(s: State)
    ensures Grounded(s) <==> forall indent :: Drained(WithIndent(s, indent)).Some?
  {
    forall indent ensures Grounded(s) ==> Drained(WithIndent(s, indent)).Some? {
      LinePanics(s, indent);
    }
    if s.baseline.Some? {
      EndPanics(s);
      assert WithIndent(s, s.baseline.value) == AtEnd(s);
    }
  }

  /** A line that closes the only level at the baseline, or under it, without matching it,
      while levels from before the baseline moved are left on the stack. */
  ghost predicate Uproots(s: State, indent: nat) {
    && s.baseline.Some? && s.baseline.value < indent < s.current
    && (var n := Kept(s.stack, indent);
        n > 1 && forall i :: 0 <= i < n - 1 ==> s.stack[i] > s.baseline.value)
  }

  lemma UprootsReports(s: State, indent: nat)
    requires Grounded(s) && Uproots(s, indent)
    ensures Reports(WithIndent(s, indent))
  {
    hide Kept;
    assert s.stack[Kept(s.stack, indent) - 1] <= s.baseline.value;
  }

  /** From a grounded state, every line leads to a grounded one but those that uproot it. */
  lemma LineGrounded(s: State, indent: nat)
    requires Grounded(s)
    ensures Drained(WithIndent(s, indent)).Some?
    ensures Grounded(Drained(WithIndent(s, indent)).value) <==> !Uproots(s, indent)
  {
    hide Kept;
    LinePanics(s, indent);
    if s.baseline.Some? {
      var b := s.baseline.value;
      var next := Drained(WithIndent(s, indent)).value;
      if indent > s.current {
        if i :| 0 <= i < |s.stack| && s.stack[i] <= b {
          assert next.stack[i] <= b;
        } else {
          assert next.stack[|s.stack|] <= b;
        }
      } else if b < indent < s.current {
        var n := Kept(s.stack, indent);
        if !Uproots(s, indent) && n > 1 {
          var i :| 0 <= i < n - 1 && s.stack[i] <= b;
          assert next.stack[i] <= b;
        }
        if Uproots(s, indent) {
          assert next == WithIndent(s, indent).(current := indent, stack := s.stack[..n - 1]);
        }
      }
    }
  }

  // ----- whole inputs -----

  /** What happens after the first line's indentation is known: a line, or a level the
      parser opens at a column of the current one. */
  datatype Event = Line(indent: nat) | Opened(level: nat)

  function AfterEvent(s: State, e: Event): Option<State> {
    match e
    case Line(indent) => Drained(WithIndent(s, indent))
    case Opened(level) => Drained(Nested(s, level))
  }

  predicate EventReports(s: State, e: Event) {
    Reports(if e.Line? then WithIndent(s, e.indent) else Nested(s, e.level))
  }

  /** The state after some events and the end of the input, unless there is a panic. */
  function AfterAll(s: State, events: seq<Event>): Option<State>
    decreases |events|
  {
    if events == [] then Drained(AtEnd(s))
    else
      var next := AfterEvent(s, events[0]);
      if next == None then None else AfterAll(next.value, events[1..])
  }

  /** How many events report bad indentation. */
  function ReportCount(s: State, events: seq<Event>): nat
    decreases |events|
  {
    if events == [] then 0
    else
      var next := AfterEvent(s, events[0]);
      (if EventReports(s, events[0]) then 1 else 0)
      + if next == None then 0 else ReportCount(next.value, events[1..])
  }

  /** The tokens of an event: a line separates statements exactly if its indentation is the
      current level, or the first there is. */
  function EventTokens(s: State, e: Event): seq<Token> {
    match e
    case Line(indent) =>
      (if s.baseline == None || indent == s.current then [StmtSep] else []) + Emits(WithIndent(s, indent))
    case Opened(level) => Emits(Nested(s, level))
  }

  /** The tokens of some events and the end of the input, up to a panic if there is one. */
  function AllTokens(s: State, events: seq<Event>): seq<Token>
    decreases |events|
  {
    if events == [] then Emits(AtEnd(s))
    else
      var next := AfterEvent(s, events[0]);
      EventTokens(s, events[0]) + if next == None then [] else AllTokens(next.value, events[1..])
  }

  function OpenedCount(events: seq<Event>): nat {
    if events == [] then 0 else (if events[0].Opened? then 1 else 0) + OpenedCount(events[1..])
  }

  /** The first line sets the baseline. */
  function Initial(first: nat): State {
    State(first, first, Some(first), [])
  }

  lemma EventGrounded(s: State, e: Event)
    requires Grounded(s) && (e.Line? ==> !Uproots(s, e.indent))
    ensures AfterEvent(s, e).Some? && Grounded(AfterEvent(s, e).value)
  {
    match e
    case Line(indent) => LineGrounded(s, indent);
    case Opened(level) =>
      var next := AfterEvent(s, e).value;
      if s.baseline.Some? {
        if i :| 0 <= i < |s.stack| && s.stack[i] <= s.baseline.value {
          assert next.stack[i] <= s.baseline.value;
        } else {
          assert next.stack[|s.stack|] <= s.baseline.value;
        }
      }
  }

  lemma {:induction false} QuietIsSafe(s: State, events: seq<Event>)
    requires Grounded(s) && ReportCount(s, events) == 0
    ensures AfterAll(s, events).Some?
    decreases |events|
  {
    hide Drained, Reports, Uproots, Grounded;
    if events == [] {
      EndPanics(s);
    } else {
      if events[0].Line? && Uproots(s, events[0].indent) {
        UprootsReports(s, events[0].indent);
      }
      EventGrounded(s, events[0]);
      QuietIsSafe(AfterEvent(s, events[0]).value, events[1..]);
    }
  }

  /** The outermost level lies at the baseline, or under it. */
  predicate Rooted(s: State) {
    s.baseline.Some? && (s.stack + [s.current])[0] <= s.baseline.value
  }

  lemma RootedStep(s: State, e: Event)
    requires Rooted(s)
    ensures AfterEvent(s, e).Some? && Grounded(AfterEvent(s, e).value)
    ensures !EventReports(s, e) ==> Rooted(AfterEvent(s, e).value)
  {
    hide Kept;
    assert Grounded(s) by {
      assert s.stack != [] ==> s.stack[0] <= s.baseline.value;
    }
    EventGrounded(s, e);
  }

  /** An input with no more than one line of bad indentation never makes a check panic. */
  lemma {:induction false} OneReportIsSafe(s: State, events: seq<Event>)
    requires Rooted(s) && ReportCount(s, events) <= 1
    ensures AfterAll(s, events).Some?
    decreases |events|
  {
    hide Drained, Reports, Uproots, Grounded, Rooted;
    if events == [] {
      RootedStep(s, Opened(0));
      RootedGrounded(s);
      EndPanics(s);
    } else {
      RootedStep(s, events[0]);
      var next := AfterEvent(s, events[0]).value;
      if EventReports(s, events[0]) {
        QuietIsSafe(next, events[1..]);
      } else {
        OneReportIsSafe(next, events[1..]);
      }
    }
  }

  lemma RootedGrounded(s: State)
    requires Rooted(s)
    ensures Grounded(s)
  {
    assert s.stack != [] ==> s.stack[0] <= s.baseline.value;
  }

  const UPROOTED: seq<Event> := [Line(8), Line(2), Line(6), Line(3)]

  // The states those lines lead through, before the end of the input.
  const UPROOTED_AT: seq<State> := [
    State(4, 4, Some(4), []), State(8, 8, Some(4), [4]), State(2, 2, Some(2), [4]),
    State(6, 6, Some(2), [4, 2]), State(3, 3, Some(2), [4])
  ]

  lemma FirstUprooted()
    ensures AfterEvent(UPROOTED_AT[0], Line(8)) == Some(UPROOTED_AT[1]) && !EventReports(UPROOTED_AT[0], Line(8))
    ensures AfterEvent(UPROOTED_AT[1], Line(2)) == Some(UPROOTED_AT[2]) && EventReports(UPROOTED_AT[1], Line(2))
  {
    assert [] + [4] == [4];
  }

  lemma LastUprooted()
    ensures AfterEvent(UPROOTED_AT[2], Line(6)) == Some(UPROOTED_AT[3]) && !EventReports(UPROOTED_AT[2], Line(6))
    ensures AfterEvent(UPROOTED_AT[3], Line(3)) == Some(UPROOTED_AT[4]) && EventReports(UPROOTED_AT[3], Line(3))
    ensures Drained(AtEnd(UPROOTED_AT[4])) == None
  {
    hide Kept;
    assert [4] + [2] == [4, 2];
    KeptIs([4, 2], 3, 2);
    KeptIs([4], 2, 0);
  }

  /** Two lines of bad indentation can: here the end of the input pops an empty stack. */
  lemma TwoReportsCanPanic()
    ensures ReportCount(Initial(4), UPROOTED) == 2
    ensures AfterAll(Initial(4), UPROOTED) == None
  {
    FirstUprooted();
    LastUprooted();
    var at := UPROOTED_AT;
    assert at[0] == Initial(4);
    hide AfterEvent, EventReports, Drained, UPROOTED_AT, AtEnd, Initial;
    var rest := UPROOTED[1..];
    assert rest == [Line(2), Line(6), Line(3)] && rest[1..] == [Line(6), Line(3)] && rest[1..][1..] == [Line(3)];
    assert rest[1..][1..][1..] == [];
    assert AfterAll(at[4], []) == None && ReportCount(at[4], []) == 0;
    assert AfterAll(at[3], [Line(3)]) == None && ReportCount(at[3], [Line(3)]) == 1;
    assert AfterAll(at[2], [Line(6), Line(3)]) == None && ReportCount(at[2], [Line(6), Line(3)]) == 1;
    assert AfterAll(at[1], rest) == None && ReportCount(at[1], rest) == 2;
  }

  // ----- consistent indentation -----

  /** The open levels, outermost first. */
  function Levels(s: State): (r: seq<nat>)
    ensures |r| > 0
  {
    s.stack + [s.current]
  }

  ghost predicate Increases(levels: seq<nat>) {
    forall i, j :: 0 <= i < j < |levels| ==> levels[i] < levels[j]
  }

  /** The open levels increase from the baseline, and the last line's is the innermost. */
  ghost predicate Consistent(s: State) {
    s.baseline == Some(Levels(s)[0]) && Increases(Levels(s)) && s.target == s.current
  }

  /** The levels after a line: one more if it is deeper, those up to its own if that was
      open, and otherwise none, as its indentation is inconsistent. */
  function AfterLine(levels: seq<nat>, target: nat): Option<seq<nat>> {
    if levels != [] && target > levels[|levels| - 1] then Some(levels + [target])
    else if target in levels then Some(levels[..Kept(levels, target)])
    else None
  }

  lemma {:induction false} KeptOfLevels(levels: seq<nat>, target: nat)
    requires Increases(levels) && target in levels
    ensures Kept(levels, target) > 0 && levels[Kept(levels, target) - 1] == target
  {
    var k :| 0 <= k < |levels| && levels[k] == target;
    KeptIs(levels, target, k + 1);
  }

  /** Consistent lines are not reported and leave the levels as they should be. */
  lemma ConsistentLine(s: State, indent: nat)
    requires Consistent(s)
    ensures Drained(WithIndent(s, indent)).Some?
    ensures Reports(WithIndent(s, indent)) <==> AfterLine(Levels(s), indent) == None
    ensures AfterLine(Levels(s), indent).Some? ==>
              var next := Drained(WithIndent(s, indent)).value;
              Consistent(next) && Some(Levels(next)) == AfterLine(Levels(s), indent)
  {
    if indent in Levels(s) {
      hide Drained, Reports, WithIndent, Kept;
      KeptOfLevels(Levels(s), indent);
      ClosesTo(s, indent);
    } else if indent > s.current {
      OpensTo(s, indent);
    } else {
      FitsNone(s, indent);
    }
  }

  // A deeper line opens a level.
  lemma OpensTo(s: State, indent: nat)
    requires Consistent(s) && indent > s.current
    ensures Drained(WithIndent(s, indent)).Some? && !Reports(WithIndent(s, indent))
    ensures var next := Drained(WithIndent(s, indent)).value;
            Consistent(next) && Some(Levels(next)) == AfterLine(Levels(s), indent)
  {
    hide Kept;
    var levels := Levels(s);
    assert levels[|levels| - 1] == s.current >= levels[0];
  }

  // A line that is neither deeper nor at an open level is reported.
  lemma FitsNone(s: State, indent: nat)
    requires Consistent(s) && indent < s.current && indent !in Levels(s)
    ensures Drained(WithIndent(s, indent)).Some? && Reports(WithIndent(s, indent))
    ensures AfterLine(Levels(s), indent) == None
  {
    hide Kept, Drained;
    var levels := Levels(s);
    RootedGrounded(s);
    LineGrounded(s, indent);
    assert forall k :: 0 <= k < |s.stack| ==> s.stack[k] == levels[k];
    assert levels[|levels| - 1] == s.current;
    if indent >= s.baseline.value {
      assert s.stack != [] && s.stack[0] == s.baseline.value;
      assert Kept(s.stack, indent) > 0;
      assert s.stack[Kept(s.stack, indent) - 1] in levels;
    }
  }

  // A line at an open level closes the levels inside it.
  lemma {:induction false} ClosesTo(s: State, indent: nat)
    requires Consistent(s) && indent in Levels(s)
    ensures !Reports(WithIndent(s, indent)) && Drained(WithIndent(s, indent)).Some?
    ensures var next := Drained(WithIndent(s, indent)).value;
            Consistent(next) && Levels(next) == Levels(s)[..Kept(Levels(s), indent)]
  {
    hide Kept;
    var levels := Levels(s);
    KeptOfLevels(levels, indent);
    var n := Kept(levels, indent);
    assert levels[..n] == levels[..n - 1] + [indent];
    if n == |levels| {
      assert indent == s.current;
    } else {
      assert s.stack[n - 1] == levels[n - 1] == indent;
      assert levels[|levels| - 1] == s.current > indent;
      assert forall i :: n <= i < |s.stack| ==> s.stack[i] == levels[i] > indent;
      KeptIs(s.stack, indent, n);
      assert s.stack[..n - 1] == levels[..n - 1];
      assert indent >= levels[0];
      var next := Drained(WithIndent(s, indent)).value;
      assert next.stack == s.stack[..n - 1] && next.current == indent;
      assert Levels(next) == levels[..n];
    }
  }

  /** The levels after some events, while indentation is consistent. */
  function AfterEvents(levels: seq<nat>, events: seq<Event>): Option<seq<nat>>
    decreases |events|
  {
    if events == [] then Some(levels)
    else
      match events[0]
      case Opened(level) => AfterEvents(levels + [level], events[1..])
      case Line(indent) =>
        match AfterLine(levels, indent)
        case None => None
        case Some(next) => AfterEvents(next, events[1..])
  }

  /** The parser opens levels deeper than the current one only. */
  ghost predicate OpensDeeper(levels: seq<nat>, events: seq<Event>)
    decreases |events|
  {
    if events == [] then true
    else
      match events[0]
      case Opened(level) =>
        levels != [] && level > levels[|levels| - 1] && OpensDeeper(levels + [level], events[1..])
      case Line(indent) =>
        AfterLine(levels, indent).Some? ==> OpensDeeper(AfterLine(levels, indent).value, events[1..])
  }

  lemma EndOfConsistent(s: State)
    requires Consistent(s)
    ensures Drained(AtEnd(s)).Some? && Levels(Drained(AtEnd(s)).value) == [Levels(s)[0]]
    ensures !Reports(AtEnd(s))
  {
    hide Kept;
    var first := Levels(s)[0];
    ClosesTo(s, first);
    assert WithIndent(s, first) == AtEnd(s);
    KeptIs(Levels(s), first, 1);
    assert Levels(s)[..1] == [first];
  }

  /** Bad indentation is reported exactly if the indentation of the input is inconsistent, and
      otherwise every level is closed in the end. */
  lemma {:induction false} ReportsInconsistent(s: State, events: seq<Event>)
    requires Consistent(s) && OpensDeeper(Levels(s), events)
    ensures ReportCount(s, events) == 0 <==> AfterEvents(Levels(s), events).Some?
    ensures ReportCount(s, events) == 0 ==>
              && AfterAll(s, events).Some? && AfterAll(s, events).value.stack == []
    decreases |events|
  {
    hide Drained, Reports, AfterLine;
    if events == [] {
      EndOfConsistent(s);
    } else {
      match events[0]
      case Opened(level) =>
        var next := Nested(s, level);
        assert Levels(next) == Levels(s) + [level];
        LastCheck(next);
        ReportsInconsistent(next, events[1..]);
      case Line(indent) =>
        ConsistentLine(s, indent);
        if AfterLine(Levels(s), indent).Some? {
          ReportsInconsistent(AfterEvent(s, events[0]).value, events[1..]);
        }
    }
  }

  // ----- the tokens of consistent indentation -----

  /** The tokens of a line, by the levels alone: a separator if it stays at the innermost, an
      indent if it is deeper, and otherwise a dedent for each level it closes. */
  function LineTokens(levels: seq<nat>, indent: nat): seq<Token>
    requires AfterLine(levels, indent).Some?
  {
    if levels != [] && indent == levels[|levels| - 1] then [StmtSep]
    else if |AfterLine(levels, indent).value| > |levels| then [Indent]
    else Dedents(|levels| - |AfterLine(levels, indent).value|)
  }

  /** The tokens of a whole input, by the levels alone: a level the parser opens has none, and
      the end closes all levels but the first. */
  function Stream(levels: seq<nat>, events: seq<Event>): seq<Token>
    requires levels != [] && AfterEvents(levels, events).Some?
    decreases |events|
  {
    if events == [] then Dedents(|levels| - 1)
    else
      match events[0]
      case Opened(level) => Stream(levels + [level], events[1..])
      case Line(indent) =>
        var next := AfterLine(levels, indent).value;
        LineTokens(levels, indent) + Stream(next, events[1..])
  }

  /** A consistent line has the tokens that its levels say. */
  lemma ConsistentTokens(s: State, indent: nat)
    requires Consistent(s) && AfterLine(Levels(s), indent).Some?
    ensures EventTokens(s, Line(indent)) == LineTokens(Levels(s), indent)
  {
    hide Kept;
    var levels := Levels(s);
    assert levels[|levels| - 1] == s.current >= levels[0];
    if indent < s.current {
      KeptOfLevels(levels, indent);
      var n := Kept(levels, indent);
      assert forall i :: 0 <= i < |s.stack| ==> s.stack[i] == levels[i];
      assert n < |levels|;
      KeptIs(s.stack, indent, n);
      assert Dedents(|s.stack| - n) + [Dedent] == Dedents(|levels| - n);
    } else if indent == s.current {
      KeptOfLevels(levels, indent);
    }
  }

  lemma EndTokens(s: State)
    requires Consistent(s)
    ensures Emits(AtEnd(s)) == Dedents(|Levels(s)| - 1)
  {
    hide Kept;
    var levels := Levels(s);
    assert forall i :: 0 <= i < |s.stack| ==> s.stack[i] == levels[i];
    assert levels[|levels| - 1] == s.current >= levels[0];
    if s.stack != [] {
      KeptIs(s.stack, levels[0], 1);
      assert Dedents(|s.stack| - 1) + [Dedent] == Dedents(|s.stack|);
    }
  }

  /** The tokens of consistently indented input are those of its levels. */
  lemma {:induction false} TokensAreStream(s: State, events: seq<Event>)
    requires Consistent(s) && OpensDeeper(Levels(s), events) && AfterEvents(Levels(s), events).Some?
    ensures AllTokens(s, events) == Stream(Levels(s), events)
    decreases |events|
  {
    hide Drained, Emits, AfterLine, LineTokens;
    if events == [] {
      EndTokens(s);
    } else {
      match events[0]
      case Opened(level) =>
        var next := Nested(s, level);
        assert Levels(next) == Levels(s) + [level];
        LastCheck(next);
        LastEmits(next);
        TokensAreStream(next, events[1..]);
      case Line(indent) =>
        ConsistentLine(s, indent);
        ConsistentTokens(s, indent);
        TokensAreStream(AfterEvent(s, events[0]).value, events[1..]);
    }
  }

  // ----- the lexer -----

  class Lexer {
    var current: nat
    var target: nat
    var baseline: Option<nat>
    var stack: seq<nat>

    constructor ()
      ensures Fields() == State(0, 0, None, [])
    {
      current, target, baseline, stack := 0, 0, None, [];
    }

    ghost function Fields(): State
      reads this
    {
      State(current, target, baseline, stack)
    }

    method SetIndent(indent: nat)
      modifies this
      ensures Fields() == WithIndent(old(Fields()), indent)
    {
      target := indent;
      if baseline == None {
        baseline := Some(target);
        current := target;
      }
    }

    // Emits a token if the level has not reached its target.
    method CheckIndent() returns (check: Check)
      modifies this
      ensures check == NextCheck(old(Fields()))
      ensures check.Emitted? ==> Fields() == AfterCheck(old(Fields()))
      ensures !check.Emitted? ==> Fields() == old(Fields())
    {
      if baseline == None {
        return Level;
      } else if target > current {
        stack := stack + [current];
        current := target;
        return Emitted(Indent);
      } else if target < baseline.value {
        baseline := Some(target);
        current := target;
        return Emitted(BadIndent);
      } else if target < current {
        if stack == [] {
          return Panicked;
        }
        var prev := stack[|stack| - 1];
        stack := stack[..|stack| - 1];
        if target > prev {
          if stack == [] {
            baseline := None;
          }
          stack := stack + [target];
          return Emitted(BadIndent);
        } else {
          current := prev;
          return Emitted(Dedent);
        }
      } else {
        return Level;
      }
    }

    /** Emits tokens until a check emits none: one report at most, and as many levels on the
        stack as indents less dedents make it. */
    method Settle() returns (tokens: seq<Token>, panicked: bool)
      modifies this
      ensures tokens == Emits(old(Fields()))
      ensures panicked <==> Drained(old(Fields())) == None
      ensures !panicked ==> Drained(old(Fields())) == Some(Fields())
      ensures Count(tokens, BadIndent) == if Reports(old(Fields())) then 1 else 0
      ensures |old(stack)| + Count(tokens, Indent) == |stack| + Count(tokens, Dedent)
    {
      hide Drained, Reports, Remaining, AfterCheck, Count, Emits;
      tokens := [];
      ghost var start := Fields();
      CountNone();
      var check := CheckIndent();
      ghost var s := start;
      while check.Emitted?
        invariant check == NextCheck(s) && Fields() == (if check.Emitted? then AfterCheck(s) else s)
        invariant Drained(s) == Drained(start)
        invariant tokens + Emits(s) == Emits(start)
        invariant Count(tokens, BadIndent) + (if Reports(s) then 1 else 0) == if Reports(start) then 1 else 0
        invariant |start.stack| + Count(tokens, Indent) == |s.stack| + Count(tokens, Dedent)
        decreases Remaining(s)
      {
        CheckProgress(s);
        CheckKeepsDrained(s);
        CheckReports(s);
        CheckEmits(s);
        CountsAppend(tokens, [check.token]);
        CountOne(check.token);
        tokens := tokens + [check.token];
        s := Fields();
        check := CheckIndent();
      }
      panicked := check.Panicked?;
      LastCheck(s);
      LastEmits(s);
    }

    // A new line: a statement separator if the level stays, and otherwise tokens that move it.
    method Newline(indent: nat) returns (tokens: seq<Token>, panicked: bool)
      modifies this
      ensures tokens == EventTokens(old(Fields()), Line(indent))
      ensures StmtSep in tokens <==> old(baseline) == None || indent == old(current)
      ensures panicked <==> AfterEvent(old(Fields()), Line(indent)) == None
      ensures !panicked ==> AfterEvent(old(Fields()), Line(indent)) == Some(Fields())
      ensures Count(tokens, BadIndent) == if EventReports(old(Fields()), Line(indent)) then 1 else 0
      ensures |old(stack)| + Count(tokens, Indent) == |stack| + Count(tokens, Dedent)
    {
      SetIndent(indent);
      tokens := if target != current then [] else [StmtSep];
      CountNone();
      CountOne(StmtSep);
      EmitsNoSeparator(Fields());
      var more;
      more, panicked := Settle();
      CountsAppend(tokens, more);
      tokens := tokens + more;
    }

    // The parser opens a level at a column of the current line.
    method AddIndent(level: nat)
      modifies this
      ensures Fields() == Nested(old(Fields()), level)
    {
      stack := stack + [current];
      target := level;
      current := target;
    }

    // What comes next: a line, or a level the parser opens and the checks that follow.
    method Feed(e: Event) returns (tokens: seq<Token>, panicked: bool)
      modifies this
      ensures tokens == EventTokens(old(Fields()), e)
      ensures panicked <==> AfterEvent(old(Fields()), e) == None
      ensures !panicked ==> AfterEvent(old(Fields()), e) == Some(Fields())
      ensures |old(stack)| + Count(tokens, Indent) + (if e.Opened? then 1 else 0) == |stack| + Count(tokens, Dedent)
    {
      hide Drained, Reports, Count, Emits;
      match e {
        case Opened(level) =>
          AddIndent(level);
          tokens, panicked := Settle();
        case Line(indent) =>
          tokens, panicked := Newline(indent);
      }
    }

    // The end of the input closes every level but the baseline.
    method End() returns (tokens: seq<Token>, panicked: bool)
      modifies this
      ensures tokens == Emits(AtEnd(old(Fields())))
      ensures panicked <==> !Grounded(old(Fields()))
      ensures !panicked ==> Drained(AtEnd(old(Fields()))) == Some(Fields())
      ensures |old(stack)| + Count(tokens, Indent) == |stack| + Count(tokens, Dedent)
    {
      EndPanics(Fields());
      target := if baseline == None then 0 else baseline.value;
      tokens, panicked := Settle();
    }
  }

  lemma LastCheck(s: State)
    requires !NextCheck(s).Emitted?
    ensures Drained(s) == if NextCheck(s) == Panicked then None else Some(s)
    ensures !Reports(s)
  {
  }

  lemma {:induction false} FirstEvent(s: State, events: seq<Event>)
    requires events != []
    ensures AfterAll(s, events) ==
              var next := AfterEvent(s, events[0]);
              if next == None then None else AfterAll(next.value, events[1..])
    ensures AllTokens(s, events) ==
              var next := AfterEvent(s, events[0]);
              EventTokens(s, events[0]) + if next == None then [] else AllTokens(next.value, events[1..])
  {
  }

  lemma CountNone()
    ensures forall t :: Count([], t) == 0
  {
  }

  /** Lexes a whole input. It panics exactly if the end of it, or a line, finds every level on
      the stack deeper. Otherwise every level is accounted for: there is a dedent for each
      indent and for each level the parser opened, but those left on the stack. */
  method LexAll(first: nat, events: seq<Event>) returns (tokens: seq<Token>, left: nat, panicked: bool)
    ensures tokens == AllTokens(Initial(first), events)
    ensures panicked <==> AfterAll(Initial(first), events) == None
    ensures !panicked ==> left == |AfterAll(Initial(first), events).value.stack|
    ensures !panicked ==> Count(tokens, Dedent) + left == Count(tokens, Indent) + OpenedCount(events)
    ensures OpensDeeper([first], events) && AfterEvents([first], events).Some? ==>
              !panicked && left == 0 && tokens == Stream([first], events)
  {
    hide Drained, Grounded, OpensDeeper, AfterEvents, Count, Emits, Stream, AfterEvent, EventTokens;
    if OpensDeeper([first], events) {
      assert Levels(Initial(first)) == [first];
      ReportsInconsistent(Initial(first), events);
      if AfterEvents([first], events).Some? {
        TokensAreStream(Initial(first), events);
      }
    }
    var lexer := new Lexer();
    lexer.SetIndent(first);
    tokens, left, panicked := [], 0, false;
    CountNone();
    var k := 0;
    while k < |events|
      invariant k <= |events|
      invariant AfterAll(lexer.Fields(), events[k..]) == AfterAll(Initial(first), events)
      invariant tokens + AllTokens(lexer.Fields(), events[k..]) == AllTokens(Initial(first), events)
      invariant |lexer.stack| + Count(tokens, Dedent) + OpenedCount(events[k..])
                == Count(tokens, Indent) + OpenedCount(events)
      decreases |events| - k
    {
      assert events[k..][1..] == events[k + 1..];
      FirstEvent(lexer.Fields(), events[k..]);
      var more;
      more, panicked := lexer.Feed(events[k]);
      CountsAppend(tokens, more);
      tokens := tokens + more;
      if panicked {
        return;
      }
      k := k + 1;
    }
    EndPanics(lexer.Fields());
    var more;
    more, panicked := lexer.End();
    CountsAppend(tokens, more);
    tokens := tokens + more;
    left := |lexer.stack|;
  }
}
