/** Verification of a whole program (dolang-bytecode/src/verify.rs, `Verifier`):
    every function in turn, and then that every function is used. */
module Programs {

  import opened Results
  import opened Bytecode
  import opened Graphs
  import opened Blocks
  import opened Passes
  import Certificates
  import FuncVerifiers

  datatype Error = InFunction(func: nat, error: FuncError) | Unused(func: nat)

  // ----- use of functions -----

  function UseGraph(used: seq<Used>): (g: Graph)
    ensures |g| == |used| && forall i :: 0 <= i < |g| ==> g[i] == used[i].uses
  {
    seq(|used|, i requires 0 <= i < |used| => used[i].uses)
  }

  ghost predicate UsesInRange(used: seq<Used>) {
    Closed(UseGraph(used))
  }

  /** Used functions are reachable, and each is queued or has all its uses used,
      except that `busy` may still have the uses `left`. */
  ghost predicate Tracing(g: Graph, used: seq<Used>, queue: seq<nat>, busy: int, left: set<nat>) {
    && |used| > 0 && UseGraph(used) == g && used[0].used
    && (forall i :: 0 <= i < |used| && used[i].used ==> Reachable(g, 0, i))
    && (forall q :: q in queue ==> q < |used| && used[q].used)
    && (forall i :: 0 <= i < |used| && used[i].used ==>
          i in queue || forall u :: u in used[i].uses ==> u < |used| && (used[u].used || (i == busy && u in left)))
  }

  function Idle(used: seq<Used>): nat {
    if used == [] then 0 else Idle(used[..|used| - 1]) + if used[|used| - 1].used then 0 else 1
  }

  lemma {:induction false} IdleDrops(used: seq<Used>, i: nat)
    requires i < |used| && !used[i].used
    ensures Idle(used[i := used[i].(used := true)]) < Idle(used)
  {
    var last := |used| - 1;
    if i < last {
      assert used[i := used[i].(used := true)][..last] == used[..last][i := used[i].(used := true)];
      IdleDrops(used[..last], i);
    } else {
      assert used[i := used[i].(used := true)][..last] == used[..last];
    }
  }

  // Marking one use of the function being traced.
  lemma TraceUse(g: Graph, used: seq<Used>, queue: seq<nat>, busy: nat, left: set<nat>, u: nat)
    requires Tracing(g, used, queue, busy, left) && u in left
    requires busy < |used| && used[busy].used && u < |used| && u in used[busy].uses
    ensures used[u].used ==> Tracing(g, used, queue, busy, left - {u})
    ensures !used[u].used ==>
              && Tracing(g, used[u := used[u].(used := true)], queue + [u], busy, left - {u})
              && Idle(used[u := used[u].(used := true)]) < Idle(used)
  {
    assert Edge(g, busy, u);
    ReachExtends(g, 0, busy, u);
    if !used[u].used {
      var after := used[u := used[u].(used := true)];
      assert UseGraph(after) == g;
      IdleDrops(used, u);
    }
  }

  lemma TakeUse(g: Graph, used: seq<Used>, queue: seq<nat>)
    requires Tracing(g, used, queue, -1, {}) && |queue| > 0 && Closed(g)
    ensures var index := queue[|queue| - 1];
            && index < |used| && used[index].used
            && Tracing(g, used, queue[..|queue| - 1], index, used[index].uses)
  {
    var index := queue[|queue| - 1];
    var rest := queue[..|queue| - 1];
    assert index in queue;
    forall q | q in queue && q != index
      ensures q in rest
    {
      var k :| 0 <= k < |queue| && queue[k] == q;
      assert rest[k] == q;
    }
    forall q | q in rest
      ensures q in queue
    {
    }
    assert g[index] == used[index].uses;
  }

  // With nothing queued, used means reachable.
  lemma EndTracing(g: Graph, used: seq<Used>, i: nat)
    requires Tracing(g, used, [], -1, {}) && i < |used|
    ensures used[i].used <==> Reachable(g, 0, i)
  {
    if Reachable(g, 0, i) {
      var marked := set j: nat | j < |used| && used[j].used;
      forall a: nat, b: nat | a in marked && Edge(g, a, b)
        ensures b in marked
      {
        assert b in used[a].uses;
      }
      ReachStays(g, 0, i, marked);
    }
  }

  // Marks the uses of one function, queueing those not yet used.
  method TraceUses(used: array<Used>, queue: seq<nat>, index: nat, ghost g: Graph) returns (queue': seq<nat>)
    requires index < used.Length && used[index].used && Closed(g)
    requires Tracing(g, used[..], queue, index, used[index].uses)
    modifies used
    ensures Tracing(g, used[..], queue', -1, {})
    ensures Idle(used[..]) < Idle(old(used[..])) || (used[..] == old(used[..]) && queue' == queue)
  {
    var left := used[index].uses;
    queue' := queue;
    while left != {}
      invariant left <= used[index].uses && used[index].used
      invariant Tracing(g, used[..], queue', index, left)
      invariant Idle(used[..]) < Idle(old(used[..])) || (used[..] == old(used[..]) && queue' == queue)
      decreases |left|
    {
      var u :| u in left;
      assert g[index] == used[..][index].uses;
      TraceUse(g, used[..], queue', index, left, u);
      ghost var before := used[..];
      if !used[u].used {
        used[u] := Used(true, used[u].uses);
        assert used[..] == before[u := before[u].(used := true)];
        queue' := queue' + [u];
      }
      left := left - {u};
    }
  }

  /** Succeeds exactly if every function is reachable from function 0 by use, and
      otherwise reports the first that is not. */
  method VerifyUsed(used: array<Used>) returns (error: Option<Error>)
    requires used.Length > 0 && UsesInRange(used[..])
    requires forall i :: 0 <= i < used.Length ==> !used[i].used
    modifies used
    ensures UseGraph(used[..]) == old(UseGraph(used[..]))
    ensures error == None <==> forall i :: 0 <= i < used.Length ==> Reachable(UseGraph(used[..]), 0, i)
    ensures error.Some? ==>
              && error.value.Unused? && error.value.func < used.Length
              && !Reachable(UseGraph(used[..]), 0, error.value.func)
              && forall i :: 0 <= i < error.value.func ==> Reachable(UseGraph(used[..]), 0, i)
  {
    ghost var g := UseGraph(used[..]);
    used[0] := Used(true, used[0].uses);
    assert UseGraph(used[..]) == g;
    ReachesItself(g, 0);
    var queue := [0];
    while |queue| > 0
      invariant Tracing(g, used[..], queue, -1, {})
      decreases Idle(used[..]), |queue|
    {
      TakeUse(g, used[..], queue);
      var index := queue[|queue| - 1];
      queue := TraceUses(used, queue[..|queue| - 1], index, g);
    }
    assert queue == [];
    ghost var traced := used[..];
    for i := 0 to used.Length
      invariant used[..] == traced
      invariant forall j :: 0 <= j < i ==> Reachable(g, 0, j)
    {
      EndTracing(g, traced, i);
      if !used[i].used {
        return Some(Unused(i));
      }
    }
    return None;
  }

  // ----- whole programs -----

  /** What the file-level checks establish about the tables. */
  ghost predicate ProgramFileChecked(ctx: Context) {
    |ctx.funcs| > 0 && forall i :: 0 <= i < |ctx.funcs| ==> FileChecked(ctx, ctx.funcs[i])
  }

  function ProgramUses(ctx: Context): (g: Graph)
    ensures |g| == |ctx.funcs|
    ensures forall i :: 0 <= i < |g| ==> g[i] == UsesOf(ctx.funcs[i].code, |ctx.funcs[i].code|)
  {
    seq(|ctx.funcs|, i requires 0 <= i < |ctx.funcs| => UsesOf(ctx.funcs[i].code, |ctx.funcs[i].code|))
  }

  ghost predicate AllUsed(ctx: Context) {
    forall i :: 0 <= i < |ctx.funcs| ==> Reachable(ProgramUses(ctx), 0, i)
  }

  ghost predicate ProgramAccepted(ctx: Context, certs: seq<Certificate>) {
    && |certs| == |ctx.funcs|
    && (forall i :: 0 <= i < |certs| ==> Accepted(ctx, ctx.funcs[i], certs[i]))
    && AllUsed(ctx)
  }

  lemma {:induction false} UsesBounded(ctx: Context, f: Func, n: nat)
    requires Contiguous(f.code) && SyntaxOk(ctx, f) && n <= |f.code|
    ensures forall u :: u in UsesOf(f.code, n) ==> u < |ctx.funcs|
  {
    if n > 0 {
      UsesBounded(ctx, f, n - 1);
      assert SyntaxFault(ctx, f, f.code[n - 1]) == None;
    }
  }

  /** The first `n` functions have recorded their uses. */
  ghost predicate UsesRecorded(ctx: Context, used: seq<Used>, n: nat) {
    && |used| == |ctx.funcs| && n <= |used|
    && forall i :: 0 <= i < |used| ==> used[i] == Used(false, if i < n then ProgramUses(ctx)[i] else {})
  }

  lemma RecordUses(ctx: Context, before: seq<Used>, after: seq<Used>, i: nat)
    requires UsesRecorded(ctx, before, i) && i < |ctx.funcs| && |after| == |before|
    requires after[i] == Used(before[i].used, before[i].uses + UsesOf(ctx.funcs[i].code, |ctx.funcs[i].code|))
    requires forall j :: 0 <= j < |before| && j != i ==> after[j] == before[j]
    ensures UsesRecorded(ctx, after, i + 1)
  {
    assert after[i].uses == ProgramUses(ctx)[i];
  }

  lemma UsesClosed(ctx: Context, used: seq<Used>)
    requires ProgramFileChecked(ctx) && UsesRecorded(ctx, used, |ctx.funcs|)
    requires forall i :: 0 <= i < |ctx.funcs| ==> SyntaxOk(ctx, ctx.funcs[i])
    ensures UsesInRange(used) && UseGraph(used) == ProgramUses(ctx)
  {
    forall a, b | 0 <= a < |used| && b in UseGraph(used)[a]
      ensures b < |used|
    {
      UsesBounded(ctx, ctx.funcs[a], |ctx.funcs[a].code|);
    }
  }

  /** The first function out of reach of function 0. */
  ghost predicate FirstUnused(ctx: Context, func: nat) {
    && func < |ctx.funcs| && !Reachable(ProgramUses(ctx), 0, func)
    && forall i :: 0 <= i < func ==> Reachable(ProgramUses(ctx), 0, i)
  }

  /** What a refusal of claimed certificates means: the first function whose certificate is
      not accepted, or if there is none, the first function that is not used. */
  ghost predicate Refuses(ctx: Context, certs: seq<Certificate>, error: Error)
    requires ProgramFileChecked(ctx) && |certs| == |ctx.funcs|
  {
    match error
    case InFunction(func, e) =>
      && func < |certs| && !Accepted(ctx, ctx.funcs[func], certs[func])
      && Refusal(ctx, ctx.funcs[func], certs[func], e)
      && forall i :: 0 <= i < func ==> Accepted(ctx, ctx.funcs[i], certs[i])
    case Unused(func) =>
      && FirstUnused(ctx, func)
      && forall i :: 0 <= i < |certs| ==> Accepted(ctx, ctx.funcs[i], certs[i])
  }

  ghost predicate Inferable(ctx: Context, i: nat)
    requires i < |ctx.funcs|
  {
    exists cert :: InferredCert(ctx, ctx.funcs[i], cert)
  }

  lemma InferredSoFar(ctx: Context, certs: seq<Certificate>, n: nat)
    requires InferredUpTo(ctx, certs, n)
    ensures forall i :: 0 <= i < n ==> Inferable(ctx, i)
    ensures forall i :: 0 <= i < n ==> SyntaxOk(ctx, ctx.funcs[i])
  {
    hide SyntaxOk, BlocksMatch, Inferred, TargetsOk;
    forall i | 0 <= i < n
      ensures Inferable(ctx, i) && SyntaxOk(ctx, ctx.funcs[i])
    {
      assert InferredCert(ctx, ctx.funcs[i], certs[i]);
    }
  }

  /** What a failure to infer means: the first function that no certificate holds of, or if
      there is none, the first function that is not used. */
  ghost predicate Fails(ctx: Context, error: Error)
    requires ProgramFileChecked(ctx)
  {
    match error
    case InFunction(func, _) =>
      && func < |ctx.funcs| && NothingInferable(ctx, ctx.funcs[func])
      && forall i :: 0 <= i < func ==> Inferable(ctx, i)
    case Unused(func) =>
      && FirstUnused(ctx, func)
      && forall i :: 0 <= i < |ctx.funcs| ==> Inferable(ctx, i)
  }

  /** Checks claimed certificates for every function. */
  method Check(ctx: Context, certs: seq<Certificate>) returns (error: Option<Error>)
    requires ProgramFileChecked(ctx) && |certs| == |ctx.funcs|
    ensures error == None <==> ProgramAccepted(ctx, certs)
    ensures error.Some? ==> Refuses(ctx, certs, error.value)
  {
    hide SyntaxOk, UsesOf, Reachable, TargetsOk, SettledAndReached, BlocksMatch, Refusal;
    var used := new Used[|ctx.funcs|](_ => Used(false, {}));
    for i := 0 to |ctx.funcs|
      invariant UsesRecorded(ctx, used[..], i)
      invariant forall j :: 0 <= j < i ==> Accepted(ctx, ctx.funcs[j], certs[j])
    {
      ghost var before := used[..];
      var verifier := new FuncVerifiers.FuncVerifier(ctx, i, ctx.funcs[i], used);
      var refused := verifier.Check(certs[i]);
      if refused.Some? {
        return Some(InFunction(i, refused.value));
      }
      RecordUses(ctx, before, used[..], i);
    }
    UsesClosed(ctx, used[..]);
    error := VerifyUsed(used);
  }

  ghost predicate InferredUpTo(ctx: Context, certs: seq<Certificate>, n: nat) {
    n == |certs| <= |ctx.funcs| && forall i :: 0 <= i < n ==> InferredCert(ctx, ctx.funcs[i], certs[i])
  }

  // Infers one function's certificate and records its uses.
  method ComputeOne(ctx: Context, used: array<Used>, i: nat) returns (r: Result<Certificate, FuncError>)
    requires ProgramFileChecked(ctx) && i < |ctx.funcs| && UsesRecorded(ctx, used[..], i)
    modifies used
    ensures r.Ok? ==> InferredCert(ctx, ctx.funcs[i], r.value) && UsesRecorded(ctx, used[..], i + 1)
    ensures r.Err? ==> NothingInferable(ctx, ctx.funcs[i])
  {
    ghost var before := used[..];
    var verifier := new FuncVerifiers.FuncVerifier(ctx, i, ctx.funcs[i], used);
    r := verifier.Compute();
    if r.Ok? {
      RecordUses(ctx, before, used[..], i);
    }
  }

  /** Infers a certificate for every function. */
  method Compute(ctx: Context) returns (r: Result<seq<Certificate>, Error>)
    requires ProgramFileChecked(ctx)
    ensures r.Ok? ==> InferredUpTo(ctx, r.value, |ctx.funcs|) && AllUsed(ctx)
    ensures r.Err? ==> Fails(ctx, r.error)
  {
    hide InferredCert, NothingInferable, Inferable, SyntaxOk, UsesOf, Reachable;
    var certs: seq<Certificate> := [];
    var used := new Used[|ctx.funcs|](_ => Used(false, {}));
    for i := 0 to |ctx.funcs|
      invariant UsesRecorded(ctx, used[..], i) && InferredUpTo(ctx, certs, i)
    {
      var inferred := ComputeOne(ctx, used, i);
      InferredSoFar(ctx, certs, i);
      if inferred.Err? {
        return Err(InFunction(i, inferred.error));
      }
      certs := certs + [inferred.value];
    }
    InferredSoFar(ctx, certs, |ctx.funcs|);
    UsesClosed(ctx, used[..]);
    var unused := VerifyUsed(used);
    return if unused.Some? then Err(unused.value) else Ok(certs);
  }
}
