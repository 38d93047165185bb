/** How inferred and checked certificates relate. */
module Certificates {

  import opened Results
  import opened Bytecode
  import opened Transfer
  import opened Graphs
  import opened Blocks
  import opened Solutions
  import opened Passes
  import Inference
  import FuncVerifiers

  /** Every block of the certificate lists a state for each of the function's locals. */
  ghost predicate ListsLocals(f: Func, cert: Certificate) {
    forall b :: 0 <= b < |cert.blocks| ==> f.locals <= |cert.blocks[b].1.locals|
  }

  /** Every block of the certificate was reached. */
  ghost predicate AllReached(cert: Certificate) {
    forall b :: 0 <= b < |cert.blocks| ==> cert.blocks[b].1.Live?
  }

  lemma ClaimAt(ctx: Context, f: Func, cert: Certificate, b: nat)
    requires b < |cert.blocks|
    ensures Claims(ctx, f, cert)[b + 1] == cert.blocks[b].1
  {
  }

  lemma ListsLocalsClaims(ctx: Context, f: Func, cert: Certificate)
    ensures ListsLocals(f, cert) <==>
              forall b :: 0 <= b < |Claims(ctx, f, cert)| ==> f.locals <= |Claims(ctx, f, cert)[b].locals|
    ensures AllReached(cert) <==> forall b :: 0 <= b < |Claims(ctx, f, cert)| ==> Claims(ctx, f, cert)[b].Live?
  {
    var claims := Claims(ctx, f, cert);
    forall b | 0 <= b < |cert.blocks|
      ensures claims[b + 1] == cert.blocks[b].1
    {
    }
    assert forall b :: 0 < b < |claims| ==> claims[b] == cert.blocks[b - 1].1;
  }

  lemma AcceptedIsSolution(ctx: Context, f: Func, cert: Certificate)
    requires Accepted(ctx, f, cert) && ListsLocals(f, cert)
    ensures Solution(ctx, f, Claims(ctx, f, cert))
  {
    ListsLocalsClaims(ctx, f, cert);
  }

  lemma AcceptedIsInferable(ctx: Context, f: Func, cert: Certificate)
    requires Accepted(ctx, f, cert) && ListsLocals(f, cert)
    ensures !NothingInferable(ctx, f)
  {
    AcceptedIsSolution(ctx, f, cert);
  }

  /** Any accepted certificate agrees with the inferred one on operands, upvars and
      maximum depth, and claims a value only where the inferred one does. */
  lemma InferredIsMostPrecise(ctx: Context, f: Func, inferred: Certificate, accepted: Certificate)
    requires InferredCert(ctx, f, inferred)
    requires Accepted(ctx, f, accepted) && ListsLocals(f, accepted)
    ensures inferred.maxOperandDepth == accepted.maxOperandDepth
    ensures |inferred.blocks| == |accepted.blocks|
    ensures forall b :: 0 <= b < |inferred.blocks| ==>
              && inferred.blocks[b].0 == accepted.blocks[b].0
              && Leq(f.locals, inferred.blocks[b].1, accepted.blocks[b].1)
  {
    var low := Claims(ctx, f, inferred);
    var high := Claims(ctx, f, accepted);
    AcceptedIsSolution(ctx, f, accepted);
    assert Below(f.locals, low, high);
    SyntaxGivesSlots(ctx, f);
    PeakUnique(ctx, f, low, high, inferred.maxOperandDepth, accepted.maxOperandDepth);
    forall b | 0 <= b < |inferred.blocks|
      ensures inferred.blocks[b].0 == accepted.blocks[b].0
      ensures Leq(f.locals, inferred.blocks[b].1, accepted.blocks[b].1)
    {
      ClaimAt(ctx, f, inferred, b);
      ClaimAt(ctx, f, accepted, b);
      assert low[b + 1].Live?;
    }
  }

  /** Inference has one result, whatever order its queue is emptied in. */
  lemma InferredIsUnique(ctx: Context, f: Func, c: Certificate, d: Certificate)
    requires InferredCert(ctx, f, c) && InferredCert(ctx, f, d)
    ensures c == d
  {
    var s, t := Claims(ctx, f, c), Claims(ctx, f, d);
    forall b | 0 <= b < |s|
      ensures s[b] == t[b]
    {
      assert Below(f.locals, s, t) && Below(f.locals, t, s);
      if s[b].Live? {
        LeqAntisymmetric(s[b], t[b]);
      }
    }
    assert s == t;
    OnePeak(ctx, f, s, c.maxOperandDepth, d.maxOperandDepth);
    forall b | 0 <= b < |c.blocks|
      ensures c.blocks[b] == d.blocks[b]
    {
      ClaimAt(ctx, f, c, b);
      ClaimAt(ctx, f, d, b);
    }
  }

  /** A check accepts the inferred certificate if every block was reached. */
  lemma InferredIsAccepted(ctx: Context, f: Func, cert: Certificate)
    requires InferredCert(ctx, f, cert) && AllReached(cert)
    ensures Accepted(ctx, f, cert) && ListsLocals(f, cert)
  {
    ListsLocalsClaims(ctx, f, cert);
    var claims := Claims(ctx, f, cert);
    assert forall b :: 0 <= b < |claims| ==> claims[b].Live?;
    AcceptedIs(ctx, f, cert);
  }

  /** Inference succeeds, reaching every block, if and only if some certificate that
      lists every local is accepted; its own certificate is then accepted too. */
  method InferCertificate(ctx: Context, f: Func) returns (r: Result<Certificate, FuncError>)
    requires FileChecked(ctx, f)
    ensures r.Ok? ==> InferredCert(ctx, f, r.value)
    ensures r.Ok? && AllReached(r.value) <==> exists cert :: Accepted(ctx, f, cert) && ListsLocals(f, cert)
    ensures r.Ok? && AllReached(r.value) ==> Accepted(ctx, f, r.value) && ListsLocals(f, r.value)
  {
    var used := new Used[1](_ => Used(false, {}));
    var verifier := new FuncVerifiers.FuncVerifier(ctx, 0, f, used);
    r := verifier.Compute();
    if r.Ok? && AllReached(r.value) {
      InferredIsAccepted(ctx, f, r.value);
    }
    forall cert | Accepted(ctx, f, cert) && ListsLocals(f, cert)
      ensures r.Ok? && AllReached(r.value)
    {
      AcceptedIsSolution(ctx, f, cert);
      assert r.Ok?;
      InferredIsMostPrecise(ctx, f, r.value, cert);
    }
  }

  /** A check of one function succeeds exactly on the accepted certificates. */
  method CheckCertificate(ctx: Context, f: Func, cert: Certificate) returns (error: Option<FuncError>)
    requires FileChecked(ctx, f)
    ensures error == None <==> Accepted(ctx, f, cert)
    ensures error.Some? ==> Refusal(ctx, f, cert, error.value)
  {
    var used := new Used[1](_ => Used(false, {}));
    var verifier := new FuncVerifiers.FuncVerifier(ctx, 0, f, used);
    error := verifier.Check(cert);
  }
}
