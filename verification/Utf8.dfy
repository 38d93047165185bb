/** UTF-8 text as characters and as bytes (section 3 of RFC 3629). */
module Utf8 {

  import opened Varint

  predicate IsScalar(c: nat) {
    c < 0x11_0000 && !(0xD800 <= c < 0xE000)
  }

  predicate IsText(cs: seq<nat>) {
    forall i :: 0 <= i < |cs| ==> IsScalar(cs[i])
  }

  /** A byte that continues a character. */
  predicate Continues(b: byte) {
    0x80 <= b < 0xC0
  }

  function Tail(v: nat): byte {
    (0x80 + v % 64) as byte
  }

  function EncodeChar(c: nat): (r: seq<byte>)
    ensures 1 <= |r| <= 4
  {
    if c < 0x80 then [c as byte]
    else if c < 0x800 then [(0xC0 + c / 64) as byte, Tail(c)]
    else if c < 0x1_0000 then [(0xE0 + c / 4096) as byte, Tail(c / 64), Tail(c)]
    else [(0xF0 + (c / 262144) % 8) as byte, Tail(c / 4096), Tail(c / 64), Tail(c)]
  }

  /** The length of a character, as its first byte tells. */
  function WidthOf(lead: byte): (n: nat)
    ensures 1 <= n <= 4
  {
    if lead < 0xC0 then 1 else if lead < 0xE0 then 2 else if lead < 0xF0 then 3 else 4
  }

  // The first byte tells a character's length, the others continue it, and only the
  // newline is encoded with the byte of a newline.
  lemma CharShape(c: nat)
    requires IsScalar(c)
    ensures var r := EncodeChar(c);
            && WidthOf(r[0]) == |r| && !Continues(r[0])
            && (forall i :: 1 <= i < |r| ==> Continues(r[i]))
            && (forall i :: 0 <= i < |r| && r[i] == 10 ==> c == 10 && |r| == 1)
            && (c == 10 ==> r == [10])
  {
  }

  function Text(cs: seq<nat>): seq<byte> {
    if cs == [] then [] else Text(cs[..|cs| - 1]) + EncodeChar(cs[|cs| - 1])
  }

  /** Where character `k` starts. */
  function At(cs: seq<nat>, k: nat): nat
    requires k <= |cs|
  {
    |Text(cs[..k])|
  }

  lemma AtNext(cs: seq<nat>, k: nat)
    requires k < |cs|
    ensures At(cs, k + 1) == At(cs, k) + |EncodeChar(cs[k])|
    ensures Text(cs[..k + 1]) == Text(cs[..k]) + EncodeChar(cs[k])
  {
    assert cs[..k + 1][..k] == cs[..k];
  }

  lemma {:induction false} AtIncreases(cs: seq<nat>, j: nat, k: nat)
    requires j <= k <= |cs|
    ensures At(cs, j) + (k - j) <= At(cs, k)
    decreases k - j
  {
    if j < k {
      AtIncreases(cs, j, k - 1);
      AtNext(cs, k - 1);
    }
  }

  lemma AtInjective(cs: seq<nat>, j: nat, k: nat)
    requires j <= |cs| && k <= |cs|
    ensures At(cs, j) < At(cs, k) <==> j < k
    ensures At(cs, j) == At(cs, k) <==> j == k
  {
    if j < k {
      AtIncreases(cs, j, k);
    } else {
      AtIncreases(cs, k, j);
    }
  }

  lemma {:induction false} TextPrefix(cs: seq<nat>, k: nat)
    requires k <= |cs|
    ensures At(cs, k) <= |Text(cs)| && Text(cs)[..At(cs, k)] == Text(cs[..k])
    ensures At(cs, |cs|) == |Text(cs)|
    decreases |cs|
  {
    assert cs[..|cs|] == cs;
    if k < |cs| {
      var init := cs[..|cs| - 1];
      TextPrefix(init, k);
      assert init[..k] == cs[..k];
    }
  }

  // Character `k` is encoded from where it starts.
  lemma {:induction false} TextAt(cs: seq<nat>, k: nat)
    requires k < |cs|
    ensures At(cs, k) + |EncodeChar(cs[k])| <= |Text(cs)|
    ensures forall i :: 0 <= i < |EncodeChar(cs[k])| ==> Text(cs)[At(cs, k) + i] == EncodeChar(cs[k])[i]
  {
    TextPrefix(cs, k + 1);
    AtNext(cs, k);
    forall i | 0 <= i < |EncodeChar(cs[k])|
      ensures Text(cs)[At(cs, k) + i] == EncodeChar(cs[k])[i]
    {
      assert Text(cs)[At(cs, k) + i] == Text(cs)[..At(cs, k + 1)][At(cs, k) + i];
    }
  }
}
