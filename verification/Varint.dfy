/** Variable-length integers (dolang-bytecode/src/varint.rs): the number of trailing
    zeros of the first byte says how many more bytes follow. */
module Varint {

  import opened Results

  newtype byte = x: int | 0 <= x < 256

  const U64_LIMIT: nat := 0x1_0000_0000_0000_0000
  const I64_LIMIT: int := 0x8000_0000_0000_0000

  // ----- zigzag -----

  predicate IsI64(x: int) {
    -I64_LIMIT <= x < I64_LIMIT
  }

  // The shifts and exclusive or of the two's complement representation, as arithmetic.
  function Zag(x: int): nat {
    if x >= 0 then 2 * x else -2 * x - 1
  }

  function Zig(u: nat): int {
    if u % 2 == 0 then u / 2 else -(u / 2) - 1
  }

  /** Zigzag is a bijection between signed and unsigned 64-bit integers. */
  lemma ZigZag(x: int, u: nat)
    ensures Zig(Zag(x)) == x && Zag(Zig(u)) == u
    ensures IsI64(x) <==> Zag(x) < U64_LIMIT
    ensures IsI64(Zig(u)) <==> u < U64_LIMIT
  {
  }

  /** It lists the integers by magnitude, each negative one before its opposite. */
  lemma ZigZagOrder(u: nat)
    ensures Zig(0) == 0
    ensures Zig(u + 1) == if Zig(u) >= 0 then -Zig(u) - 1 else -Zig(u)
  {
  }

  // ----- little-endian bytes -----

  function Bytes(v: nat, n: nat): (r: seq<byte>)
    ensures |r| == n
  {
    if n == 0 then [] else [(v % 256) as byte] + Bytes(v / 256, n - 1)
  }

  function Value(bytes: seq<byte>): nat {
    if bytes == [] then 0 else bytes[0] as nat + 256 * Value(bytes[1..])
  }

  function Pow256(n: nat): (r: nat)
    ensures r > 0
  {
    if n == 0 then 1 else 256 * Pow256(n - 1)
  }

  lemma {:induction false} ValueOfBytes(v: nat, n: nat)
    requires v < Pow256(n)
    ensures Value(Bytes(v, n)) == v
  {
    if n > 0 {
      ValueOfBytes(v / 256, n - 1);
      assert Bytes(v, n)[1..] == Bytes(v / 256, n - 1);
    }
  }

  lemma {:induction false} ValueBound(bytes: seq<byte>)
    ensures Value(bytes) < Pow256(|bytes|)
  {
    if bytes != [] {
      ValueBound(bytes[1..]);
    }
  }

  // ----- encoding -----

  function Pow2(n: nat): (r: nat)
    ensures r > 0
  {
    if n == 0 then 1 else 2 * Pow2(n - 1)
  }

  /** The number of bytes a value takes: seven value bits in each of up to eight, or nine. */
  function EncodedLen(v: nat): (n: nat)
    ensures 1 <= n <= 9
  {
    if v < 0x80 then 1
    else if v < 0x4000 then 2
    else if v < 0x20_0000 then 3
    else if v < 0x1000_0000 then 4
    else if v < 0x8_0000_0000 then 5
    else if v < 0x400_0000_0000 then 6
    else if v < 0x2_0000_0000_0000 then 7
    else if v < 0x100_0000_0000_0000 then 8
    else 9
  }

  function EncodeUvar(v: nat): (r: seq<byte>)
    ensures |r| == EncodedLen(v)
  {
    var len := EncodedLen(v);
    if len == 9 then [0] + Bytes(v, 8) else Bytes((2 * v + 1) * Pow2(len - 1), len)
  }

  // ----- decoding -----

  /** The zeros below the lowest set bit, of at most `bits`. */
  function ZerosBelow(h: nat, bits: nat): (n: nat)
    ensures n <= bits
  {
    if bits == 0 || h % 2 == 1 then 0 else 1 + ZerosBelow(h / 2, bits - 1)
  }

  function TrailingZeros(h: byte): (n: nat)
    ensures n <= 8
  {
    ZerosBelow(h as nat, 8)
  }

  function Quotient(v: nat, d: nat): nat
    requires d > 0
  {
    v / d
  }

  function ShiftRight(v: nat, bits: nat): nat {
    Quotient(v, Pow2(bits))
  }

  datatype Read = Read(value: nat, next: nat)

  /** The value at a position, and where the next one starts; `None` if the input ends first. */
  function DecodeUvar(input: seq<byte>, pos: nat): (r: Option<Read>)
    ensures r.Some? ==> pos < r.value.next <= |input|
  {
    if pos >= |input| then None
    else
      var header := input[pos];
      var trailing := TrailingZeros(header);
      if pos + 1 + trailing > |input| then None
      else if trailing == 8 then Some(Read(Value(input[pos + 1..pos + 9]), pos + 9))
      else if trailing == 0 then Some(Read(header as nat / 2, pos + 1))
      else Some(Read(ShiftRight(Value(input[pos..pos + 1 + trailing]), 1 + trailing), pos + 1 + trailing))
  }

  /** The decoder of verified code, which assumes that the input is long enough. */
  function DecodeUnchecked(input: seq<byte>, pos: nat): Read
    requires pos < |input| && pos + 1 + TrailingZeros(input[pos]) <= |input|
  {
    var header := input[pos];
    var trailing := TrailingZeros(header);
    var data := input[pos + 1..pos + 1 + trailing];
    if trailing == 8 then Read(Value(data), pos + 9)
    else Read(ShiftRight(Value([header] + data), 1 + trailing), pos + 1 + trailing)
  }

  /** What the bits mean: those of the header above its lowest set bit are the lowest of the
      value, and the bytes that follow, the lowest first, are the rest. */
  lemma UvarMeans(input: seq<byte>, pos: nat)
    requires DecodeUvar(input, pos).Some?
    ensures var read, t := DecodeUvar(input, pos).value, TrailingZeros(input[pos]);
            var rest := Value(input[pos + 1..read.next]);
            && read.next == pos + 1 + t
            && read.value == if t == 8 then rest else input[pos] as nat / Pow2(t + 1) + Pow2(7 - t) * rest
  {
    var t := TrailingZeros(input[pos]);
    PowersOfTwo();
    if t == 0 {
      assert input[pos + 1..pos + 1] == [];
    } else if t < 8 {
      assert input[pos..pos + 1 + t][1..] == input[pos + 1..pos + 1 + t];
      var h, rest := input[pos] as nat, Value(input[pos + 1..pos + 1 + t]);
      assert Value(input[pos..pos + 1 + t]) == h + 256 * rest;
      HeaderSplits(h, rest, t);
    }
  }

  lemma HeaderSplits(h: nat, rest: nat, t: nat)
    requires 1 <= t <= 7
    ensures (h + 256 * rest) / Pow2(t + 1) == h / Pow2(t + 1) + Pow2(7 - t) * rest
  {
    PowersOfTwo();
    match t
    case 1 => assert (h + 256 * rest) / 4 == h / 4 + 64 * rest;
    case 2 => assert (h + 256 * rest) / 8 == h / 8 + 32 * rest;
    case 3 => assert (h + 256 * rest) / 16 == h / 16 + 16 * rest;
    case 4 => assert (h + 256 * rest) / 32 == h / 32 + 8 * rest;
    case 5 => assert (h + 256 * rest) / 64 == h / 64 + 4 * rest;
    case 6 => assert (h + 256 * rest) / 128 == h / 128 + 2 * rest;
    case 7 => assert (h + 256 * rest) / 256 == h / 256 + rest;
  }

  /** The two decoders agree wherever the input is long enough, which the checked one detects. */
  lemma DecodersAgree(input: seq<byte>, pos: nat)
    requires pos < |input|
    ensures DecodeUvar(input, pos).Some? <==> pos + 1 + TrailingZeros(input[pos]) <= |input|
    ensures DecodeUvar(input, pos).Some? ==> DecodeUvar(input, pos).value == DecodeUnchecked(input, pos)
  {
    if DecodeUvar(input, pos).Some? {
      var trailing := TrailingZeros(input[pos]);
      assert [input[pos]] + input[pos + 1..pos + 1 + trailing] == input[pos..pos + 1 + trailing];
      if trailing == 0 {
        assert input[pos..pos + 1] == [input[pos]];
        assert Value([input[pos]]) == input[pos] as nat + 256 * Value([]);
        assert Pow2(1) == 2 * Pow2(0);
      }
    }
  }

  lemma ModScale(x: nat, a: nat, b: nat)
    requires a * b == 256
    ensures (x * a) % 256 == a * (x % b)
  {
    var q, r := x / b, x % b;
    assert x * a == 256 * q + a * r by {
      assert x == q * b + r;
      assert (q * b) * a == q * (a * b);
    }
    assert a * r < 256 by {
      assert a * r <= a * (b - 1);
    }
  }

  lemma {:induction false} OddZeros(odd: nat, k: nat, bits: nat)
    requires odd % 2 == 1 && k < bits
    ensures ZerosBelow(Pow2(k) * odd, bits) == k
  {
    if k > 0 {
      Doubled(Pow2(k - 1), odd);
      assert Pow2(k) * odd == 2 * (Pow2(k - 1) * odd);
      OddZeros(odd, k - 1, bits - 1);
    } else {
      assert Pow2(0) * odd == odd;
    }
  }

  lemma {:induction false} AllZeros(bits: nat)
    ensures ZerosBelow(0, bits) == bits
  {
    if bits > 0 {
      AllZeros(bits - 1);
    }
  }

  lemma Doubled(p: nat, odd: nat)
    ensures (2 * p) * odd == 2 * (p * odd)
    ensures odd > 0 && p > 0 ==> p * odd > 0
  {
  }

  // The first byte of a short encoding carries one less trailing zero than its length.
  lemma HeaderZeros(v: nat, len: nat)
    requires 1 <= len <= 8
    ensures TrailingZeros((((2 * v + 1) * Pow2(len - 1)) % 256) as byte) == len - 1
  {
    hide TrailingZeros;
    var odd := 2 * v + 1;
    var k := len - 1;
    var rest := Pow2(8 - k);
    PowersComplement(k);
    ModScale(odd, Pow2(k), rest);
    OddModEven(odd, Pow2(7 - k));
    ScaledZeros(odd % rest, k);
  }

  lemma {:induction false} PowersComplement(k: nat)
    requires k <= 7
    ensures Pow2(k) * Pow2(8 - k) == 256 && Pow2(8 - k) == 2 * Pow2(7 - k)
  {
    PowersOfTwo();
  }

  lemma {:induction false} ScaledZeros(odd: nat, k: nat)
    requires odd % 2 == 1 && k <= 7 && Pow2(k) * odd < 256
    ensures TrailingZeros((Pow2(k) * odd) as byte) == k
  {
    OddZeros(odd, k, 8);
  }

  lemma OddModEven(odd: nat, half: nat)
    requires odd % 2 == 1 && half > 0
    ensures (odd % (2 * half)) % 2 == 1
  {
    var q := odd / (2 * half);
    assert odd == 2 * (half * q) + odd % (2 * half);
  }

  lemma PowersOfTwo()
    ensures Pow2(0) == 1 && Pow2(1) == 2 && Pow2(2) == 4 && Pow2(3) == 8 && Pow2(4) == 16
    ensures Pow2(5) == 32 && Pow2(6) == 64 && Pow2(7) == 128 && Pow2(8) == 256
  {
    assert Pow2(3) == 2 * Pow2(2) && Pow2(5) == 2 * Pow2(4) && Pow2(7) == 2 * Pow2(6);
  }

  lemma PowersOf256()
    ensures Pow256(1) == 0x100 && Pow256(2) == 0x1_0000 && Pow256(3) == 0x100_0000
    ensures Pow256(4) == 0x1_0000_0000 && Pow256(5) == 0x100_0000_0000 && Pow256(6) == 0x1_0000_0000_0000
    ensures Pow256(7) == 0x100_0000_0000_0000 && Pow256(8) == U64_LIMIT
  {
    assert Pow256(0) == 1;
    assert Pow256(3) == 256 * Pow256(2) && Pow256(5) == 256 * Pow256(4) && Pow256(7) == 256 * Pow256(6);
  }

  // A short encoding fits its bytes, and shifting out the length leaves the value.
  lemma ShortEncoding(v: nat)
    requires EncodedLen(v) <= 8
    ensures var len := EncodedLen(v);
            && (2 * v + 1) * Pow2(len - 1) < Pow256(len)
            && (2 * v + 1) * Pow2(len - 1) / Pow2(len) == v
  {
    PowersOfTwo();
    PowersOf256();
  }

  /** Decoding an encoding, wherever it stands in the input, gives the value back and
      consumes exactly its bytes. */
  lemma UvarRoundTrip(input: seq<byte>, pos: nat, v: nat)
    requires v < U64_LIMIT
    requires pos + EncodedLen(v) <= |input|
    requires input[pos..pos + EncodedLen(v)] == EncodeUvar(v)
    ensures DecodeUvar(input, pos) == Some(Read(v, pos + EncodedLen(v)))
  {
    var len := EncodedLen(v);
    var code := input[pos..pos + len];
    assert input[pos] == code[0];
    PowersOf256();
    if len == 9 {
      assert input[pos + 1..pos + 9] == code[1..] == Bytes(v, 8);
      ValueOfBytes(v, 8);
      AllZeros(8);
    } else {
      var shifted := (2 * v + 1) * Pow2(len - 1);
      ShortEncoding(v);
      HeaderZeros(v, len);
      assert code[0] == (shifted % 256) as byte;
      ValueOfBytes(shifted, len);
      if len == 1 {
        PowersOfTwo();
        assert Bytes(shifted, 1) == [(shifted % 256) as byte] + Bytes(shifted / 256, 0);
      }
    }
  }

  /** No encoding of a value is shorter: whatever bytes decode to it, at least as many are consumed. */
  lemma UvarShortest(input: seq<byte>, pos: nat)
    requires DecodeUvar(input, pos).Some?
    ensures DecodeUvar(input, pos).value.value < U64_LIMIT
    ensures EncodedLen(DecodeUvar(input, pos).value.value) <= DecodeUvar(input, pos).value.next - pos
  {
    var trailing := TrailingZeros(input[pos]);
    if trailing == 8 {
      ValueBound(input[pos + 1..pos + 9]);
      PowersOf256();
    } else if trailing == 0 {
      assert input[pos] as nat / 2 < 0x80;
    } else {
      ValueBound(input[pos..pos + 1 + trailing]);
      ShortValue(Value(input[pos..pos + 1 + trailing]), 1 + trailing);
    }
  }

  // Shifting out the length leaves seven bits of each byte.
  lemma {:induction false} ShortValue(x: nat, n: nat)
    requires 1 <= n <= 8 && x < Pow256(n)
    ensures x / Pow2(n) < U64_LIMIT && EncodedLen(x / Pow2(n)) <= n
  {
    PowersOf256();
    PowersOfTwo();
    match n
    case 1 => assert x / 2 < 0x80;
    case 2 => assert x / 4 < 0x4000;
    case 3 => assert x / 8 < 0x20_0000;
    case 4 => assert x / 16 < 0x1000_0000;
    case 5 => assert x / 32 < 0x8_0000_0000;
    case 6 => assert x / 64 < 0x400_0000_0000;
    case 7 => assert x / 128 < 0x2_0000_0000_0000;
    case 8 => assert x / 256 < 0x100_0000_0000_0000;
  }

  /** The signed encoding is the unsigned encoding of the zigzag value. */
  function EncodeIvar(x: int): seq<byte> {
    EncodeUvar(Zag(x))
  }

  lemma IvarRoundTrip(input: seq<byte>, pos: nat, x: int)
    requires IsI64(x)
    requires pos + EncodedLen(Zag(x)) <= |input|
    requires input[pos..pos + EncodedLen(Zag(x))] == EncodeIvar(x)
    ensures DecodeUvar(input, pos).Some?
    ensures Zig(DecodeUvar(input, pos).value.value) == x
    ensures DecodeUvar(input, pos).value.next == pos + EncodedLen(Zag(x))
  {
    ZigZag(x, 0);
    UvarRoundTrip(input, pos, Zag(x));
  }
}
