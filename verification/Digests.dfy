/** Streaming input into a hash with two reused buffers
    (dolang-ext-digest/src/digest.rs, `Chunk`, `Source::fill` and `absorb`). */
module Digests {

  import opened Results
  import opened Varint

  const CHUNK_SIZE: nat := 512 * 1024

  /** How a read goes: some bytes, at most as many as asked for, or an error. */
  datatype Step = Short(n: nat) | Failure

  /** How many bytes a read takes of those that are left, given how it is to go. */
  function Taken(steps: seq<Step>, capacity: nat, left: nat): nat {
    var most := if left < capacity then left else capacity;
    if steps != [] && steps[0].Short? && 0 < steps[0].n < most then steps[0].n else most
  }

  /** The bytes to hash: held in memory, or read from a handle whose reads may be short or
      fail. Out of steps, reads are as long as they can be. */
  class Source {
    const inMemory: bool
    const data: seq<byte>
    var pos: nat
    var steps: seq<Step>

    constructor (inMemory: bool, data: seq<byte>, steps: seq<Step>)
      ensures this.inMemory == inMemory && this.data == data && this.steps == steps && pos == 0 && Valid()
    {
      this.inMemory, this.data, this.steps, pos := inMemory, data, steps, 0;
    }

    ghost predicate Valid()
      reads this
    {
      pos <= |data|
    }

    // Copies the next bytes into `buf` from `from` on.
    method CopyOut(buf: array<byte>, from: nat, count: nat)
      requires Valid() && from + count <= buf.Length && pos + count <= |data|
      modifies this`pos, buf
      ensures Valid() && pos == old(pos) + count
      ensures buf[from..from + count] == data[old(pos)..pos]
      ensures buf[..from] == old(buf[..from])
    {
      var k := 0;
      while k < count
        invariant k <= count && pos == old(pos)
        invariant buf[..from] == old(buf[..from])
        invariant buf[from..from + k] == data[pos..pos + k]
      {
        buf[from + k] := data[pos + k];
        assert data[pos..pos + k + 1] == data[pos..pos + k] + [data[pos + k]];
        k := k + 1;
      }
      pos := pos + count;
    }

    // Reads into `buf` from `from` on; `None` on failure.
    method Read(buf: array<byte>, from: nat) returns (n: Option<nat>)
      requires Valid() && from < buf.Length
      modifies this`pos, this`steps, buf
      ensures Valid() && old(pos) <= pos
      ensures n == None <==> old(steps) != [] && old(steps)[0].Failure?
      ensures n == None ==> pos == old(pos)
      ensures n.Some? ==>
                && pos == old(pos) + n.value && from + n.value <= buf.Length
                && n.value == Taken(old(steps), buf.Length - from, |data| - old(pos))
                && buf[from..from + n.value] == data[old(pos)..pos]
      ensures buf[..from] == old(buf[..from])
      ensures steps == if old(steps) == [] then [] else old(steps)[1..]
    {
      var going := steps;
      if steps != [] {
        steps := steps[1..];
        if going[0].Failure? {
          return None;
        }
      }
      var count := Taken(going, buf.Length - from, |data| - pos);
      CopyOut(buf, from, count);
      return Some(count);
    }
  }

  /** A buffer, of which the first `len` bytes are filled. */
  class Chunk {
    const buf: array<byte>
    var len: nat

    constructor ()
      ensures Valid() && buf.Length == CHUNK_SIZE && fresh(buf) && Contents() == []
    {
      buf := new byte[CHUNK_SIZE](_ => 0);
      len := 0;
    }

    ghost predicate Valid()
      reads this
    {
      len <= buf.Length && buf.Length > 0
    }

    ghost function Contents(): (s: seq<byte>)
      requires Valid()
      reads this, buf
    {
      buf[..len]
    }

    method Bytes() returns (s: seq<byte>)
      requires Valid()
      ensures s == Contents()
    {
      s := buf[..len];
    }
  }

  /** The end of the whole chunks among the first bytes of the input. */
  function WholeChunks(pos: nat): (r: nat)
    ensures r <= pos
  {
    if pos < CHUNK_SIZE then 0 else CHUNK_SIZE + WholeChunks(pos - CHUNK_SIZE)
  }

  lemma {:induction false} ChunksDone(start: nat, pos: nat)
    requires WholeChunks(start) == start && start <= pos < start + CHUNK_SIZE
    ensures WholeChunks(pos) == start
  {
    if start >= CHUNK_SIZE {
      ChunksDone(start - CHUNK_SIZE, pos - CHUNK_SIZE);
    }
  }

  // ----- filling a chunk -----

  /** Fills a chunk until it is full or the input ends; `Some(ended)`, or `None` on failure. */
  method Fill(source: Source, chunk: Chunk) returns (end: Option<bool>)
    requires source.Valid() && chunk.Valid()
    modifies source`pos, source`steps, chunk`len, chunk.buf
    ensures source.Valid() && chunk.Valid() && old(source.pos) <= source.pos
    ensures end.Some? ==>
              && chunk.Contents() == source.data[old(source.pos)..source.pos]
              && (end.value ==> source.pos == |source.data|)
              && (!end.value ==> chunk.len == chunk.buf.Length)
    ensures end == None ==>
              && source.pos < old(source.pos) + chunk.buf.Length
              && !source.inMemory && Failure in old(source.steps)
    ensures forall s :: s in source.steps ==> s in old(source.steps)
  {
    chunk.len := 0;
    if source.inMemory {
      var left := |source.data| - source.pos;
      var count := if left < chunk.buf.Length then left else chunk.buf.Length;
      source.CopyOut(chunk.buf, 0, count);
      chunk.len := count;
      return Some(source.pos == |source.data|);
    }
    while chunk.len < chunk.buf.Length
      invariant source.Valid() && chunk.Valid() && old(source.pos) <= source.pos
      invariant source.pos == old(source.pos) + chunk.len
      invariant chunk.buf[..chunk.len] == source.data[old(source.pos)..source.pos]
      invariant forall s :: s in source.steps ==> s in old(source.steps)
      decreases chunk.buf.Length - chunk.len
    {
      ghost var steps := source.steps;
      ghost var pos := source.pos;
      var read := source.Read(chunk.buf, chunk.len);
      if read == None {
        assert steps[0] in steps;
        return None;
      }
      if read.value == 0 {
        return Some(true);
      }
      Joined(source.data, chunk.buf, old(source.pos), pos, chunk.len, read.value);
      chunk.len := chunk.len + read.value;
    }
    return Some(false);
  }

  lemma Joined(data: seq<byte>, buf: array<byte>, start: nat, pos: nat, len: nat, n: nat)
    requires start <= pos && pos + n <= |data| && len == pos - start && len + n <= buf.Length
    requires buf[..len] == data[start..pos] && buf[len..len + n] == data[pos..pos + n]
    ensures buf[..len + n] == data[start..pos + n]
  {
    assert buf[..len + n] == buf[..len] + buf[len..len + n];
    assert data[start..pos + n] == data[start..pos] + data[pos..pos + n];
  }

  // ----- absorbing -----

  /** A hash, as the bytes it has absorbed. */
  class Hasher {
    var absorbed: seq<byte>

    constructor ()
      ensures absorbed == []
    {
      absorbed := [];
    }

    method Absorb(bytes: seq<byte>)
      modifies this
      ensures absorbed == old(absorbed) + bytes
    {
      absorbed := absorbed + bytes;
    }
  }

  ghost predicate Apart(a: Chunk, b: Chunk) {
    && a != b && a.buf != b.buf
  }

  /** Absorbs a whole source, chunk by chunk, filling one buffer while the other is hashed.
      On success the hash has absorbed exactly the source's bytes, and after a failed read
      exactly the chunks that were filled before it. */
  method Absorb(hasher: Hasher, source: Source) returns (ok: bool)
    requires source.Valid() && source.pos == 0
    modifies hasher, source
    ensures source.Valid()
    ensures ok ==> hasher.absorbed == old(hasher.absorbed) + source.data
    ensures !ok ==>
              && hasher.absorbed == old(hasher.absorbed) + source.data[..WholeChunks(source.pos)]
              && !source.inMemory && Failure in old(source.steps)
  {
    if source.inMemory && |source.data| <= CHUNK_SIZE {
      hasher.Absorb(source.data);
      return true;
    }
    var chunk := new Chunk();
    var first := Fill(source, chunk);
    if first == None {
      ChunksDone(0, source.pos);
      assert source.data[..0] == [];
      return false;
    }
    if first.value {
      var bytes := chunk.Bytes();
      hasher.Absorb(bytes);
      assert source.data[0..source.pos] == source.data;
      return true;
    }
    var next := new Chunk();
    ok := AbsorbRest(hasher, source, chunk, next);
  }

  // Hashes one chunk while the other is filled, and swaps them, until the source ends.
  method AbsorbRest(hasher: Hasher, source: Source, chunk0: Chunk, next0: Chunk) returns (ok: bool)
    requires source.Valid() && chunk0.Valid() && next0.Valid() && Apart(chunk0, next0)
    requires chunk0.buf.Length == next0.buf.Length == CHUNK_SIZE == chunk0.len == source.pos
    requires chunk0.Contents() == source.data[..source.pos]
    modifies hasher, source, chunk0, next0, chunk0.buf, next0.buf
    ensures source.Valid()
    ensures ok ==> hasher.absorbed == old(hasher.absorbed) + source.data
    ensures !ok ==>
              && hasher.absorbed == old(hasher.absorbed) + source.data[..WholeChunks(source.pos)]
              && !source.inMemory && Failure in old(source.steps)
  {
    var chunk, next := chunk0, next0;
    var end := false;
    ghost var done: nat := 0;
    while true
      invariant (chunk == chunk0 && next == next0) || (chunk == next0 && next == chunk0)
      invariant source.Valid() && chunk.Valid() && next.Valid() && Apart(chunk, next)
      invariant chunk.buf.Length == next.buf.Length == CHUNK_SIZE
      invariant done <= source.pos && WholeChunks(done) == done
      invariant chunk.Contents() == source.data[done..source.pos]
      invariant if end then source.pos == |source.data| else source.pos == done + CHUNK_SIZE
      invariant hasher.absorbed == old(hasher.absorbed) + source.data[..done]
      invariant forall s :: s in source.steps ==> s in old(source.steps)
      decreases !end, |source.data| - source.pos
    {
      var bytes := chunk.Bytes();
      hasher.Absorb(bytes);
      Extends(old(hasher.absorbed), source.data, done, source.pos);
      if end {
        assert source.data[..source.pos] == source.data;
        return true;
      }
      done := source.pos;
      var read := Fill(source, next);
      if read == None {
        ChunksDone(done, source.pos);
        return false;
      }
      end := read.value;
      chunk, next := next, chunk;
      if chunk.len == 0 {
        assert source.data[..source.pos] == source.data;
        return true;
      }
    }
  }

  lemma Extends(before: seq<byte>, data: seq<byte>, from: nat, to: nat)
    requires from <= to <= |data|
    ensures before + data[..from] + data[from..to] == before + data[..to]
  {
    assert data[..from] + data[from..to] == data[..to];
  }
}
