/**
 * The chain of fixed-size chunks that all output is written to
 * (lib/nghttp2_buf.c).  A chunk is a piece of memory with a read position and a
 * write position; a position in it is an offset from its beginning.
 */
module Bufs {
  import opened Bytes

  datatype Error = BufferError | HeaderComp | InvalidState | InsuffBufsize | FrameSizeError | CallbackFailure

  datatype Status = Ok | Fail(error: Error)

  /** One chunk: `mem[pos..last]` is filled, `mem[last..]` is free. */
  datatype Chunk = Chunk(mem: seq<Byte>, pos: nat, last: nat)
  {
    predicate Valid() { pos <= last <= |mem| }

    function Data(): seq<Byte>
      requires Valid()
    {
      mem[pos..last]
    }

    function Avail(): nat
      requires Valid()
    {
      |mem| - last
    }
  }

  /** All filled bytes of a chain, chunk after chunk. */
  function Flatten(chunks: seq<Chunk>): seq<Byte>
    requires forall c | c in chunks :: c.Valid()
  {
    if chunks == [] then [] else Flatten(chunks[..|chunks| - 1]) + chunks[|chunks| - 1].Data()
  }

  lemma {:induction false} FlattenConcat(a: seq<Chunk>, b: seq<Chunk>)
    requires forall c | c in a + b :: c.Valid()
    ensures forall c | c in a || c in b :: c.Valid()
    ensures Flatten(a + b) == Flatten(a) + Flatten(b)
    decreases |b|
  {
    forall c | c in a || c in b ensures c.Valid() { assert c in a + b; }
    if b == [] {
      assert a + b == a;
    } else {
      assert (a + b)[..|a + b| - 1] == a + b[..|b| - 1];
      FlattenConcat(a, b[..|b| - 1]);
    }
  }

  lemma {:induction false} FlattenEmpty(chunks: seq<Chunk>)
    requires forall c | c in chunks :: c.Valid() && c.pos == c.last
    ensures Flatten(chunks) == []
    decreases |chunks|
  {
    if chunks != [] {
      FlattenEmpty(chunks[..|chunks| - 1]);
    }
  }

  /** Appending to chunk `k` appends to the chain if nothing is stored behind `k`. */
  lemma FlattenAppend(chunks: seq<Chunk>, k: nat, c: Chunk, x: seq<Byte>)
    requires k < |chunks| && (forall d | d in chunks :: d.Valid()) && c.Valid()
    requires forall i | k < i < |chunks| :: chunks[i].pos == chunks[i].last
    requires c.Data() == chunks[k].Data() + x
    ensures forall d | d in chunks[k := c] :: d.Valid()
    ensures Flatten(chunks[k := c]) == Flatten(chunks) + x
  {
    var before, after := chunks[..k], chunks[k + 1..];
    FlattenSplit(chunks, k);
    FlattenEmpty(after);
    var changed := chunks[k := c];
    assert changed[..k] == before && changed[k + 1..] == after;
    FlattenSplit(changed, k);
  }

  lemma FlattenSplit(chunks: seq<Chunk>, k: nat)
    requires k < |chunks| && forall d | d in chunks :: d.Valid()
    ensures Flatten(chunks) == Flatten(chunks[..k]) + chunks[k].Data() + Flatten(chunks[k + 1..])
  {
    var upto, after := chunks[..k + 1], chunks[k + 1..];
    assert chunks == upto + after;
    FlattenConcat(upto, after);
    assert upto[..k] == chunks[..k];
  }

  lemma FlattenFirst(chunks: seq<Chunk>)
    requires chunks != [] && forall c | c in chunks :: c.Valid()
    ensures Flatten(chunks) == chunks[0].Data() + Flatten(chunks[1..])
  {
    var one := [chunks[0]];
    assert chunks == one + chunks[1..];
    FlattenConcat(one, chunks[1..]);
    assert one[..0] == [];
  }

  /** What writing may do to the chunks: fill from chunk `from` on, disturb nothing before. */
  predicate Grown(was: seq<Chunk>, from: nat, now: seq<Chunk>, cur: nat, offset: nat)
  {
    && from < |was| <= |now| && from <= cur < |now|
    && (forall i | 0 <= i < from :: now[i] == was[i])
    && now[from].pos == was[from].pos
    && was[from].last <= now[from].last
    && |was[from].mem| == |now[from].mem| && was[from].last <= |was[from].mem|
    && now[from].mem[..was[from].last] == was[from].mem[..was[from].last]
    && (forall i | from < i < |now| :: now[i].pos == offset)
  }

  lemma GrownTransitive(a: seq<Chunk>, i: nat, b: seq<Chunk>, j: nat, c: seq<Chunk>, k: nat, offset: nat)
    requires Grown(a, i, b, j, offset) && Grown(b, j, c, k, offset)
    ensures Grown(a, i, c, k, offset)
  {
    if i == j {
      assert c[i].mem[..a[i].last] == c[i].mem[..b[i].last][..a[i].last];
      assert b[i].mem[..a[i].last] == b[i].mem[..b[i].last][..a[i].last];
    }
  }

  class BufChain {
    const chunkLength: nat
    const maxChunk: nat
    const chunkKeep: nat
    const offset: nat
    /** The chunks in chain order; their number is the source's chunk_used. */
    var chunks: seq<Chunk>
    /** Position of the chunk being written. */
    var cur: nat

    ghost predicate Valid()
      reads this
    {
      && 1 <= chunkKeep <= maxChunk && offset <= chunkLength
      && cur < |chunks| <= maxChunk
      && (forall c | c in chunks :: c.Valid() && |c.mem| == chunkLength)
      && (forall i | cur < i < |chunks| :: chunks[i].pos == chunks[i].last == offset)
    }

    ghost function Contents(): seq<Byte>
      requires Valid()
      reads this
    {
      Flatten(chunks)
    }

    function CurAvail(): nat
      requires Valid()
      reads this
    {
      chunks[cur].Avail()
    }

    /** The source's bufs_avail. */
    function Room(): nat
      requires Valid()
      reads this
    {
      chunks[cur].Avail() + (chunkLength - offset) * (maxChunk - |chunks|)
    }

    /** No chunk is kept behind the one being written. */
    ghost predicate AtEnd()
      reads this
    {
      cur + 1 == |chunks|
    }

    /** Every chunk before the last is full: no byte of the chain is wasted. */
    ghost predicate Packed()
      requires Valid()
      reads this
    {
      AtEnd() && (forall i | 0 <= i < |chunks| :: chunks[i].pos == offset) &&
      forall i | 0 <= i < cur :: chunks[i].last == chunkLength
    }

    constructor (chunkLength: nat, maxChunk: nat, chunkKeep: nat, offset: nat)
      requires 1 <= chunkKeep <= maxChunk && offset <= chunkLength
      ensures Valid() && Contents() == [] && Packed() && cur == 0 && |chunks| == 1
      ensures this.chunkLength == chunkLength && this.maxChunk == maxChunk
      ensures this.chunkKeep == chunkKeep && this.offset == offset
      ensures chunks[0].pos == chunks[0].last == offset
    {
      this.chunkLength := chunkLength;
      this.maxChunk := maxChunk;
      this.chunkKeep := chunkKeep;
      this.offset := offset;
      this.chunks := [FreshChunk(chunkLength, offset)];
      this.cur := 0;
      new;
      FlattenEmpty(chunks);
    }

    /** Moves to the next chunk, allocating it if there is none yet. */
    method AllocChain() returns (r: Status)
      requires Valid()
      modifies this
      ensures Valid() && Contents() == old(Contents())
      ensures r == if old(cur) + 1 == |old(chunks)| == maxChunk then Fail(BufferError) else Ok
      ensures r.Fail? ==> chunks == old(chunks) && cur == old(cur)
      ensures r.Ok? ==> cur == old(cur) + 1 && CurAvail() == chunkLength - offset
      ensures r.Ok? ==> chunks[cur].pos == chunks[cur].last == offset
      ensures Grown(old(chunks), old(cur), chunks, cur, offset)
      ensures old(AtEnd()) ==> AtEnd()
      ensures |chunks| == if r.Ok? && old(AtEnd()) then |old(chunks)| + 1 else |old(chunks)|
      ensures forall i | 0 <= i < |old(chunks)| :: chunks[i] == old(chunks)[i]
    {
      if cur + 1 < |chunks| {
        cur := cur + 1;
        return Ok;
      }
      if maxChunk == |chunks| {
        return Fail(BufferError);
      }
      var next := FreshChunk(chunkLength, offset);
      FlattenConcat(chunks, [next]);
      FlattenEmpty([next]);
      chunks := chunks + [next];
      cur := cur + 1;
      return Ok;
    }

    /** Appends `x` to the current chunk, which has room for it. */
    method WriteCur(x: seq<Byte>)
      requires Valid() && |x| <= CurAvail()
      modifies this`chunks
      ensures Valid() && Contents() == old(Contents()) + x
      ensures |chunks| == |old(chunks)|
      ensures chunks == old(chunks)[cur := Filled(old(chunks)[cur], x)]
      ensures CurAvail() == old(CurAvail()) - |x| && Room() == old(Room()) - |x|
      ensures Grown(old(chunks), cur, chunks, cur, offset)
    {
      var c := Filled(chunks[cur], x);
      FlattenAppend(chunks, cur, c, x);
      chunks := chunks[cur := c];
    }

    /** One round of copying: fills the current chunk, or moves on if it is full. */
    method AddSome(data: seq<Byte>) returns (n: nat)
      requires Valid() && 0 < |data| <= Room()
      modifies this
      ensures Valid() && n <= |data| && Contents() == old(Contents()) + data[..n]
      ensures n == 0 ==> old(CurAvail()) == 0 && CurAvail() > 0
      ensures Room() >= old(Room()) - n
      ensures Grown(old(chunks), old(cur), chunks, cur, offset)
      ensures old(AtEnd()) ==> AtEnd() && Room() == old(Room()) - n
      ensures old(Packed()) ==> Packed()
    {
      n := Min(CurAvail(), |data|);
      if n == 0 {
        NextChunkHasRoom(chunkLength - offset, maxChunk - |chunks|);
        var _ := AllocChain();
      } else {
        WriteCur(data[..n]);
      }
    }

    /** Appends `data` if the room the chain reports suffices, otherwise changes nothing. */
    method Add(data: seq<Byte>) returns (r: Status)
      requires Valid()
      modifies this
      ensures Valid()
      ensures r == if old(Room()) < |data| then Fail(BufferError) else Ok
      ensures r.Fail? ==> chunks == old(chunks) && cur == old(cur)
      ensures r.Ok? ==> Contents() == old(Contents()) + data
      ensures Grown(old(chunks), old(cur), chunks, cur, offset)
      ensures old(AtEnd()) ==> AtEnd() && (r.Ok? ==> Room() == old(Room()) - |data|)
      ensures old(Packed()) ==> Packed()
    {
      if Room() < |data| {
        return Fail(BufferError);
      }
      var i := 0;
      while i < |data|
        invariant Valid() && i <= |data|
        invariant Contents() == old(Contents()) + data[..i]
        invariant Room() >= old(Room()) - i
        invariant old(AtEnd()) ==> AtEnd() && Room() == old(Room()) - i
        invariant Grown(old(chunks), old(cur), chunks, cur, offset)
        invariant old(Packed()) ==> Packed()
        decreases |data| - i, if CurAvail() == 0 then 1 else 0
      {
        ghost var before, at := chunks, cur;
        var n := AddSome(data[i..]);
        GrownTransitive(old(chunks), old(cur), before, at, chunks, cur, offset);
        assert data[..i] + data[i..][..n] == data[..i + n];
        i := i + n;
      }
      assert data[..i] == data;
      return Ok;
    }

    /** Makes sure the current chunk has a free byte. */
    method EnsureAddB() returns (r: Status)
      requires Valid() && (maxChunk == 1 || offset < chunkLength)
      modifies this
      ensures Valid() && Contents() == old(Contents())
      ensures r.Ok? ==> CurAvail() > 0
      ensures r.Fail? ==> Room() == 0
      ensures r == if old(CurAvail()) == 0 && old(cur) + 1 == |old(chunks)| == maxChunk then Fail(BufferError) else Ok
      ensures r.Fail? || old(CurAvail()) > 0 ==> chunks == old(chunks) && cur == old(cur)
      ensures Grown(old(chunks), old(cur), chunks, cur, offset)
      ensures old(AtEnd()) ==> AtEnd() && Room() == old(Room())
      ensures old(Packed()) ==> Packed()
    {
      if CurAvail() > 0 {
        return Ok;
      }
      NextChunkHasRoom(chunkLength - offset, maxChunk - |chunks|);
      r := AllocChain();
    }

    method AddB(b: Byte) returns (r: Status)
      requires Valid() && (maxChunk == 1 || offset < chunkLength)
      modifies this
      ensures Valid()
      ensures r == if old(CurAvail()) == 0 && old(cur) + 1 == |old(chunks)| == maxChunk then Fail(BufferError) else Ok
      ensures r.Ok? ==> Contents() == old(Contents()) + [b]
      ensures r.Fail? ==> chunks == old(chunks) && cur == old(cur)
      ensures old(CurAvail()) > 0 ==> CurAvail() == old(CurAvail()) - 1
      ensures Grown(old(chunks), old(cur), chunks, cur, offset)
      ensures old(AtEnd()) ==> AtEnd() && (r.Ok? ==> Room() == old(Room()) - 1) && (r.Fail? ==> old(Room()) == 0)
      ensures old(Packed()) ==> Packed()
    {
      r := EnsureAddB();
      if r.Ok? {
        ghost var before, at := chunks, cur;
        WriteCur([b]);
        GrownTransitive(old(chunks), old(cur), before, at, chunks, cur, offset);
      }
    }

    /** The byte at the write position, not yet counted as stored. */
    function Held(): Byte
      requires Valid() && CurAvail() > 0
      reads this
    {
      chunks[cur].mem[chunks[cur].last]
    }

    /** Stores `b` at the write position without advancing. */
    method Hold(b: Byte)
      requires Valid() && CurAvail() > 0
      modifies this`chunks
      ensures Valid() && Contents() == old(Contents()) && CurAvail() == old(CurAvail()) && Held() == b
      ensures |chunks| == |old(chunks)| && Grown(old(chunks), cur, chunks, cur, offset)
    {
      var c := chunks[cur];
      var d := c.(mem := c.mem[c.last := b]);
      assert d.Data() == c.Data() + [];
      FlattenAppend(chunks, cur, d, []);
      chunks := chunks[cur := d];
    }

    /** Counts the held byte as stored. */
    method Commit()
      requires Valid() && CurAvail() > 0
      modifies this`chunks
      ensures Valid() && Contents() == old(Contents()) + [old(Held())] && CurAvail() == old(CurAvail()) - 1
      ensures |chunks| == |old(chunks)| && Grown(old(chunks), cur, chunks, cur, offset)
    {
      WriteCur([Held()]);
    }

    /** Copies everything stored out of the chain. */
    method Remove() returns (out: seq<Byte>)
      requires Valid()
      ensures out == Contents()
    {
      out := [];
      var i := 0;
      while i < |chunks|
        invariant i <= |chunks| && out == Flatten(chunks[..i])
      {
        assert chunks[..i + 1][..i] == chunks[..i];
        out := out + chunks[i].Data();
        i := i + 1;
      }
      assert chunks[..i] == chunks;
    }

    /** Number of bytes stored. */
    method Len() returns (n: nat)
      requires Valid()
      ensures n == |Contents()|
    {
      n := 0;
      var i := 0;
      while i < |chunks|
        invariant i <= |chunks| && n == |Flatten(chunks[..i])|
      {
        assert chunks[..i + 1][..i] == chunks[..i];
        n := n + |chunks[i].Data()|;
        i := i + 1;
      }
      assert chunks[..i] == chunks;
    }

    /** Empties the chain, keeping at most `chunkKeep` chunks. */
    method Reset()
      requires Valid()
      modifies this
      ensures Valid() && Contents() == [] && cur == 0
      ensures |chunks| == Min(|old(chunks)|, chunkKeep)
      ensures chunkKeep == 1 ==> Packed() && Room() == (chunkLength - offset) * maxChunk
    {
      var n := Min(|chunks|, chunkKeep);
      var i := 0;
      while i < n
        invariant 0 <= i <= n <= |chunks| == |old(chunks)|
        invariant forall c | c in chunks :: c.Valid() && |c.mem| == chunkLength
        invariant forall k | 0 <= k < i :: chunks[k].pos == chunks[k].last == offset
      {
        chunks := chunks[i := chunks[i].(pos := offset, last := offset)];
        i := i + 1;
      }
      chunks := chunks[..n];
      cur := 0;
      FlattenEmpty(chunks);
      NextChunkHasRoom(chunkLength - offset, maxChunk);
    }
  }

  /** A packed chain has exactly the room its bytes leave of its total capacity. */
  lemma PackedRoom(b: BufChain)
    requires b.Valid() && b.Packed()
    ensures |b.Contents()| + b.Room() == (b.chunkLength - b.offset) * b.maxChunk
  {
    var size := b.chunkLength - b.offset;
    PackedLength(b.chunks, b.cur, size, b.offset);
    var n := b.cur;
    assert b.chunks[..n + 1] == b.chunks;
    assert Flatten(b.chunks) == Flatten(b.chunks[..n]) + b.chunks[n].Data();
    SplitProduct(size, n, b.maxChunk);
  }

  lemma SplitProduct(size: nat, n: nat, m: nat)
    requires n < m
    ensures size * m == size * n + size + size * (m - n - 1)
  {}

  lemma {:induction false} PackedLength(chunks: seq<Chunk>, n: nat, size: nat, offset: nat)
    requires n <= |chunks| && forall c | c in chunks :: c.Valid() && |c.mem| == offset + size
    requires forall i | 0 <= i < n :: chunks[i].pos == offset && chunks[i].last == offset + size
    ensures |Flatten(chunks[..n])| == size * n
    decreases n
  {
    if n > 0 {
      PackedLength(chunks, n - 1, size, offset);
      assert chunks[..n][..n - 1] == chunks[..n - 1];
    }
  }

  lemma NextChunkHasRoom(size: nat, chunks: nat)
    ensures size * chunks > 0 ==> size > 0 && chunks > 0
    ensures chunks > 0 ==> size * chunks == size + size * (chunks - 1)
  {}

  /** Copies `x` to the write position. */
  function Filled(c: Chunk, x: seq<Byte>): (d: Chunk)
    requires c.Valid() && |x| <= c.Avail()
    ensures d.Valid() && |d.mem| == |c.mem| && d.pos == c.pos && d.last == c.last + |x|
    ensures d.Data() == c.Data() + x && d.mem[..c.last] == c.mem[..c.last]
  {
    Chunk(c.mem[..c.last] + x + c.mem[c.last + |x|..], c.pos, c.last + |x|)
  }

  function FreshChunk(chunkLength: nat, offset: nat): (c: Chunk)
    requires offset <= chunkLength
    ensures c.Valid() && |c.mem| == chunkLength && c.pos == c.last == offset
  {
    Chunk(seq(chunkLength, _ => 0), offset, offset)
  }
}
