/**
 * The Huffman encoder and decoder as they run (lib/nghttp2_hd_huffman.c): codes
 * are OR-ed bit by bit into the byte at the write position of a chunk chain, and
 * octets are decoded by two table accesses each.
 */
module HuffmanCodec {
  import opened Bytes
  import opened Bufs
  import opened HuffmanTree
  import opened HuffmanTable
  import opened HuffmanCode
  import opened HuffmanRoom

  // -------------------------------------------------------------- bit placing

  lemma OrOctets(a: Byte, b: nat)
    ensures BitsOf(8, Or(a, b)) == OrBits(BitsOf(8, a), BitsOf(8, b))
  {
    BitsOfValue(OrBits(BitsOf(8, a), BitsOf(8, b)));
  }

  /** `done` then the held octet `h` are the bits so far and `rembits` free places. */
  predicate Open(done: Bits, h: Bits, bits: Bits, rembits: nat)
  {
    1 <= rembits <= |h| && done + h == bits + Zeros(rembits)
  }

  /** Placing bits into the free places of an octet keeps its head. */
  lemma PlaceBits(done: Bits, h: Bits, bits: Bits, rembits: nat, w: Bits)
    requires Open(done, h, bits, rembits) && |w| == rembits
    ensures done + OrBits(h, Zeros(|h| - rembits) + w) == bits + w
  {
    var g := OrBits(h, Zeros(|h| - rembits) + w);
    var n := |bits|;
    forall i | 0 <= i < |done + g| ensures (done + g)[i] == (bits + w)[i] {
      assert (done + h)[i] == (bits + Zeros(rembits))[i];
      if |done| <= i {
        assert (done + h)[i] == h[i - |done|];
      }
    }
    assert done + g == bits + w;
  }

  /** A code moved left so that `free` places stay empty behind it. */
  lemma ShiftedLeft(n: nat, p: Bits, free: nat)
    requires |p| + free <= n
    ensures BitsOf(n, Shl(Value(p), free)) == Zeros(n - |p| - free) + (p + Zeros(free))
  {
    BitsOfValue(p);
    ShiftLeftBits(|p|, free, Value(p));
    ShlSmall(Value(p), |p|, free);
    SmallBits(n - |p| - free, |p| + free, Shl(Value(p), free));
  }

  /** The first bits of a code, moved right. */
  lemma ShiftedRight(n: nat, p: Bits, first: nat)
    requires first <= |p| && first <= n
    ensures BitsOf(n, Shr(Value(p), |p| - first)) == Zeros(n - first) + p[..first]
  {
    BitsOfValue(p);
    BitsOfSplit(first, |p| - first, Value(p));
    ShrSmall(Value(p), first, |p| - first);
    SmallBits(n - first, first, Shr(Value(p), |p| - first));
  }

  /** Number of zero bits appended so that `m` bits end on an octet boundary. */
  function AlignBits(m: nat): (a: nat)
    ensures a < 8 && (m + a) % 8 == 0
  {
    (8 - m % 8) % 8
  }

  /** The rest of a code, aligned to the most significant bit of its first octet. */
  function Aligned(code: nat, m: nat): nat { Shl(code, AlignBits(m)) % 0x100000000 }

  lemma AlignedBits(p: Bits, m: nat, a: nat)
    requires m <= |p| && m + a <= 32 && a == AlignBits(m)
    ensures BitsOf(m + a, Aligned(Value(p), m)) == p[|p| - m..] + Zeros(a)
  {
    LastBits(p, m);
    ShiftLeftBits(m, a, Value(p));
    Low32Bits(m + a, Shl(Value(p), a));
  }

  lemma LastBits(p: Bits, m: nat)
    requires m <= |p|
    ensures BitsOf(m, Value(p)) == p[|p| - m..]
  {
    BitsOfValue(p);
    BitsOfSplit(|p| - m, m, Value(p));
  }

  // ------------------------------------------------------------------ encoder

  /** After the first chunk every chunk can take the rest of any code. */
  ghost predicate Roomy(b: BufChain) { b.maxChunk == 1 || b.chunkLength - b.offset >= 4 }

  /** `bits` are stored behind `base`, ending on an octet boundary. */
  ghost predicate Closed(b: BufChain, base: seq<Byte>, bits: Bits)
    reads b
  {
    b.Valid() && base <= b.Contents() && BytesToBits(b.Contents()[|base|..]) == bits
  }

  /** `bits` are stored behind `base`, the last of them in the held octet. */
  ghost predicate Writing(b: BufChain, base: seq<Byte>, bits: Bits, rembits: nat)
    reads b
  {
    && b.Valid() && b.CurAvail() > 0 && base <= b.Contents()
    && Open(BytesToBits(b.Contents()[|base|..]), BitsOf(8, b.Held()), bits, rembits)
  }

  /** The chain before the first octet of a code's rest was stored. */
  datatype Start = Start(base: seq<Byte>, avail: nat, chunks: seq<Chunk>)

  /** The octets of `code`, most significant first. */
  predicate OctetsOf(all: seq<Byte>, code: nat, nbits: nat)
  {
    |all| == (nbits + 7) / 8 && forall i | 0 <= i < |all| :: all[i] == Shr(code, 8 * (|all| - 1 - i)) % 256
  }

  /** Whole octets of `all` are stored, `n` of its `nbits` bits are left. */
  ghost predicate Progress(b: BufChain, all: seq<Byte>, n: nat, nbits: nat, start: Start)
    reads b
  {
    && b.Valid() && n <= nbits && (nbits - n) % 8 == 0 && (nbits - n) / 8 <= |all|
    && b.Contents() == start.base + all[..(nbits - n) / 8]
    && b.CurAvail() == start.avail - (nbits - n) / 8
    && |start.chunks| == |b.chunks| && Grown(start.chunks, b.cur, b.chunks, b.cur, b.offset)
  }

  /** All of `nbits` bits are stored; a broken last octet is held. */
  ghost predicate Stored(b: BufChain, all: seq<Byte>, nbits: nat, start: Start)
    reads b
  {
    && Progress(b, all, nbits % 8, nbits, start)
    && (nbits % 8 != 0 ==> b.CurAvail() > 0 && nbits / 8 < |all| && b.Held() == all[nbits / 8])
  }

  /** Stores the `nbits` leading bits of the aligned `code`. */
  method WriteRest(b: BufChain, code: nat, nbits: nat, ghost start: Start, ghost all: seq<Byte>) returns (rembits: nat)
    requires b.Valid() && 1 <= nbits <= 32 && (nbits + 7) / 8 <= b.CurAvail() && OctetsOf(all, code, nbits)
    requires start == Start(b.Contents(), b.CurAvail(), b.chunks)
    modifies b`chunks
    ensures rembits == 8 - nbits % 8 && Stored(b, all, nbits, start)
  {
    if nbits < 8 {
      assert all[0] == Shr(code, 0) % 256;
      b.Hold(code % 256);
      rembits := 8 - nbits;
    } else {
      var n := WriteAbove(b, code, 24, nbits, nbits, start, all);
      n := WriteAbove(b, code, 16, n, nbits, start, all);
      n := WriteAbove(b, code, 8, n, nbits, start, all);
      rembits := WriteLast(b, code, n, nbits, start, all);
    }
  }

  method WriteLast(b: BufChain, code: nat, n: nat, ghost nbits: nat, ghost start: Start, ghost all: seq<Byte>)
    returns (rembits: nat)
    requires 1 <= n <= 8 && n <= nbits <= 32 && Progress(b, all, n, nbits, start) && b.CurAvail() > 0
    requires OctetsOf(all, code, nbits)
    modifies b`chunks
    ensures rembits == 8 - nbits % 8 && Stored(b, all, nbits, start)
  {
    if n == 8 {
      WriteOctet(b, code, 0, n, nbits, start, all);
      rembits := 8;
    } else {
      ghost var before := b.chunks;
      assert all[nbits / 8] == Shr(code, 0) % 256;
      b.Hold(code % 256);
      GrownTransitive(start.chunks, b.cur, before, b.cur, b.chunks, b.cur, b.offset);
      rembits := 8 - n;
    }
  }

  /** Stores one octet if more than `shift` bits are left. */
  method WriteAbove(b: BufChain, code: nat, shift: nat, n: nat, ghost nbits: nat, ghost start: Start, ghost all: seq<Byte>)
    returns (left: nat)
    requires 1 <= n <= nbits <= 32 && Progress(b, all, n, nbits, start) && (nbits + 7) / 8 <= start.avail
    requires 8 <= shift && shift % 8 == 0 && n <= shift + 8 && OctetsOf(all, code, nbits)
    modifies b`chunks
    ensures left == (if n > shift then n - 8 else n) && Progress(b, all, left, nbits, start)
  {
    left := n;
    if n > shift {
      WriteOctet(b, code, shift, n, nbits, start, all);
      left := n - 8;
    }
  }

  method WriteOctet(b: BufChain, code: nat, shift: nat, n: nat, ghost nbits: nat, ghost start: Start, ghost all: seq<Byte>)
    requires 8 <= n <= nbits <= 32 && Progress(b, all, n, nbits, start) && b.CurAvail() > 0 && OctetsOf(all, code, nbits)
    requires shift < n <= shift + 8 && shift % 8 == 0
    modifies b`chunks
    ensures Progress(b, all, n - 8, nbits, start)
  {
    ghost var before := b.chunks;
    NextOctet(code, shift, n, nbits, all);
    b.WriteCur([Shr(code, shift) % 256]);
    GrownTransitive(start.chunks, b.cur, before, b.cur, b.chunks, b.cur, b.offset);
  }

  /** The octet that comes next when `n` of `nbits` bits are left. */
  lemma NextOctet(code: nat, shift: nat, n: nat, nbits: nat, all: seq<Byte>)
    requires 8 <= n <= nbits <= 32 && shift < n <= shift + 8 && shift % 8 == 0 && (nbits - n) % 8 == 0
    requires OctetsOf(all, code, nbits)
    ensures
      var i := (nbits - n) / 8;
      && (nbits - (n - 8)) / 8 == i + 1 <= |all| && all[..i + 1] == all[..i] + [Shr(code, shift) % 256]
  {
    var i := (nbits - n) / 8;
    assert 8 * (|all| - 1 - i) == shift;
    assert all[..i] + [all[i]] == all[..i + 1];
  }

  /** The octets of an aligned rest read as that rest and zero bits. */
  lemma RestBits(p: Bits, m: nat, k: nat)
    requires m <= |p| <= 30 && 8 * k == m + AlignBits(m)
    ensures BytesToBits(BigEndian(k, Aligned(Value(p), m))) == p[|p| - m..] + Zeros(AlignBits(m))
  {
    AlignedBits(p, m, AlignBits(m));
    BigEndianBits(k, Aligned(Value(p), m));
  }

  lemma LastOctetApart(s: seq<Byte>, f: nat)
    requires |s| == f + 1
    ensures BytesToBits(s) == BytesToBits(s[..f]) + BitsOf(8, s[f])
  {
    assert s == s[..f] + [s[f]];
    BytesToBitsConcat(s[..f], [s[f]]);
    OneOctetBits(s[f]);
  }

  /** The first bits of a code complete the held octet. */
  lemma FirstBitsPlaced(done: seq<Byte>, h: Byte, bits: Bits, rembits: nat, p: Bits)
    requires Open(BytesToBits(done), BitsOf(8, h), bits, rembits) && rembits <= |p|
    ensures BytesToBits(done + [Or(h, Shr(Value(p), |p| - rembits))]) == bits + p[..rembits]
  {
    var v := Shr(Value(p), |p| - rembits);
    ShiftedRight(8, p, rembits);
    OctetPlaced(done, h, bits, rembits, v, p[..rembits]);
  }

  lemma OctetPlaced(done: seq<Byte>, h: Byte, bits: Bits, rembits: nat, v: nat, w: Bits)
    requires Open(BytesToBits(done), BitsOf(8, h), bits, rembits) && |w| == rembits && BitsOf(8, v) == Zeros(8 - rembits) + w
    ensures BytesToBits(done + [Or(h, v)]) == bits + w
  {
    OrOctets(h, v);
    PlaceBits(BytesToBits(done), BitsOf(8, h), bits, rembits, w);
    BytesToBitsConcat(done, [Or(h, v)]);
    OneOctetBits(Or(h, v));
  }

  /** A short code leaves places of the held octet free. */
  lemma ShortCodePlaced(done: Bits, h: Byte, bits: Bits, rembits: nat, p: Bits)
    requires Open(done, BitsOf(8, h), bits, rembits) && |p| < rembits
    ensures Open(done, BitsOf(8, Or(h, Shl(Value(p), rembits - |p|))), bits + p, rembits - |p|)
  {
    ShiftedLeft(8, p, rembits - |p|);
    SomePlaced(done, h, bits, rembits, Shl(Value(p), rembits - |p|), p, rembits - |p|);
  }

  lemma SomePlaced(done: Bits, h: Byte, bits: Bits, rembits: nat, v: nat, p: Bits, free: nat)
    requires Open(done, BitsOf(8, h), bits, rembits) && |p| + free == rembits && 0 < free
    requires BitsOf(8, v) == Zeros(8 - rembits) + (p + Zeros(free))
    ensures Open(done, BitsOf(8, Or(h, v)), bits + p, free)
  {
    OrOctets(h, v);
    PlaceBits(done, BitsOf(8, h), bits, rembits, p + Zeros(free));
    assert bits + (p + Zeros(free)) == (bits + p) + Zeros(free);
  }

  /** Whole octets of a rest, and the broken one if there is one. */
  lemma RestOctets(p: Bits, m: nat) returns (all: seq<Byte>)
    requires 1 <= m <= |p| <= 30
    ensures OctetsOf(all, Aligned(Value(p), m), m) && RestIn(all, m, p[|p| - m..])
  {
    var code, k := Aligned(Value(p), m), (m + 7) / 8;
    all := BigEndian(k, code);
    OctetCounts(m);
    forall i | 0 <= i < k ensures all[i] == Shr(code, 8 * (k - 1 - i)) % 256 { BigEndianAt(k, code, i); }
    RestBits(p, m, k);
    OctetsHoldRest(all, m, p[|p| - m..]);
  }

  /** The octets `all` hold the bits `rest`; a broken last one ends in zeros. */
  ghost predicate RestIn(all: seq<Byte>, m: nat, rest: Bits)
  {
    && |all| == (m + 7) / 8 && m / 8 <= |all|
    && (m % 8 == 0 ==> all[..m / 8] == all && BytesToBits(all) == rest)
    && (m % 8 != 0 ==>
          |all| == m / 8 + 1 && BytesToBits(all[..m / 8]) + BitsOf(8, all[m / 8]) == rest + Zeros(8 - m % 8))
  }

  lemma OctetsHoldRest(all: seq<Byte>, m: nat, rest: Bits)
    requires |all| == (m + 7) / 8 && BytesToBits(all) == rest + Zeros(AlignBits(m))
    ensures RestIn(all, m, rest)
  {
    OctetCounts(m);
    if m % 8 == 0 {
      assert rest + Zeros(0) == rest;
    } else {
      LastOctetApart(all, m / 8);
    }
  }

  lemma OctetCounts(m: nat)
    ensures 8 * ((m + 7) / 8) == m + AlignBits(m)
    ensures m % 8 == 0 ==> (m + 7) / 8 == m / 8 && AlignBits(m) == 0
    ensures m % 8 != 0 ==> (m + 7) / 8 == m / 8 + 1 && AlignBits(m) == 8 - m % 8
  {}

  lemma BehindBase(base: seq<Byte>, all: seq<Byte>, x: seq<Byte>)
    requires base <= all
    ensures base <= all + x
    ensures BytesToBits((all + x)[|base|..]) == BytesToBits(all[|base|..]) + BytesToBits(x)
  {
    assert (all + x)[|base|..] == all[|base|..] + x;
    BytesToBitsConcat(all[|base|..], x);
  }

  /** The outcome of encoding one code: its bits follow those already stored. */
  ghost predicate SymStored(b: BufChain, base: seq<Byte>, bits: Bits, rembits: nat)
    reads b
  {
    1 <= rembits <= 8 && (if rembits == 8 then Closed(b, base, bits) else Writing(b, base, bits, rembits))
  }

  /** Stored octets that hold the rest of a code follow the bits stored before. */
  lemma RestIsSym(b: BufChain, base: seq<Byte>, bits: Bits, rest: Bits, m: nat, all: seq<Byte>, start: Start)
    requires RestIn(all, m, rest) && Stored(b, all, m, start)
    requires base <= start.base && BytesToBits(start.base[|base|..]) == bits
    ensures SymStored(b, base, bits + rest, 8 - m % 8)
  {
    BehindBase(base, start.base, all[..m / 8]);
    if m % 8 != 0 {
      Reassociate(bits, BytesToBits(all[..m / 8]), BitsOf(8, all[m / 8]), rest, Zeros(8 - m % 8));
    }
  }

  lemma Reassociate(a: Bits, b: Bits, c: Bits, d: Bits, e: Bits)
    requires b + c == d + e
    ensures (a + b) + c == (a + d) + e
  {
    assert (a + b) + c == a + (b + c);
    assert (a + d) + e == a + (d + e);
  }

  /** Fills the held octet with the first bits of a code and commits it. */
  method FillOctet(b: BufChain, rembits: nat, sym: Sym, ghost base: seq<Byte>, ghost bits: Bits, ghost p: Bits)
    requires Writing(b, base, bits, rembits) && Writes(sym, p) && rembits <= |p|
    modifies b`chunks
    ensures Closed(b, base, bits + p[..rembits]) && b.CurAvail() == old(b.CurAvail()) - 1
    ensures |b.Contents()| == |old(b.Contents())| + 1
    ensures |b.chunks| == |old(b.chunks)| && Grown(old(b.chunks), b.cur, b.chunks, b.cur, b.offset)
  {
    ghost var done, h := b.Contents()[|base|..], b.Held();
    var v := Shr(sym.code, sym.nbits - rembits);
    FirstBitsPlaced(done, h, bits, rembits, p);
    b.WriteCur([Or(b.Held(), v)]);
    assert b.Contents()[|base|..] == done + [Or(h, v)];
  }

  /** What encoding may do to a chain besides storing bits. */
  twostate predicate Advanced(b: BufChain)
    reads b
  {
    && Grown(old(b.chunks), old(b.cur), b.chunks, b.cur, b.offset)
    && (old(b.AtEnd()) ==> b.AtEnd())
  }

  /** Where a chain stands: its current chunk, the chunks that may follow and the octet being written. */
  ghost function SpotOf(b: BufChain, rembits: nat): Spot
    requires b.Valid()
    reads b
  {
    Spot(b.CurAvail(), b.maxChunk - b.cur - 1, rembits)
  }

  function ChunkSize(b: BufChain): nat
    requires b.offset <= b.chunkLength
  {
    b.chunkLength - b.offset
  }

  /** `r` and the chain are as `spot` says. */
  ghost predicate CameTo(b: BufChain, r: Status, rembits: nat, spot: Option<Spot>)
    requires b.Valid()
    reads b
  {
    match spot
    case None => r == Fail(BufferError) && b.cur + 1 == |b.chunks| == b.maxChunk
    case Some(at) => r == Ok && SpotOf(b, rembits) == at
  }

  /** Moves to the next chunk unless the current one can take `need` octets. */
  method EnsureAvail(b: BufChain, avail: nat, need: nat, ghost base: seq<Byte>) returns (r: Status, newAvail: nat)
    requires b.Valid() && base <= b.Contents() && avail == b.CurAvail() && need <= 4 && Roomy(b)
    modifies b
    ensures b.Valid() && b.Contents() == old(b.Contents()) && newAvail == b.CurAvail() && Advanced(b)
    ensures r.Ok? ==> need <= newAvail
    ensures CameTo(b, r, 8, EnsureSpot(old(SpotOf(b, 8)), ChunkSize(b), need))
  {
    r, newAvail := Ok, avail;
    if avail < need {
      r := b.AllocChain();
      newAvail := b.CurAvail();
    }
  }

  method StoreRest(b: BufChain, sym: Sym, nbits: nat, ghost base: seq<Byte>, ghost bits: Bits, ghost p: Bits)
    returns (rembits: nat)
    requires Closed(b, base, bits) && Writes(sym, p) && 1 <= nbits <= |p| <= 30
    requires (nbits + 7) / 8 <= b.CurAvail()
    modifies b`chunks
    ensures b.Valid() && base <= b.Contents() && SymStored(b, base, bits + p[|p| - nbits..], rembits)
    ensures |b.chunks| == |old(b.chunks)| && Grown(old(b.chunks), b.cur, b.chunks, b.cur, b.offset)
    ensures SpotOf(b, rembits) == Behind(old(SpotOf(b, 8)), nbits)
  {
    ghost var start := Start(b.Contents(), b.CurAvail(), b.chunks);
    ghost var all := RestOctets(p, nbits);
    rembits := WriteRest(b, Aligned(sym.code, nbits), nbits, start, all);
    RestIsSym(b, base, bits, p[|p| - nbits..], nbits, all, start);
  }

  /** Stores the last `nbits` bits of a code, starting on an octet boundary. */
  method EncodeRest(b: BufChain, avail: nat, sym: Sym, nbits: nat, ghost base: seq<Byte>, ghost bits: Bits,
                    ghost p: Bits, ghost next: Bits, ghost spot: Option<Spot>)
    returns (r: Status, newAvail: nat, newRembits: nat)
    requires Closed(b, base, bits) && Writes(sym, p) && 1 <= nbits <= |p| <= 30 && next == bits + p[|p| - nbits..]
    requires avail == b.CurAvail() && Roomy(b) && spot == RestSpot(SpotOf(b, 8), ChunkSize(b), nbits)
    modifies b
    ensures b.Valid() && base <= b.Contents() && Advanced(b)
    ensures r.Ok? ==> newAvail == b.CurAvail() && SymStored(b, base, next, newRembits)
    ensures CameTo(b, r, newRembits, spot)
  {
    newRembits := 8;
    r, newAvail := EnsureAvail(b, avail, (nbits + 7) / 8, base);
    if r.Ok? {
      ghost var before, at := b.chunks, b.cur;
      newRembits := StoreRest(b, sym, nbits, base, bits, p);
      GrownTransitive(old(b.chunks), old(b.cur), before, at, b.chunks, b.cur, b.offset);
      newAvail := b.CurAvail();
    }
  }

  /** Stores a code that leaves places of the held octet free. */
  method EncodeShort(b: BufChain, rembits: nat, sym: Sym, ghost base: seq<Byte>, ghost bits: Bits, ghost p: Bits)
    requires Writing(b, base, bits, rembits) && Writes(sym, p) && |p| < rembits
    modifies b`chunks
    ensures Writing(b, base, bits + p, rembits - |p|) && b.CurAvail() == old(b.CurAvail())
    ensures b.Contents() == old(b.Contents()) && Advanced(b)
  {
    ShortCodePlaced(BytesToBits(b.Contents()[|base|..]), b.Held(), bits, rembits, p);
    b.Hold(Or(b.Held(), Shl(sym.code, rembits - sym.nbits)));
  }

  /** Stores a code of more bits than the held octet has free. */
  method EncodeLong(b: BufChain, avail: nat, rembits: nat, sym: Sym,
                    ghost base: seq<Byte>, ghost bits: Bits, ghost p: Bits, ghost spot: Option<Spot>)
    returns (r: Status, newAvail: nat, newRembits: nat)
    requires Writing(b, base, bits, rembits) && Writes(sym, p) && rembits < |p| <= 30
    requires avail == b.CurAvail() && Roomy(b)
    requires spot == RestSpot(Spot(avail - 1, b.maxChunk - b.cur - 1, 8), ChunkSize(b), |p| - rembits)
    modifies b
    ensures b.Valid() && base <= b.Contents() && Advanced(b)
    ensures r.Ok? ==> newAvail == b.CurAvail() && SymStored(b, base, bits + p, newRembits)
    ensures CameTo(b, r, newRembits, spot)
  {
    FillOctet(b, rembits, sym, base, bits, p);
    ghost var before, at, first, next := b.chunks, b.cur, bits + p[..rembits], bits + p;
    assert next == first + p[|p| - (|p| - rembits)..] by { SplitCode(bits, p, rembits); }
    r, newAvail, newRembits := EncodeRest(b, avail - 1, sym, sym.nbits - rembits, base, first, p, next, spot);
    GrownTransitive(old(b.chunks), old(b.cur), before, at, b.chunks, b.cur, b.offset);
  }

  /** Encodes one code into the held octet and, as needed, the octets after it. */
  method EncodeSym(b: BufChain, avail: nat, rembits: nat, sym: Sym,
                   ghost base: seq<Byte>, ghost bits: Bits, ghost p: Bits, ghost spot: Option<Spot>)
    returns (r: Status, newAvail: nat, newRembits: nat)
    requires Writing(b, base, bits, rembits) && Writes(sym, p) && 1 <= |p| <= 30
    requires avail == b.CurAvail() && Roomy(b) && spot == SymSpot(SpotOf(b, rembits), ChunkSize(b), |p|)
    modifies b
    ensures b.Valid() && base <= b.Contents() && Advanced(b)
    ensures r.Ok? ==> newAvail == b.CurAvail() && SymStored(b, base, bits + p, newRembits)
    ensures CameTo(b, r, newRembits, spot)
  {
    if rembits > sym.nbits {
      EncodeShort(b, rembits, sym, base, bits, p);
      return Ok, avail, rembits - sym.nbits;
    }
    if rembits == sym.nbits {
      FillOctet(b, rembits, sym, base, bits, p);
      assert p[..rembits] == p;
      return Ok, avail - 1, 8;
    }
    r, newAvail, newRembits := EncodeLong(b, avail, rembits, sym, base, bits, p, spot);
  }

  lemma SplitCode(bits: Bits, p: Bits, n: nat)
    requires n <= |p|
    ensures (bits + p[..n]) + p[n..] == bits + p
  {
    assert p == p[..n] + p[n..];
  }

  /** Opens a new octet for writing. */
  method OpenOctet(b: BufChain, avail: nat, ghost base: seq<Byte>, ghost bits: Bits) returns (r: Status, newAvail: nat)
    requires Closed(b, base, bits) && avail == b.CurAvail() && (b.maxChunk == 1 || b.offset < b.chunkLength)
    modifies b
    ensures b.Valid() && b.Contents() == old(b.Contents()) && newAvail == b.CurAvail() && Advanced(b)
    ensures r.Ok? ==> Writing(b, base, bits, 8)
    ensures CameTo(b, r, 8, OpenSpot(old(SpotOf(b, 8)), ChunkSize(b)))
  {
    ZeroBits(8);
    r, newAvail := Ok, avail;
    if avail == 0 {
      r := b.AllocChain();
      newAvail := b.CurAvail();
      if r.Fail? {
        return;
      }
    }
    ghost var before, at := b.chunks, b.cur;
    b.Hold(0);
    GrownTransitive(old(b.chunks), old(b.cur), before, at, b.chunks, b.cur, b.offset);
  }

  /** A string as it stands in the chain: its codes, then the bits that start EOS. */
  lemma PaddingCompletes(out: seq<Byte>, src: seq<Byte>, pad: nat)
    requires pad < 8 && BytesToBits(out) == EncodeBits(src) + Ones(pad)
    ensures out == Encode(src)
  {
    PadIsUnique(|EncodeBits(src)|, pad);
    PackUnpack(out);
  }

  /** Pads a broken last octet with the first bits of EOS. */
  method PadWithEos(b: BufChain, rembits: nat, eos: Sym, ghost base: seq<Byte>, ghost src: seq<Byte>)
    requires SymStored(b, base, EncodeBits(src), rembits) && Writes(eos, Code(EOS))
    modifies b`chunks
    ensures b.Valid() && b.Contents() == base + Encode(src) && |b.chunks| == |old(b.chunks)|
    ensures Grown(old(b.chunks), b.cur, b.chunks, b.cur, b.offset)
  {
    EosIsAllOnes();
    if rembits < 8 {
      FillOctet(b, rembits, eos, base, EncodeBits(src), Code(EOS));
      assert Ones(30)[..rembits] == Ones(rembits);
      PaddingCompletes(b.Contents()[|base|..], src, rembits);
    } else {
      assert EncodeBits(src) + Ones(0) == EncodeBits(src);
      PaddingCompletes(b.Contents()[|base|..], src, 0);
    }
  }

  lemma EncodeBitsNext(src: seq<Byte>, i: nat)
    requires i < |src|
    ensures EncodeBits(src[..i + 1]) == EncodeBits(src[..i]) + Code(src[i])
  {
    assert src[..i + 1] == src[..i] + [src[i]];
    EncodeBitsConcat(src[..i], [src[i]]);
    EncodeBitsPrepend(src[i], []);
    assert [src[i]] + [] == [src[i]];
  }

  /** Encodes the next octet of a string. */
  method EncodeNext(b: BufChain, avail: nat, rembits: nat, octet: Byte, table: seq<Sym>,
                    ghost base: seq<Byte>, ghost bits: Bits)
    returns (r: Status, newAvail: nat, newRembits: nat)
    requires b.Valid() && base <= b.Contents() && SymStored(b, base, bits, rembits)
    requires avail == b.CurAvail() && Roomy(b) && IsSymTable(table)
    modifies b
    ensures b.Valid() && base <= b.Contents() && Advanced(b)
    ensures r.Ok? ==> newAvail == b.CurAvail() && SymStored(b, base, bits + Code(octet), newRembits)
    ensures CameTo(b, r, newRembits, NextSpot(old(SpotOf(b, rembits)), ChunkSize(b), |Code(octet)|))
  {
    newAvail, newRembits := avail, rembits;
    ghost var spot := NextSpot(SpotOf(b, rembits), ChunkSize(b), |Code(octet)|);
    if rembits == 8 {
      r, newAvail := OpenOctet(b, avail, base, bits);
      if r.Fail? {
        return;
      }
    }
    ghost var before, at := b.chunks, b.cur;
    assert WritesCode(table, octet);
    r, newAvail, newRembits := EncodeSym(b, newAvail, rembits, table[octet], base, bits, Code(octet), spot);
    GrownTransitive(old(b.chunks), old(b.cur), before, at, b.chunks, b.cur, b.offset);
  }

  /** The codes of one octet more. */
  ghost predicate NextCode(codes: seq<Bits>, src: seq<Byte>, i: nat)
    requires |codes| == |src| + 1 && i < |src|
  {
    codes[i + 1] == codes[i] + Code(src[i])
  }

  /** The codes of every prefix of a string. */
  lemma CodePrefixes(src: seq<Byte>) returns (codes: seq<Bits>)
    ensures ArePrefixes(codes, src) && codes[|src|] == EncodeBits(src)
  {
    codes := seq(|src| + 1, i requires 0 <= i <= |src| => EncodeBits(src[..i]));
    forall i: nat | i < |src| ensures NextCode(codes, src, i) { EncodeBitsNext(src, i); }
    assert src[..|src|] == src && src[..0] == [];
  }

  /** The same, for a chain that has grown from `was` so far. */
  method EncodeOne(b: BufChain, avail: nat, rembits: nat, octet: Byte, table: seq<Sym>, ghost base: seq<Byte>,
                   ghost bits: Bits, ghost next: Bits, ghost was: seq<Chunk>, ghost from: nat)
    returns (r: Status, newAvail: nat, newRembits: nat)
    requires b.Valid() && base <= b.Contents() && SymStored(b, base, bits, rembits) && next == bits + Code(octet)
    requires avail == b.CurAvail() && Roomy(b) && IsSymTable(table) && Grown(was, from, b.chunks, b.cur, b.offset)
    modifies b
    ensures b.Valid() && base <= b.Contents() && Grown(was, from, b.chunks, b.cur, b.offset) && (old(b.AtEnd()) ==> b.AtEnd())
    ensures r.Ok? ==> newAvail == b.CurAvail() && SymStored(b, base, next, newRembits)
    ensures CameTo(b, r, newRembits, NextSpot(old(SpotOf(b, rembits)), ChunkSize(b), |Code(octet)|))
  {
    ghost var before, at := b.chunks, b.cur;
    r, newAvail, newRembits := EncodeNext(b, avail, rembits, octet, table, base, bits);
    GrownTransitive(was, from, before, at, b.chunks, b.cur, b.offset);
  }

  ghost predicate ArePrefixes(codes: seq<Bits>, src: seq<Byte>)
  {
    && |codes| == |src| + 1 && codes[0] == []
    && forall i: nat {:trigger NextCode(codes, src, i)} | i < |src| :: NextCode(codes, src, i)
  }

  lemma NothingStored(b: BufChain, base: seq<Byte>)
    requires b.Valid() && base == b.Contents()
    ensures SymStored(b, base, [], 8)
  {
    assert b.Contents()[|base|..] == [];
  }

  /** One more octet of the string is dealt with. */
  lemma SpotStep(at: Spot, size: nat, src: seq<Byte>, i: nat)
    requires i < |src|
    ensures
      LastSpot(at, size, src[i..]) ==
      match NextSpot(at, size, |Code(src[i])|)
      case None => None
      case Some(next) => LastSpot(next, size, src[i + 1..])
  {
    assert src[i..][1..] == src[i + 1..];
  }

  /** Encodes all octets of a string, given the codes of its prefixes. */
  method EncodeCodes(b: BufChain, src: seq<Byte>, table: seq<Sym>, ghost base: seq<Byte>, ghost codes: seq<Bits>)
    returns (r: Status, rembits: nat)
    requires b.Valid() && Roomy(b) && IsSymTable(table) && base == b.Contents() && ArePrefixes(codes, src)
    modifies b
    ensures b.Valid() && base <= b.Contents() && Advanced(b)
    ensures r.Ok? ==> SymStored(b, base, codes[|src|], rembits)
    ensures CameTo(b, r, rembits, LastSpot(old(SpotOf(b, 8)), ChunkSize(b), src))
  {
    rembits := 8;
    var avail, i := b.CurAvail(), 0;
    NothingStored(b, base);
    ghost var was, from, size := b.chunks, b.cur, ChunkSize(b);
    ghost var last := LastSpot(SpotOf(b, 8), size, src);
    assert src[0..] == src;
    while i < |src|
      invariant 0 <= i <= |src| && SymStored(b, base, codes[i], rembits) && avail == b.CurAvail()
      invariant Grown(was, from, b.chunks, b.cur, b.offset) && (old(b.AtEnd()) ==> b.AtEnd())
      invariant last == LastSpot(SpotOf(b, rembits), size, src[i..])
    {
      assert NextCode(codes, src, i);
      SpotStep(SpotOf(b, rembits), size, src, i);
      r, avail, rembits := EncodeOne(b, avail, rembits, src[i], table, base, codes[i], codes[i + 1], was, from);
      if r.Fail? {
        return;
      }
      i := i + 1;
    }
    r := Ok;
  }

  /** Encodes all octets of a string, without the padding. */
  method EncodeAll(b: BufChain, src: seq<Byte>, table: seq<Sym>, ghost base: seq<Byte>) returns (r: Status, rembits: nat)
    requires b.Valid() && Roomy(b) && IsSymTable(table) && base == b.Contents()
    modifies b
    ensures b.Valid() && base <= b.Contents() && Advanced(b)
    ensures r.Ok? ==> SymStored(b, base, EncodeBits(src), rembits)
    ensures CameTo(b, r, rembits, LastSpot(old(SpotOf(b, 8)), ChunkSize(b), src))
  {
    ghost var codes := CodePrefixes(src);
    r, rembits := EncodeCodes(b, src, table, base, codes);
  }

  /** A chain of one chunk has a fixed number of octets for contents and room. */
  lemma SingleChunk(b: BufChain)
    requires b.Valid() && b.maxChunk == 1
    ensures |b.Contents()| + b.CurAvail() == b.chunkLength - b.chunks[0].pos
  {
    assert b.chunks == [b.chunks[0]] && Flatten([]) == [];
    assert b.chunks[..0] == [];
  }

  /** Encodes a string and pads it. */
  method EncodePadded(b: BufChain, src: seq<Byte>, table: seq<Sym>, ghost base: seq<Byte>) returns (r: Status)
    requires b.Valid() && Roomy(b) && IsSymTable(table) && base == b.Contents()
    modifies b
    ensures b.Valid() && base <= b.Contents() && Advanced(b)
    ensures r.Ok? ==> b.Contents() == base + Encode(src)
    ensures r.Fail? ==> r.error == BufferError && b.cur + 1 == |b.chunks| == b.maxChunk
    ensures r.Ok? <==> LastSpot(old(SpotOf(b, 8)), ChunkSize(b), src).Some?
  {
    var rembits;
    r, rembits := EncodeAll(b, src, table, base);
    if r.Ok? {
      ghost var before, at := b.chunks, b.cur;
      assert WritesCode(table, EOS);
      PadWithEos(b, rembits, table[EOS], base, src);
      GrownTransitive(old(b.chunks), old(b.cur), before, at, b.chunks, b.cur, b.offset);
    }
  }

  /**
   * Appends the Huffman encoding of `src`.  This succeeds iff there is a spot for all of it:
   * in a single chunk iff the predicted size fits, in several if it fits even when three
   * octets of every further chunk are lost, and only if it fits when none is.
   */
  method HuffEncode(b: BufChain, src: seq<Byte>, table: seq<Sym>) returns (r: Status)
    requires b.Valid() && Roomy(b) && IsSymTable(table)
    modifies b
    ensures b.Valid() && Advanced(b)
    ensures r.Ok? ==> b.Contents() == old(b.Contents()) + Encode(src)
    ensures r.Fail? ==> r.error == BufferError && b.cur + 1 == |b.chunks| == b.maxChunk
    ensures old(b.Contents()) <= b.Contents()
    ensures r.Ok? <==> LastSpot(old(SpotOf(b, 8)), ChunkSize(b), src).Some?
    ensures FitsWithin(old(SpotOf(b, 8)), ChunkSize(b), EncodeCount(src), r.Ok?)
    ensures b.maxChunk == 1 ==> (r.Ok? <==> EncodeCount(src) <= old(b.CurAvail()))
    ensures b.maxChunk == 1 ==> |b.Contents()| + b.CurAvail() == old(|b.Contents()| + b.CurAvail())
  {
    ghost var at := SpotOf(b, 8);
    if b.maxChunk == 1 { SingleChunk(b); }
    StringFits(at, ChunkSize(b), src);
    r := EncodePadded(b, src, table, b.Contents());
    if b.maxChunk == 1 { SingleChunk(b); }
  }

  /** Number of octets `HuffEncode` appends. */
  method HuffEncodeCount(src: seq<Byte>, table: seq<Sym>) returns (n: nat)
    requires IsSymTable(table)
    ensures n == |Encode(src)|
  {
    var nbits := 0;
    for i := 0 to |src|
      invariant nbits == |EncodeBits(src[..i])|
    {
      EncodeBitsNext(src, i);
      assert WritesCode(table, src[i]);
      nbits := nbits + table[src[i]].nbits;
    }
    assert src[..|src|] == src;
    EncodeLength(src);
    n := (nbits + 7) / 8;
  }

  // ------------------------------------------------------------------ decoder

  /** Outcome of decoding: status, pending bits and the octets emitted. */
  datatype Outcome = Outcome(status: Status, rest: Bits, out: seq<Byte>)

  /** What decoding `bits` with `p` pending into a chain with `room` octets left comes to. */
  ghost function DecodeBitsInto(p: Bits, bits: Bits, room: nat, final: bool): (o: Outcome)
    requires Root.Node? && Pending(Root, p)
    ensures o.status.Ok? ==> Pending(Root, o.rest) && |o.out| <= room
  {
    var w := WalkBits(Root, p, bits);
    if |w.out| > room then Outcome(Fail(BufferError), [], [])
    else if w.eos || (final && !Accepting(w.rest)) then Outcome(Fail(HeaderComp), [], [])
    else Outcome(Ok, w.rest, WalkOut(p, bits))
  }

  ghost function DecodeInto(p: Bits, src: seq<Byte>, room: nat, final: bool): (o: Outcome)
    requires Root.Node? && Pending(Root, p)
    ensures o.status.Ok? ==> Pending(Root, o.rest) && |o.out| <= room
  {
    DecodeBitsInto(p, BytesToBits(src), room, final)
  }

  /** Decoding in two steps comes to the same, whatever the cut. */
  lemma DecodeBitsIntoConcat(p: Bits, a: Bits, b: Bits, room: nat, final: bool)
    requires Root.Node? && Pending(Root, p)
    ensures
      var o := DecodeBitsInto(p, a, room, false);
      var whole := DecodeBitsInto(p, a + b, room, final);
      if o.status.Fail? then whole == o
      else
        var q := DecodeBitsInto(o.rest, b, room - |o.out|, final);
        whole == q.(out := if q.status.Ok? then o.out + q.out else [])
  {
    WalkConcat(Root, p, a, b);
  }

  lemma DecodeIntoConcat(p: Bits, a: seq<Byte>, b: seq<Byte>, room: nat, final: bool)
    requires Root.Node? && Pending(Root, p)
    ensures
      var o := DecodeInto(p, a, room, false);
      var whole := DecodeInto(p, a + b, room, final);
      if o.status.Fail? then whole == o
      else
        var q := DecodeInto(o.rest, b, room - |o.out|, final);
        whole == q.(out := if q.status.Ok? then o.out + q.out else [])
  {
    BytesToBitsConcat(a, b);
    DecodeBitsIntoConcat(p, BytesToBits(a), BytesToBits(b), room, final);
  }

  /** A chain that wastes no byte and can always take a byte while it has room. */
  ghost predicate Sink(b: BufChain)
    reads b
  {
    b.Valid() && b.Packed() && b.offset < b.chunkLength
  }

  /** The cell for the pending bits `p` and the nibble `n` says what decoding it comes to. */
  lemma CellDecodes(table: seq<seq<Cell>>, p: Bits, n: nat, room: nat)
    requires IsDecodeTable(table) && Root.Node? && Pending(Root, p) && n < 16
    ensures StateOf(Root, p) < |table| && |table[StateOf(Root, p)]| == 16
    ensures
      var c := table[StateOf(Root, p)][n];
      var o := DecodeBitsInto(p, BitsOf(4, n), room, false);
      && (c.fail ==> o.status == Fail(HeaderComp))
      && (!c.fail && c.emit ==> c.sym < 256 && o.status == (if room == 0 then Fail(BufferError) else Ok))
      && (!c.fail && !c.emit ==> o.status == Ok)
      && (o.status.Ok? ==>
            Tracks(Context(c.state, c.accepted), o.rest) && o.out == (if c.emit then [c.sym] else []))
  {
    assert WalksAs(table, Context(StateOf(Root, p), Accepting(p)), p, n);
  }

  /** Everything in a chain and the decoder's state are as `o` says. */
  ghost predicate Reached(b: BufChain, ctx: Context, o: Outcome, base: seq<Byte>, room: nat)
    reads b
  {
    && Sink(b) && (o.status.Ok? ==> Tracks(ctx, o.rest))
    && (o.status.Ok? ==> b.Contents() == base + o.out && b.Room() == room - |o.out|)
  }

  /** Decoding came to `o` first and to `q` then, which is `whole` together. */
  predicate Joined(o: Outcome, q: Outcome, whole: Outcome)
  {
    whole == q.(out := if q.status.Ok? then o.out + q.out else [])
  }

  lemma ReachedTwice(b: BufChain, ctx: Context, o: Outcome, q: Outcome, whole: Outcome, base: seq<Byte>, room: nat)
    requires |o.out| <= room && Joined(o, q, whole)
    requires Reached(b, ctx, q, base + o.out, room - |o.out|)
    ensures Reached(b, ctx, whole, base, room)
  {
    assert (base + o.out) + q.out == base + (o.out + q.out);
  }

  /** One table access: four bits of input, at most one octet of output. */
  method DecodeNibble(state: nat, ghost p: Bits, n: nat, b: BufChain, table: seq<seq<Cell>>) returns (r: Status, c: Cell)
    requires Root.Node? && Pending(Root, p) && state == StateOf(Root, p) && n < 16
    requires Sink(b) && IsDecodeTable(table)
    modifies b
    ensures r == DecodeBitsInto(p, BitsOf(4, n), old(b.Room()), false).status
    ensures Reached(b, Context(c.state, c.accepted), DecodeBitsInto(p, BitsOf(4, n), old(b.Room()), false),
                    old(b.Contents()), old(b.Room()))
  {
    CellDecodes(table, p, n, b.Room());
    c := table[state][n];
    r := Ok;
    if c.fail {
      r := Fail(HeaderComp);
    } else if c.emit {
      r := b.AddB(c.sym);
    }
  }

  /** Both halves of an octet. */
  method DecodeOctet(ctx: Context, ghost p: Bits, octet: Byte, b: BufChain, table: seq<seq<Cell>>)
    returns (r: Status, newCtx: Context)
    requires Tracks(ctx, p) && Sink(b) && IsDecodeTable(table)
    modifies b
    ensures r == DecodeInto(p, [octet], old(b.Room()), false).status
    ensures Reached(b, newCtx, DecodeInto(p, [octet], old(b.Room()), false), old(b.Contents()), old(b.Room()))
  {
    OctetBits(octet);
    ghost var hi, lo, base, room := BitsOf(4, octet / 16), BitsOf(4, octet % 16), b.Contents(), b.Room();
    HalvesJoin(p, hi, lo, room);
    ghost var o := DecodeBitsInto(p, hi, room, false);
    var c;
    r, c := DecodeNibble(ctx.state, p, octet / 16, b, table);
    newCtx := Context(c.state, c.accepted);
    if r.Ok? {
      ghost var q := DecodeBitsInto(o.rest, lo, room - |o.out|, false);
      r, c := DecodeNibble(c.state, o.rest, octet % 16, b, table);
      newCtx := Context(c.state, c.accepted);
      ReachedTwice(b, newCtx, o, q, DecodeBitsInto(p, hi + lo, room, false), base, room);
    }
  }

  lemma HalvesJoin(p: Bits, hi: Bits, lo: Bits, room: nat)
    requires Root.Node? && Pending(Root, p)
    ensures
      var o := DecodeBitsInto(p, hi, room, false);
      var whole := DecodeBitsInto(p, hi + lo, room, false);
      if o.status.Fail? then whole == o else Joined(o, DecodeBitsInto(o.rest, lo, room - |o.out|, false), whole)
  {
    DecodeBitsIntoConcat(p, hi, lo, room, false);
  }

  lemma OctetBits(b: Byte)
    ensures BytesToBits([b]) == BitsOf(4, b / 16) + BitsOf(4, b % 16)
  {
    ShiftByOctets(b);
    ShiftByOctets(b / 16);
    BitsOfSplit(4, 4, b);
    HighPartIgnored(4, b % 16, b / 16);
    OneOctetBits(b);
  }

  /** Reading one more octet of `src`; a failure there is a failure of the whole. */
  lemma DecodeNextOctet(p: Bits, src: seq<Byte>, i: nat, room: nat)
    requires Root.Node? && Pending(Root, p) && i < |src|
    requires DecodeInto(p, src[..i], room, false).status.Ok?
    ensures
      var o := DecodeInto(p, src[..i], room, false);
      var q := DecodeInto(o.rest, [src[i]], room - |o.out|, false);
      && Joined(o, q, DecodeInto(p, src[..i + 1], room, false))
      && (q.status.Fail? ==> DecodeInto(p, src, room, false) == DecodeInto(p, src[..i + 1], room, false))
  {
    assert src[..i + 1] == src[..i] + [src[i]];
    DecodeIntoConcat(p, src[..i], [src[i]], room, false);
    assert src == src[..i + 1] + src[i + 1..];
    DecodeIntoConcat(p, src[..i + 1], src[i + 1..], room, false);
  }

  /** Reads octet `i` of `src` after the octets before it came to `o`. */
  method DecodeStep(ctx: Context, b: BufChain, src: seq<Byte>, i: nat, table: seq<seq<Cell>>,
                    ghost p: Bits, ghost o: Outcome, ghost base: seq<Byte>, ghost room: nat)
    returns (r: Status, newCtx: Context, ghost next: Outcome)
    requires Root.Node? && Pending(Root, p) && i < |src| && o == DecodeInto(p, src[..i], room, false)
    requires o.status.Ok? && Reached(b, ctx, o, base, room) && IsDecodeTable(table)
    modifies b
    ensures next == DecodeInto(p, src[..i + 1], room, false) && r == next.status
    ensures Reached(b, newCtx, next, base, room)
    ensures r.Fail? ==> next == DecodeInto(p, src, room, false)
  {
    DecodeNextOctet(p, src, i, room);
    next := DecodeInto(p, src[..i + 1], room, false);
    ghost var q := DecodeInto(o.rest, [src[i]], room - |o.out|, false);
    r, newCtx := DecodeOctet(ctx, o.rest, src[i], b, table);
    ReachedTwice(b, newCtx, o, q, next, base, room);
  }

  method DecodeOctets(ctx: Context, ghost p: Bits, b: BufChain, src: seq<Byte>, table: seq<seq<Cell>>)
    returns (r: Status, newCtx: Context)
    requires Tracks(ctx, p) && Sink(b) && IsDecodeTable(table)
    modifies b
    ensures r == DecodeInto(p, src, old(b.Room()), false).status
    ensures Reached(b, newCtx, DecodeInto(p, src, old(b.Room()), false), old(b.Contents()), old(b.Room()))
  {
    r, newCtx := Ok, ctx;
    var i := 0;
    ghost var o := Outcome(Ok, p, []);
    while i < |src|
      invariant 0 <= i <= |src| && o.status.Ok? && r.Ok?
      invariant o == DecodeInto(p, src[..i], old(b.Room()), false)
      invariant Reached(b, newCtx, o, old(b.Contents()), old(b.Room()))
    {
      r, newCtx, o := DecodeStep(newCtx, b, src, i, table, p, o, old(b.Contents()), old(b.Room()));
      if r.Fail? {
        return;
      }
      i := i + 1;
    }
    assert src[..i] == src;
  }

  /** Decodes `src` into the chain; with `final`, only padding may be left over. */
  method HuffDecode(ctx: Context, ghost p: Bits, b: BufChain, src: seq<Byte>, final: bool, table: seq<seq<Cell>>)
    returns (r: Status, newCtx: Context)
    requires Tracks(ctx, p) && Sink(b) && IsDecodeTable(table)
    modifies b
    ensures r == DecodeInto(p, src, old(b.Room()), final).status
    ensures Reached(b, newCtx, DecodeInto(p, src, old(b.Room()), final), old(b.Contents()), old(b.Room()))
  {
    r, newCtx := DecodeOctets(ctx, p, b, src, table);
    if r.Ok? && final && !newCtx.accept {
      r := Fail(HeaderComp);
    }
  }
}
