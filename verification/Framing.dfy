/**
 * Frames (lib/nghttp2_frame.c; sections 4.1, 6.1, 6.2 and 6.10 of RFC 7540): headers of
 * frames, the split of a header block into a HEADERS or PUSH_PROMISE frame and
 * CONTINUATION frames, and padding.
 */
module Framing {
  import opened Bytes
  import opened Bufs

  /** NGHTTP2_FRAME_HDLEN. */
  const HdLength: nat := 9

  const KindHeaders: Byte := 1
  const KindPushPromise: Byte := 5
  const KindContinuation: Byte := 9

  /** The flags that matter here. */
  datatype Flag = EndHeaders | Padded | WithPriority
  {
    function Mask(): Byte { match this case EndHeaders => 0x04 case Padded => 0x08 case WithPriority => 0x20 }
  }

  /** nghttp2_frame_hd. */
  datatype FrameHd = FrameHd(length: nat, kind: Byte, flags: Byte, stream: nat)

  datatype Frame = Frame(kind: Byte, flags: Byte, stream: nat, payload: seq<Byte>)

  // ------------------------------------------------------------------------- flags

  predicate Has(flags: Byte, f: Flag)
  {
    match f
    case EndHeaders => flags / 4 % 2 == 1
    case Padded => flags / 8 % 2 == 1
    case WithPriority => flags / 32 % 2 == 1
  }

  function Without(flags: Byte, f: Flag): Byte { if Has(flags, f) then flags - f.Mask() else flags }

  function With(flags: Byte, f: Flag): Byte { if Has(flags, f) then flags else flags + f.Mask() }

  /** Setting and clearing a flag leaves the others alone. */
  lemma OneFlagChanges(flags: Byte, f: Flag)
    ensures !Has(Without(flags, f), f) && Has(With(flags, f), f)
    ensures forall g: Flag :: g != f ==> Has(Without(flags, f), g) == Has(flags, g) == Has(With(flags, f), g)
  {
    match f
    case EndHeaders => EndHeadersChanges(flags);
    case Padded => PaddedChanges(flags);
    case WithPriority => PriorityChanges(flags);
  }

  lemma EndHeadersChanges(flags: Byte)
    ensures !Has(Without(flags, EndHeaders), EndHeaders) && Has(With(flags, EndHeaders), EndHeaders)
    ensures forall g: Flag :: g != EndHeaders ==>
      Has(Without(flags, EndHeaders), g) == Has(flags, g) == Has(With(flags, EndHeaders), g)
  {
    var a, e, b := flags / 8, flags / 4 % 2, flags % 4;
    assert flags == 8 * a + 4 * e + b;
    Bit4(a, 0, b);
    Bit4(a, 1, b);
  }

  lemma PaddedChanges(flags: Byte)
    ensures !Has(Without(flags, Padded), Padded) && Has(With(flags, Padded), Padded)
    ensures forall g: Flag :: g != Padded ==>
      Has(Without(flags, Padded), g) == Has(flags, g) == Has(With(flags, Padded), g)
  {
    var a, e, b := flags / 16, flags / 8 % 2, flags % 8;
    assert flags == 16 * a + 8 * e + b;
    Bit8(a, 0, b);
    Bit8(a, 1, b);
  }

  lemma PriorityChanges(flags: Byte)
    ensures !Has(Without(flags, WithPriority), WithPriority) && Has(With(flags, WithPriority), WithPriority)
    ensures forall g: Flag :: g != WithPriority ==>
      Has(Without(flags, WithPriority), g) == Has(flags, g) == Has(With(flags, WithPriority), g)
  {
    var a, e, b := flags / 64, flags / 32 % 2, flags % 32;
    assert flags == 64 * a + 32 * e + b;
    Bit32(a, 0, b);
    Bit32(a, 1, b);
  }

  lemma Bit4(a: nat, e: nat, b: nat)
    requires e < 2 && b < 4
    ensures var v := 8 * a + 4 * e + b; v / 4 % 2 == e && v / 8 == a && v / 32 == a / 4
  {
    var v := 8 * a + 4 * e + b;
    Quotient(v, 4, 2 * a + e, b);
    Quotient(2 * a + e, 2, a, e);
    Quotient(v, 8, a, 4 * e + b);
    Quotient(v, 32, a / 4, 8 * (a % 4) + 4 * e + b);
  }

  lemma Bit8(a: nat, e: nat, b: nat)
    requires e < 2 && b < 8
    ensures var v := 16 * a + 8 * e + b; v / 8 % 2 == e && v / 4 % 2 == b / 4 && v / 32 == a / 2
  {
    var v := 16 * a + 8 * e + b;
    Quotient(v, 8, 2 * a + e, b);
    Quotient(2 * a + e, 2, a, e);
    Quotient(v, 4, 4 * a + 2 * e + b / 4, b % 4);
    Quotient(4 * a + 2 * e + b / 4, 2, 2 * a + e, b / 4);
    Quotient(v, 32, a / 2, 16 * (a % 2) + 8 * e + b);
  }

  lemma Bit32(a: nat, e: nat, b: nat)
    requires e < 2 && b < 32
    ensures var v := 64 * a + 32 * e + b; v / 32 % 2 == e && v / 4 % 2 == b / 4 % 2 && v / 8 % 2 == b / 8 % 2
  {
    var v := 64 * a + 32 * e + b;
    Quotient(v, 32, 2 * a + e, b);
    Quotient(2 * a + e, 2, a, e);
    Quotient(v, 4, 16 * a + 8 * e + b / 4, b % 4);
    Quotient(16 * a + 8 * e + b / 4, 2, 8 * a + 4 * e + b / 8, b / 4 % 2);
    Quotient(v, 8, 8 * a + 4 * e + b / 8, b % 8);
    Quotient(8 * a + 4 * e + b / 8, 2, 4 * a + 2 * e + b / 16, b / 8 % 2);
  }

  lemma Quotient(v: nat, d: nat, q: nat, r: nat)
    requires r < d && v == d * q + r
    ensures v / d == q && v % d == r
  {
    UniqueRemainder(v, d, q, r);
    assert d * (v / d - q) == 0 by { assert v == d * (v / d) + v % d; }
    MultipleIsLarge(v / d - q, d);
  }

  // ------------------------------------------------------------------ octets in memory

  /** The number big-endian octets stand for: nghttp2_get_uint32 and nghttp2_get_uint16. */
  function Number(s: seq<Byte>): nat
  {
    if s == [] then 0 else 256 * Number(s[..|s| - 1]) + s[|s| - 1]
  }

  lemma {:induction false} BigEndianNumber(k: nat, v: nat)
    ensures Number(BigEndian(k, v)) == v % Pow256(k)
  {
    if k > 0 {
      BigEndianNumber(k - 1, v / 256);
      var s := BigEndian(k, v);
      assert s[..|s| - 1] == BigEndian(k - 1, v / 256);
      LowDigits(v, Pow256(k - 1));
    }
  }

  function Pow256(k: nat): (p: nat)
    ensures p > 0
  {
    if k == 0 then 1 else 256 * Pow256(k - 1)
  }

  lemma LowDigits(v: nat, p: nat)
    requires p > 0
    ensures 256 * (v / 256 % p) + v % 256 == v % (256 * p)
  {
    var q, r := v / 256 / p, 256 * (v / 256 % p) + v % 256;
    assert v / 256 == p * q + v / 256 % p;
    assert v == (256 * p) * q + r by {
      assert v == 256 * (v / 256) + v % 256;
      assert 256 * (p * q) == (256 * p) * q;
    }
    UniqueRemainder(v, 256 * p, q, r);
  }

  lemma UniqueRemainder(x: nat, d: nat, q: nat, r: nat)
    requires r < d && x == d * q + r
    ensures x % d == r
  {
    assert d * (x / d - q) == r - x % d by { assert x == d * (x / d) + x % d; }
    MultipleIsLarge(x / d - q, d);
  }

  /** Writes `x` at `at`. */
  function Put(mem: seq<Byte>, at: nat, x: seq<Byte>): (r: seq<Byte>)
    requires at + |x| <= |mem|
    ensures |r| == |mem|
  {
    mem[..at] + x + mem[at + |x|..]
  }

  // ------------------------------------------------------------------- frame headers

  /** A frame header: 24 bits of length, type, flags, 32 bits of stream identifier. */
  function HdBytes(hd: FrameHd): (s: seq<Byte>)
    ensures |s| == HdLength
  {
    BigEndian(3, hd.length) + [hd.kind, hd.flags] + BigEndian(4, hd.stream)
  }

  /** nghttp2_frame_pack_frame_hd. */
  method PackFrameHd(mem0: seq<Byte>, at: nat, hd: FrameHd) returns (mem: seq<Byte>)
    requires at + HdLength <= |mem0|
    ensures mem == Put(mem0, at, HdBytes(hd))
  {
    mem := Put(mem0, at, BigEndian(4, hd.length * 256));
    mem := mem[at + 3 := hd.kind];
    mem := mem[at + 4 := hd.flags];
    mem := Put(mem, at + 5, BigEndian(4, hd.stream));
    assert BigEndian(4, hd.length * 256) == BigEndian(3, hd.length) + [0];
  }

  /** nghttp2_frame_unpack_frame_hd. */
  function UnpackFrameHd(s: seq<Byte>): FrameHd
    requires |s| >= HdLength
  {
    FrameHd(Number(s[..4]) / 256, s[3], s[4], Number(s[5..9]) % 0x8000_0000)
  }

  lemma HighDigits(high: nat, low: Byte)
    ensures (256 * high + low) / 256 == high
  {}

  lemma Low31(x: nat)
    ensures x % 0x1_0000_0000 % 0x8000_0000 == x % 0x8000_0000
  {
    var q, r := x / 0x1_0000_0000, x % 0x1_0000_0000;
    UniqueRemainder(x, 0x8000_0000, 2 * q + r / 0x8000_0000, r % 0x8000_0000);
  }

  /** Unpacking undoes packing, up to the 24 bits of the length and the 31 bits of the identifier. */
  lemma HdRoundTrip(hd: FrameHd)
    ensures UnpackFrameHd(HdBytes(hd)) == hd.(length := hd.length % 0x100_0000, stream := hd.stream % 0x8000_0000)
  {
    var s := HdBytes(hd);
    var low := s[..4];
    assert low[..3] == BigEndian(3, hd.length) && s[5..9] == BigEndian(4, hd.stream);
    BigEndianNumber(3, hd.length);
    BigEndianNumber(4, hd.stream);
    assert Pow256(1) == 256 && Pow256(2) == 0x1_0000 && Pow256(3) == 0x100_0000 && Pow256(4) == 0x1_0000_0000;
    HighDigits(Number(low[..3]), low[3]);
    Low31(hd.stream);
  }

  /** A frame header survives the wire iff its length has 24 bits and its identifier 31. */
  lemma HdRoundTripIff(hd: FrameHd)
    ensures UnpackFrameHd(HdBytes(hd)) == hd <==> hd.length < 0x100_0000 && hd.stream < 0x8000_0000
  {
    HdRoundTrip(hd);
  }

  // ------------------------------------------------------------------ frames on the wire

  function FrameBytes(f: Frame): seq<Byte> { HdBytes(FrameHd(|f.payload|, f.kind, f.flags, f.stream)) + f.payload }

  function FramesBytes(fs: seq<Frame>): seq<Byte>
  {
    if fs == [] then [] else FramesBytes(fs[..|fs| - 1]) + FrameBytes(fs[|fs| - 1])
  }

  /** A frame whose length and stream identifier can be written. */
  predicate Writable(f: Frame) { |f.payload| < 0x100_0000 && f.stream < 0x8000_0000 }

  /** Splits octets into frames, as far as there are whole ones. */
  function ReadFrames(s: seq<Byte>): (seq<Frame>, seq<Byte>)
  {
    if |s| < HdLength then ([], s)
    else
      var hd := UnpackFrameHd(s);
      if HdLength + hd.length > |s| then ([], s)
      else
        var (fs, rest) := ReadFrames(s[HdLength + hd.length..]);
        ([Frame(hd.kind, hd.flags, hd.stream, s[HdLength..HdLength + hd.length])] + fs, rest)
  }

  lemma {:induction false} FramesConcat(a: seq<Frame>, b: seq<Frame>)
    ensures FramesBytes(a + b) == FramesBytes(a) + FramesBytes(b)
    decreases |b|
  {
    if b == [] {
      assert a + b == a;
    } else {
      assert (a + b)[..|a + b| - 1] == a + b[..|b| - 1];
      FramesConcat(a, b[..|b| - 1]);
    }
  }

  lemma FirstFrameRead(f: Frame, rest: seq<Byte>)
    requires Writable(f)
    ensures
      var (fs, left) := ReadFrames(rest);
      ReadFrames(FrameBytes(f) + rest) == ([f] + fs, left)
  {
    var hd := FrameHd(|f.payload|, f.kind, f.flags, f.stream);
    var s := FrameBytes(f) + rest;
    HdRoundTrip(hd);
    assert s[..4] == HdBytes(hd)[..4] && s[5..9] == HdBytes(hd)[5..9];
    assert UnpackFrameHd(s) == hd;
    assert s[HdLength..HdLength + |f.payload|] == f.payload && s[HdLength + |f.payload|..] == rest;
  }

  /** What was written as frames is read as those frames. */
  lemma {:induction false} FramesRoundTrip(fs: seq<Frame>)
    requires forall f | f in fs :: Writable(f)
    ensures ReadFrames(FramesBytes(fs)) == (fs, [])
    decreases |fs|
  {
    if fs != [] {
      var rest := fs[1..];
      FramesRoundTrip(rest);
      assert fs == [fs[0]] + rest;
      FramesConcat([fs[0]], rest);
      assert FramesBytes([fs[0]]) == FrameBytes(fs[0]) by { assert [fs[0]][..0] == []; }
      FirstFrameRead(fs[0], FramesBytes(rest));
    }
  }

  // ------------------------------------------------------- header blocks in several frames

  /** The frame that carries the `i`-th piece of a header block. */
  function FrameAt(hd: FrameHd, pieces: seq<seq<Byte>>, i: nat): Frame
    requires i < |pieces|
  {
    var last := i == |pieces| - 1;
    if i == 0 then Frame(hd.kind, if last then hd.flags else Without(hd.flags, EndHeaders), hd.stream, pieces[0])
    else Frame(KindContinuation, if last then EndHeaders.Mask() else 0, hd.stream, pieces[i])
  }

  function HeaderFrames(hd: FrameHd, pieces: seq<seq<Byte>>, n: nat): (fs: seq<Frame>)
    requires n <= |pieces|
    ensures |fs| == n && forall i | 0 <= i < n :: fs[i] == FrameAt(hd, pieces, i)
  {
    if n == 0 then [] else HeaderFrames(hd, pieces, n - 1) + [FrameAt(hd, pieces, n - 1)]
  }

  /**
   * One HEADERS or PUSH_PROMISE frame, then CONTINUATION frames of the same stream, and
   * END_HEADERS on the last frame only.
   */
  predicate IsHeaderBlock(fs: seq<Frame>)
  {
    && fs != [] && fs[0].kind in {KindHeaders, KindPushPromise}
    && (forall i | 0 < i < |fs| :: fs[i].kind == KindContinuation && fs[i].stream == fs[0].stream)
    && (forall i | 0 <= i < |fs| :: Has(fs[i].flags, EndHeaders) <==> i == |fs| - 1)
  }

  lemma FramesFormBlock(hd: FrameHd, pieces: seq<seq<Byte>>)
    requires pieces != [] && hd.kind in {KindHeaders, KindPushPromise} && Has(hd.flags, EndHeaders)
    ensures
      var fs := HeaderFrames(hd, pieces, |pieces|);
      IsHeaderBlock(fs) && fs[0].kind == hd.kind && fs[0].stream == hd.stream
    ensures
      var f := HeaderFrames(hd, pieces, |pieces|)[0];
      forall g: Flag :: g != EndHeaders ==> Has(f.flags, g) == Has(hd.flags, g)
  {
    var fs := HeaderFrames(hd, pieces, |pieces|);
    forall i | 0 <= i < |fs| ensures Has(fs[i].flags, EndHeaders) <==> i == |fs| - 1 { BlockFlags(hd, pieces, i); }
    BlockFlags(hd, pieces, 0);
  }

  lemma BlockFlags(hd: FrameHd, pieces: seq<seq<Byte>>, i: nat)
    requires i < |pieces| && Has(hd.flags, EndHeaders)
    ensures Has(FrameAt(hd, pieces, i).flags, EndHeaders) <==> i == |pieces| - 1
    ensures i == 0 ==> forall g: Flag :: g != EndHeaders ==> Has(FrameAt(hd, pieces, i).flags, g) == Has(hd.flags, g)
  {
    OneFlagChanges(hd.flags, EndHeaders);
  }

  /** What the chunks of a chain hold. */
  function Pieces(chunks: seq<Chunk>, n: nat): (r: seq<seq<Byte>>)
    requires n <= |chunks| && forall c | c in chunks :: c.Valid()
    ensures |r| == n && forall i | 0 <= i < n :: r[i] == chunks[i].Data()
  {
    if n == 0 then [] else Pieces(chunks, n - 1) + [chunks[n - 1].Data()]
  }

  lemma {:induction false} PiecesConcat(chunks: seq<Chunk>, n: nat)
    requires n <= |chunks| && forall c | c in chunks :: c.Valid()
    ensures Concat(Pieces(chunks, n)) == Flatten(chunks[..n])
  {
    if n > 0 {
      PiecesConcat(chunks, n - 1);
      ConcatLast(Pieces(chunks, n));
      assert Pieces(chunks, n)[..n - 1] == Pieces(chunks, n - 1);
      assert chunks[..n][..n - 1] == chunks[..n - 1];
    }
  }

  /** Writes a frame header in front of what a chunk holds. */
  method PutHeader(c: Chunk, hd: FrameHd) returns (d: Chunk)
    requires c.Valid() && c.pos >= HdLength
    ensures d.Valid() && |d.mem| == |c.mem| && d.pos == c.pos - HdLength && d.last == c.last
    ensures d.Data() == FrameBytes(Frame(hd.kind, hd.flags, hd.stream, c.Data())) && d.mem[c.pos..] == c.mem[c.pos..]
  {
    var mem := PackFrameHd(c.mem, c.pos - HdLength, hd.(length := |c.Data()|));
    d := Chunk(mem, c.pos - HdLength, c.last);
    assert d.Data() == HdBytes(hd.(length := |c.Data()|)) + c.Data();
  }

  /** The octets of each frame. */
  function Octets(fs: seq<Frame>): (r: seq<seq<Byte>>)
    ensures |r| == |fs|
  {
    if fs == [] then [] else Octets(fs[..|fs| - 1]) + [FrameBytes(fs[|fs| - 1])]
  }

  lemma {:induction false} OctetsConcat(fs: seq<Frame>)
    ensures Concat(Octets(fs)) == FramesBytes(fs)
    decreases |fs|
  {
    if fs != [] {
      OctetsConcat(fs[..|fs| - 1]);
      ConcatLast(Octets(fs));
      assert Octets(fs)[..|fs| - 1] == Octets(fs[..|fs| - 1]);
    }
  }

  lemma {:induction false} OctetsAt(fs: seq<Frame>, i: nat)
    requires i < |fs|
    ensures Octets(fs)[i] == FrameBytes(fs[i])
    decreases |fs|
  {
    if i < |fs| - 1 { OctetsAt(fs[..|fs| - 1], i); }
  }

  /** Chunk `i` of `now` holds `octets[i]` and is that of `was`, with room for a header taken. */
  predicate Framed(was: seq<Chunk>, now: seq<Chunk>, octets: seq<seq<Byte>>, i: nat)
    requires i < |octets| <= |was| == |now|
  {
    && now[i].Valid() && now[i].Data() == octets[i] && |now[i].mem| == |was[i].mem|
    && now[i].pos == was[i].pos - HdLength && now[i].last == was[i].last
  }

  /** The first `n` chunks of `now` are frames, the others those of `was`. */
  ghost predicate FramedUpTo(was: seq<Chunk>, now: seq<Chunk>, octets: seq<seq<Byte>>, n: nat)
    requires n <= |octets| <= |was|
  {
    && |now| == |was| && now[n..] == was[n..]
    && (forall i: nat {:trigger Framed(was, now, octets, i)} | i < n :: Framed(was, now, octets, i))
  }

  /** Makes one chunk a frame. */
  method FrameChunk(ghost was: seq<Chunk>, now0: seq<Chunk>, ghost octets: seq<seq<Byte>>, i: nat, hd: FrameHd)
    returns (now: seq<Chunk>)
    requires i < |octets| <= |was| && was[i].Valid() && was[i].pos >= HdLength && FramedUpTo(was, now0, octets, i)
    requires octets[i] == FrameBytes(Frame(hd.kind, hd.flags, hd.stream, was[i].Data()))
    ensures FramedUpTo(was, now, octets, i + 1)
  {
    assert now0[i..][0] == was[i..][0];
    var c := PutHeader(now0[i], hd);
    now := now0[i := c];
    assert now[i + 1..] == now0[i..][1..] == was[i + 1..];
    forall j: nat | j <= i ensures Framed(was, now, octets, j) { if j < i { assert Framed(was, now0, octets, j); } }
  }

  method FrameChunks(was: seq<Chunk>, cur: nat, hd: FrameHd, ghost octets: seq<seq<Byte>>) returns (now: seq<Chunk>)
    requires cur + 1 == |octets| <= |was| && (forall c | c in was :: c.Valid()) && forall i | 0 <= i <= cur :: was[i].pos >= HdLength
    requires octets == Octets(HeaderFrames(hd, Pieces(was, cur + 1), cur + 1))
    ensures FramedUpTo(was, now, octets, cur + 1)
  {
    ghost var fs := HeaderFrames(hd, Pieces(was, cur + 1), cur + 1);
    forall i | 0 <= i <= cur ensures octets[i] == FrameBytes(fs[i]) { OctetsAt(fs, i); }
    now := FrameChunk(was, was, octets, 0, if cur == 0 then hd else hd.(flags := Without(hd.flags, EndHeaders)));
    if cur > 0 {
      var i := 1;
      while i < cur
        invariant 1 <= i <= cur && FramedUpTo(was, now, octets, i)
      {
        now := FrameChunk(was, now, octets, i, FrameHd(0, KindContinuation, 0, hd.stream));
        i := i + 1;
      }
      now := FrameChunk(was, now, octets, i, FrameHd(0, KindContinuation, EndHeaders.Mask(), hd.stream));
    }
  }

  lemma {:induction false} FramedFlatten(was: seq<Chunk>, now: seq<Chunk>, octets: seq<seq<Byte>>, n: nat)
    requires n <= |octets| <= |was| && FramedUpTo(was, now, octets, |octets|) && forall c | c in now :: c.Valid()
    ensures Flatten(now[..n]) == Concat(octets[..n])
  {
    if n > 0 {
      FramedFlatten(was, now, octets, n - 1);
      ConcatLast(octets[..n]);
      assert Framed(was, now, octets, n - 1);
      assert now[..n][..n - 1] == now[..n - 1] && octets[..n][..n - 1] == octets[..n - 1];
    }
  }

  /** Everything about the chunks once they are frames. */
  lemma AllFramed(was: seq<Chunk>, now: seq<Chunk>, octets: seq<seq<Byte>>, size: nat, offset: nat)
    requires 0 < |octets| <= |was| && FramedUpTo(was, now, octets, |octets|)
    requires (forall c | c in was :: c.Valid() && |c.mem| == size)
    requires forall i | |octets| <= i < |was| :: was[i].pos == was[i].last == offset
    ensures |now| == |was| && (forall c | c in now :: c.Valid() && |c.mem| == size)
    ensures (forall i | |octets| <= i < |now| :: now[i].pos == now[i].last == offset) && Flatten(now) == Concat(octets)
  {
    var n := |octets|;
    forall i | 0 <= i < |now| ensures now[i].Valid() && |now[i].mem| == size && (i >= n ==> now[i] == was[i]) {
      if i < n { assert Framed(was, now, octets, i); } else { assert now[n..][i - n] == was[n..][i - n]; }
    }
    FramedFlatten(was, now, octets, n);
    assert now[..n] + now[n..] == now && octets[..n] == octets;
    FlattenConcat(now[..n], now[n..]);
    FlattenEmpty(now[n..]);
  }

  /**
   * frame_pack_headers_shared: puts a frame header in front of every chunk in use; the
   * chain then holds the frames of the block.
   */
  method PackHeadersShared(b: BufChain, hd: FrameHd)
    requires b.Valid() && forall i | 0 <= i <= b.cur :: b.chunks[i].pos >= HdLength
    modifies b`chunks
    ensures b.Valid() && b.Contents() == FramesBytes(HeaderFrames(hd, Pieces(old(b.chunks), b.cur + 1), b.cur + 1))
    ensures |b.chunks| == |old(b.chunks)| && b.chunks[0].Data() == FrameBytes(FrameAt(hd, Pieces(old(b.chunks), b.cur + 1), 0))
    ensures b.chunks[0].pos == old(b.chunks[0].pos) - HdLength && b.chunks[0].last == old(b.chunks[0].last)
  {
    ghost var fs := HeaderFrames(hd, Pieces(b.chunks, b.cur + 1), b.cur + 1);
    ghost var octets := Octets(fs);
    var now := FrameChunks(b.chunks, b.cur, hd, octets);
    AllFramed(b.chunks, now, octets, b.chunkLength, b.offset);
    OctetsConcat(fs);
    OctetsAt(fs, 0);
    assert Framed(b.chunks, now, octets, 0);
    b.chunks := now;
  }

  // ----------------------------------------------------------------------- padding

  function Fill(n: nat): (s: seq<Byte>)
    ensures |s| == n && forall i | 0 <= i < n :: s[i] == 0
  {
    if n == 0 then [] else Fill(n - 1) + [0]
  }

  /** The header of a frame whose payload gets `padlen` more octets, as frame_set_pad rewrites it in place. */
  function PaddedHd(h: seq<Byte>, padlen: nat): (r: seq<Byte>)
    requires |h| == HdLength
    ensures |r| == HdLength
  {
    BigEndian(4, (Number(h[..4]) / 256 + padlen) * 256 + h[3]) + [With(h[4], Padded)] + h[5..]
  }

  lemma PaddedHdIs(hd: FrameHd, padlen: nat)
    requires hd.length < 0x100_0000
    ensures PaddedHd(HdBytes(hd), padlen) == HdBytes(hd.(length := hd.length + padlen, flags := With(hd.flags, Padded)))
  {
    var h := HdBytes(hd);
    var low := h[..4];
    assert low[..3] == BigEndian(3, hd.length) && low[3] == hd.kind && h[5..] == BigEndian(4, hd.stream);
    ThreeOctets(hd.length);
    HighDigits(hd.length, hd.kind);
    OneMoreDigit(hd.length + padlen, hd.kind);
  }

  lemma ThreeOctets(v: nat)
    requires v < 0x100_0000
    ensures Number(BigEndian(3, v)) == v
  {
    BigEndianNumber(3, v);
    assert Pow256(1) == 256 && Pow256(2) == 0x1_0000 && Pow256(3) == 0x100_0000;
    UniqueRemainder(v, 0x100_0000, 0, v);
  }

  lemma OneMoreDigit(v: nat, low: Byte)
    ensures BigEndian(4, v * 256 + low) == BigEndian(3, v) + [low]
  {
    assert (v * 256 + low) / 256 == v && (v * 256 + low) % 256 == low;
  }

  /** A frame with `padlen` octets of padding, the pad length field included. */
  function PaddedFrame(f: Frame, padlen: nat): Frame
    requires 1 <= padlen <= 256
  {
    f.(flags := With(f.flags, Padded), payload := [padlen - 1] + f.payload + Fill(padlen - 1))
  }

  /** The header as frame_set_pad rewrites it in place. */
  method SetPadHd(c: Chunk, padlen: nat) returns (mem: seq<Byte>)
    requires c.Valid() && c.pos >= 1 && |c.Data()| >= HdLength
    ensures mem == Put(c.mem, c.pos - 1, PaddedHd(c.mem[c.pos..c.pos + HdLength], padlen))
  {
    ghost var h := c.mem[c.pos..c.pos + HdLength];
    var pos := c.pos - 1;
    mem := Put(c.mem, pos, c.mem[c.pos..c.pos + HdLength]);
    mem := mem[pos + 4 := With(mem[pos + 4], Padded)];
    assert mem[pos..pos + 4] == h[..4] && mem[pos + 3] == h[3];
    var length := Number(mem[pos..pos + 4]) / 256 + padlen;
    mem := Put(mem, pos, BigEndian(4, length * 256 + mem[pos + 3]));
  }

  /** frame_set_pad: padding in front of and behind the payload, or only the header for it. */
  method SetPad(c: Chunk, padlen: nat, headerOnly: bool, ghost f: Frame) returns (d: Chunk)
    requires c.Valid() && c.pos >= 1 && c.Data() == FrameBytes(f) && |f.payload| < 0x100_0000
    requires 1 <= padlen <= 256 && (headerOnly || c.last + padlen - 1 <= |c.mem|)
    ensures d.Valid() && |d.mem| == |c.mem| && d.pos == c.pos - 1
    ensures !headerOnly ==> d.last == c.last + padlen - 1 && d.Data() == FrameBytes(PaddedFrame(f, padlen))
    ensures headerOnly ==> d.last == c.last && d.Data()[HdLength] == c.Data()[HdLength - 1] && d.Data()[HdLength + 1..] == f.payload
    ensures headerOnly ==>
      d.Data()[..HdLength] == HdBytes(FrameHd(|f.payload| + padlen, f.kind, With(f.flags, Padded), f.stream))
  {
    ghost var hd := FrameHd(|f.payload|, f.kind, f.flags, f.stream);
    ghost var h := PaddedHd(HdBytes(hd), padlen);
    PaddedHdIs(hd, padlen);
    ChunkParts(c, HdBytes(hd), f.payload);
    var mem := SetPadHd(c, padlen);
    HeaderMoved(c.mem, c.pos, c.last, h, f.payload);
    if headerOnly {
      d := Chunk(mem, c.pos - 1, c.last);
      return;
    }
    d := FillPad(mem, c.pos - 1, c.last, padlen, h, f.payload);
    assert PaddedFrame(f, padlen).payload == [padlen - 1] + f.payload + Fill(padlen - 1);
  }

  /** The number of padding octets in front of the payload and the padding behind it. */
  method FillPad(mem: seq<Byte>, at: nat, last: nat, padlen: nat, ghost h: seq<Byte>, ghost payload: seq<Byte>) returns (d: Chunk)
    requires |h| == HdLength && at + HdLength + 1 <= last && 1 <= padlen <= 256 && last + padlen - 1 <= |mem|
    requires mem[at..at + HdLength] == h && mem[at + HdLength + 1..last] == payload
    ensures d.Valid() && |d.mem| == |mem| && d.pos == at && d.last == last + padlen - 1
    ensures d.Data() == h + ([padlen - 1] + payload + Fill(padlen - 1))
  {
    PadSpliced(mem, at, last, h, payload, padlen - 1, Fill(padlen - 1));
    var m := Put(mem[at + HdLength := padlen - 1], last, Fill(padlen - 1));
    d := Chunk(m, at, last + padlen - 1);
  }

  lemma ChunkParts(c: Chunk, h: seq<Byte>, payload: seq<Byte>)
    requires c.Valid() && c.Data() == h + payload && |h| == HdLength
    ensures c.mem[c.pos..c.pos + HdLength] == h && c.mem[c.pos + HdLength..c.last] == payload
  {
    assert c.Data()[..HdLength] == h && c.Data()[HdLength..] == payload;
  }

  lemma HeaderMoved(mem: seq<Byte>, pos: nat, last: nat, h: seq<Byte>, payload: seq<Byte>)
    requires 1 <= pos && pos + HdLength <= last <= |mem| && |h| == HdLength && mem[pos + HdLength..last] == payload
    ensures
      var m := Put(mem, pos - 1, h);
      && m[pos - 1..last][..HdLength] == h && m[pos - 1..last][HdLength + 1..] == payload
      && m[pos - 1..last][HdLength] == mem[pos..last][HdLength - 1]
      && m[pos - 1..pos - 1 + HdLength] == h && m[pos + HdLength..last] == payload
  {}

  lemma PadSpliced(mem: seq<Byte>, at: nat, last: nat, h: seq<Byte>, payload: seq<Byte>, p: Byte, fill: seq<Byte>)
    requires |h| == HdLength && at + HdLength + 1 <= last && last + |fill| <= |mem|
    requires mem[at..at + HdLength] == h && mem[at + HdLength + 1..last] == payload
    ensures
      var m := Put(mem[at + HdLength := p], last, fill);
      m[at..last + |fill|] == h + ([p] + payload + fill)
  {
    var m := Put(mem[at + HdLength := p], last, fill);
    assert m[at..last + |fill|] == m[at..at + HdLength] + [m[at + HdLength]] + m[at + HdLength + 1..last] + m[last..last + |fill|];
  }

  /** nghttp2_frame_add_pad: pads the first frame of the chain. */
  method AddPad(b: BufChain, padlen: nat, ghost fs: seq<Frame>)
    requires b.Valid() && fs != [] && b.Contents() == FramesBytes(fs) && b.chunks[0].Data() == FrameBytes(fs[0])
    requires |fs[0].payload| < 0x100_0000 && padlen <= 256 && b.chunks[0].pos >= 1
    requires padlen > 0 ==> b.chunks[0].last + padlen - 1 <= |b.chunks[0].mem|
    modifies b`chunks
    ensures b.Valid()
    ensures b.Contents() == FramesBytes(if padlen == 0 then fs else [PaddedFrame(fs[0], padlen)] + fs[1..])
  {
    if padlen == 0 {
      return;
    }
    var d := SetPad(b.chunks[0], padlen, false, fs[0]);
    FirstReplaced(b.chunks, d, fs, PaddedFrame(fs[0], padlen));
    b.chunks := b.chunks[0 := d];
  }

  lemma FirstReplaced(chunks: seq<Chunk>, d: Chunk, fs: seq<Frame>, f: Frame)
    requires chunks != [] && (forall c | c in chunks :: c.Valid()) && d.Valid() && fs != []
    requires Flatten(chunks) == FramesBytes(fs) && chunks[0].Data() == FrameBytes(fs[0]) && d.Data() == FrameBytes(f)
    ensures (forall c | c in chunks[0 := d] :: c.Valid()) && Flatten(chunks[0 := d]) == FramesBytes([f] + fs[1..])
  {
    FlattenFirst(chunks);
    FlattenFirst(chunks[0 := d]);
    assert chunks[0 := d][1..] == chunks[1..];
    FirstApart(fs);
    FirstApart([f] + fs[1..]);
    assert ([f] + fs[1..])[1..] == fs[1..];
    SameTail(FrameBytes(fs[0]), Flatten(chunks[1..]), FramesBytes(fs[1..]));
  }

  lemma SameTail(a: seq<Byte>, x: seq<Byte>, y: seq<Byte>)
    requires a + x == a + y
    ensures x == y
  {
    assert x == (a + x)[|a|..] == (a + y)[|a|..] == y;
  }

  lemma FirstApart(fs: seq<Frame>)
    requires fs != []
    ensures FramesBytes(fs) == FrameBytes(fs[0]) + FramesBytes(fs[1..])
  {
    assert fs == [fs[0]] + fs[1..];
    FramesConcat([fs[0]], fs[1..]);
    assert [fs[0]][..0] == [];
  }

  // --------------------------------------------------------------------- receiving

  /** The payload without padding (section 6.1 of RFC 7540), if the padding is not too long. */
  function Unpadded(f: Frame): Option<seq<Byte>>
  {
    if !Has(f.flags, Padded) then Some(f.payload)
    else if f.payload == [] || f.payload[0] > |f.payload| - 1 then None
    else Some(f.payload[1..|f.payload| - f.payload[0]])
  }

  /** Padding strips back to the payload that was padded, and is all the frame grew by. */
  lemma PaddingStrips(f: Frame, padlen: nat)
    requires 1 <= padlen <= 256
    ensures Unpadded(PaddedFrame(f, padlen)) == Some(f.payload)
    ensures |PaddedFrame(f, padlen).payload| == |f.payload| + padlen
    ensures forall g: Flag :: g != Padded ==> Has(PaddedFrame(f, padlen).flags, g) == Has(f.flags, g)
  {
    OneFlagChanges(f.flags, Padded);
    var p := PaddedFrame(f, padlen).payload;
    assert p[1..|p| - p[0]] == f.payload;
  }
}
