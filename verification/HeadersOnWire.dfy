/**
 * A header list from one end of a connection to the other: it is deflated, put into
 * HEADERS and CONTINUATION frames (lib/nghttp2_frame.c), padded, read back as frames and
 * inflated piece by piece.
 */
module HeadersOnWire {
  import opened Bytes
  import opened Bufs
  import opened Framing
  import opened HpackTable
  import opened HpackContext
  import opened HpackEncoder
  import opened HpackDecoder
  import opened HpackFragmentation
  import opened HpackDeflater
  import opened HpackConnection
  import Codec = HuffmanCodec

  /** nghttp2_priority_spec. */
  datatype PrioritySpec = PrioritySpec(stream: nat, weight: nat, exclusive: bool)
  {
    predicate Valid() { stream < 0x8000_0000 && 1 <= weight <= 256 }
  }

  /** NGHTTP2_PRIORITY_SPECLEN. */
  const SpecLength: nat := 5

  /** 31 bits of stream identifier behind the exclusive bit, and the weight less one. */
  function SpecBytes(p: PrioritySpec): (s: seq<Byte>)
    requires p.Valid()
    ensures |s| == SpecLength
  {
    BigEndian(4, p.stream + if p.exclusive then 0x8000_0000 else 0) + [p.weight - 1]
  }

  /** nghttp2_frame_pack_priority_spec. */
  method PackPrioritySpec(mem0: seq<Byte>, at: nat, p: PrioritySpec) returns (mem: seq<Byte>)
    requires p.Valid() && at + SpecLength <= |mem0|
    ensures mem == Put(mem0, at, SpecBytes(p))
  {
    mem := Put(mem0, at, BigEndian(4, p.stream));
    HighBit(p.stream);
    if p.exclusive {
      mem := mem[at := mem[at] + 0x80];
    }
    mem := mem[at + 4 := p.weight - 1];
  }

  /** Setting the highest bit of the first octet adds 2^31. */
  lemma HighBit(v: nat)
    requires v < 0x8000_0000
    ensures BigEndian(4, v)[0] < 0x80
    ensures BigEndian(4, v + 0x8000_0000) == BigEndian(4, v)[0 := BigEndian(4, v)[0] + 0x80]
  {
    var w := v + 0x8000_0000;
    assert w / 256 == v / 256 + 0x80_0000 && w % 256 == v % 256;
    assert w / 256 / 256 == v / 256 / 256 + 0x8000 && w / 256 % 256 == v / 256 % 256;
    assert w / 256 / 256 / 256 == v / 256 / 256 / 256 + 0x80 && w / 256 / 256 % 256 == v / 256 / 256 % 256;
    assert v / 256 / 256 / 256 < 0x80;
    FourDigits(v);
    FourDigits(w);
  }

  lemma FourDigits(v: nat)
    ensures BigEndian(4, v) == [v / 256 / 256 / 256 % 256, v / 256 / 256 % 256, v / 256 % 256, v % 256]
  {
    assert BigEndian(0, v / 256 / 256 / 256 / 256) == [];
    assert BigEndian(1, v / 256 / 256 / 256) == [v / 256 / 256 / 256 % 256];
    assert BigEndian(2, v / 256 / 256) == [v / 256 / 256 / 256 % 256, v / 256 / 256 % 256];
    assert BigEndian(3, v / 256) == [v / 256 / 256 / 256 % 256, v / 256 / 256 % 256, v / 256 % 256];
  }

  /** nghttp2_frame_unpack_priority_spec. */
  function UnpackPrioritySpec(s: seq<Byte>): PrioritySpec
    requires |s| >= SpecLength
  {
    PrioritySpec(Number(s[..4]) % 0x8000_0000, s[4] as int + 1, s[0] >= 0x80)
  }

  lemma PriorityRoundTrip(p: PrioritySpec, rest: seq<Byte>)
    requires p.Valid()
    ensures UnpackPrioritySpec(SpecBytes(p) + rest) == p
  {
    var v := p.stream + if p.exclusive then 0x8000_0000 else 0;
    var s := SpecBytes(p) + rest;
    assert s[..4] == BigEndian(4, v);
    BigEndianNumber(4, v);
    assert Pow256(1) == 256 && Pow256(2) == 0x1_0000 && Pow256(3) == 0x100_0000 && Pow256(4) == 0x1_0000_0000;
    UniqueRemainder(v, 0x1_0000_0000, 0, v);
    UniqueRemainder(v, 0x8000_0000, if p.exclusive then 1 else 0, p.stream);
    assert s[0] == BigEndian(4, v)[0] && s[4] == p.weight - 1;
    HighBit(p.stream);
  }

  // ------------------------------------------------------------------------- sending

  /** An empty chain with room for a frame header and `n` octets in front of a header block. */
  ghost predicate Ready(b: BufChain, n: nat)
    reads b
  {
    && b.Valid() && Codec.Roomy(b) && b.cur == 0 && b.chunks[0].pos == b.chunks[0].last == b.offset
    && HdLength + 1 <= b.offset && b.offset + n <= b.chunkLength < 0x100_0000
  }

  /** The chain holds the pieces of a block, with `n` octets free in front of the first. */
  ghost predicate Holds(b: BufChain, n: nat, pieces: seq<seq<Byte>>)
    reads b
  {
    && b.Valid() && |pieces| == b.cur + 1 && b.chunks[0].pos == b.offset && b.offset + n <= b.chunks[0].last
    && pieces[0] == b.chunks[0].mem[b.offset + n..b.chunks[0].last]
    && (forall i | 0 < i <= b.cur :: pieces[i] == b.chunks[i].Data() && b.chunks[i].pos == b.offset)
  }

  /** Leaves `n` octets free in front of what is written next. */
  method OpenGap(b: BufChain, n: nat)
    requires Ready(b, n)
    modifies b`chunks
    ensures b.Valid() && b.Contents() == [] && b.chunks[0].pos == b.offset + n
  {
    var c := b.chunks[0];
    b.chunks := b.chunks[0 := c.(pos := c.pos + n, last := c.pos + n)];
    FlattenEmpty(b.chunks);
  }

  /** Takes the free octets back in. */
  method CloseGap(b: BufChain, n: nat) returns (ghost pieces: seq<seq<Byte>>)
    requires b.Valid() && b.chunks[0].pos == b.offset + n && forall i | 0 < i < |b.chunks| :: b.chunks[i].pos == b.offset
    modifies b`chunks
    ensures Holds(b, n, pieces) && Concat(pieces) == old(b.Contents())
  {
    pieces := Pieces(b.chunks, b.cur + 1);
    PiecesConcat(b.chunks, b.cur + 1);
    UsedChunks(b);
    var c := b.chunks[0];
    b.chunks := b.chunks[0 := c.(pos := c.pos - n)];
  }

  /** Deflates a header list behind `n` octets that are written later. */
  method DeflateBehind(b: BufChain, d: Deflater, n: nat, fs: seq<Field>) returns (r: Status, ghost pieces: seq<seq<Byte>>)
    requires d.Valid() && Ready(b, n) && forall f | f in fs :: Addressable(f.name) && Addressable(f.value)
    modifies d, d.ctx, d.ctx.ring, d.ctx.ring.buffer, b
    ensures d.Valid() && (d.ctx.ring.buffer == old(d.ctx.ring.buffer) || fresh(d.ctx.ring.buffer))
    ensures r.Ok? ==> Holds(b, n, pieces) && Concat(pieces) == BlockBytes(old(d.State()), fs)
    ensures r.Ok? ==> d.State() == AfterBlock(old(d.State()), fs)
    ensures r.Fail? ==> r == Fail(HeaderComp)
  {
    pieces := [];
    OpenGap(b, n);
    r := d.DeflateHdBufs(b, fs);
    if r.Fail? {
      r := Fail(HeaderComp);
    } else {
      pieces := CloseGap(b, n);
    }
  }

  /** The chunks in use hold everything. */
  lemma UsedChunks(b: BufChain)
    requires b.Valid()
    ensures b.Contents() == Flatten(b.chunks[..b.cur + 1])
  {
    assert b.chunks == b.chunks[..b.cur + 1] + b.chunks[b.cur + 1..];
    FlattenConcat(b.chunks[..b.cur + 1], b.chunks[b.cur + 1..]);
    FlattenEmpty(b.chunks[b.cur + 1..]);
  }

  /** The pieces with `front` in front of the first. */
  function Fronted(front: seq<Byte>, pieces: seq<seq<Byte>>): (r: seq<seq<Byte>>)
    requires pieces != []
    ensures |r| == |pieces| && r[0] == front + pieces[0] && r[1..] == pieces[1..]
  {
    [front + pieces[0]] + pieces[1..]
  }

  /** The frames of a header block, with `front` in front of the block. */
  function BlockFrames(hd: FrameHd, front: seq<Byte>, pieces: seq<seq<Byte>>): seq<Frame>
    requires pieces != []
  {
    HeaderFrames(hd, Fronted(front, pieces), |pieces|)
  }

  /** The chain holds these frames, and its first chunk the first of them. */
  ghost predicate Sends(b: BufChain, frames: seq<Frame>)
    reads b
  {
    && b.Valid() && frames != [] && b.Contents() == FramesBytes(frames) && b.chunks[0].Data() == FrameBytes(frames[0])
    && HdLength < b.offset && b.chunks[0].pos == b.offset - HdLength && forall f | f in frames :: |f.payload| <= b.chunkLength - b.offset
  }

  /** Writes `front` and puts the frame headers in place. */
  method FrameBlock(b: BufChain, hd: FrameHd, front: seq<Byte>, ghost pieces: seq<seq<Byte>>)
    requires Holds(b, |front|, pieces) && HdLength + 1 <= b.offset <= b.chunkLength < 0x100_0000
    modifies b`chunks
    ensures Sends(b, BlockFrames(hd, front, pieces))
  {
    var c := b.chunks[0];
    var mem := Put(c.mem, c.pos, front);
    FrontWritten(c, front);
    b.chunks := b.chunks[0 := c.(mem := mem)];
    assert Pieces(b.chunks, b.cur + 1) == Fronted(front, pieces) by { PiecesFronted(b, front, pieces); }
    ghost var frames := BlockFrames(hd, front, pieces);
    assert forall f | f in frames :: |f.payload| <= b.chunkLength - b.offset by {
      PayloadsFit(hd, Fronted(front, pieces), b.chunkLength - b.offset);
    }
    PackHeadersShared(b, hd);
    assert frames[0] == FrameAt(hd, Fronted(front, pieces), 0);
  }

  lemma PayloadsFit(hd: FrameHd, pieces: seq<seq<Byte>>, size: nat)
    requires forall i | 0 <= i < |pieces| :: |pieces[i]| <= size
    ensures forall f | f in HeaderFrames(hd, pieces, |pieces|) :: |f.payload| <= size && f.stream == hd.stream
  {
    var fs := HeaderFrames(hd, pieces, |pieces|);
    forall f | f in fs ensures |f.payload| <= size && f.stream == hd.stream {
      var i :| 0 <= i < |fs| && fs[i] == f;
      assert f == FrameAt(hd, pieces, i);
    }
  }

  lemma FrontWritten(c: Chunk, front: seq<Byte>)
    requires c.Valid() && c.pos + |front| <= c.last
    ensures
      var d := c.(mem := Put(c.mem, c.pos, front));
      d.Valid() && d.Data() == front + c.mem[c.pos + |front|..c.last]
  {
    var m, at := Put(c.mem, c.pos, front), c.pos + |front|;
    assert m[c.pos..at] == front && m[at..c.last] == c.mem[at..c.last];
    assert m[c.pos..c.last] == m[c.pos..at] + m[at..c.last];
  }

  lemma PiecesFronted(b: BufChain, front: seq<Byte>, pieces: seq<seq<Byte>>)
    requires b.Valid() && |pieces| == b.cur + 1 && b.chunks[0].Data() == front + pieces[0]
    requires forall i | 0 < i <= b.cur :: pieces[i] == b.chunks[i].Data()
    ensures Pieces(b.chunks, b.cur + 1) == Fronted(front, pieces)
  {}

  /** The frames of a header list, with `front` in front of its block. */
  method PackBlock(b: BufChain, d: Deflater, hd: FrameHd, front: seq<Byte>, fs: seq<Field>)
    returns (r: Status, ghost pieces: seq<seq<Byte>>)
    requires d.Valid() && Ready(b, |front|) && forall f | f in fs :: Addressable(f.name) && Addressable(f.value)
    modifies d, d.ctx, d.ctx.ring, d.ctx.ring.buffer, b
    ensures d.Valid() && (r.Fail? ==> r == Fail(HeaderComp))
    ensures r.Ok? ==> pieces != [] && Concat(pieces) == BlockBytes(old(d.State()), fs)
    ensures r.Ok? ==> d.State() == AfterBlock(old(d.State()), fs)
    ensures r.Ok? ==> Sends(b, BlockFrames(hd, front, pieces))
  {
    r, pieces := DeflateBehind(b, d, |front|, fs);
    if r.Ok? {
      FrameBlock(b, hd, front, pieces);
    }
  }

  /** nghttp2_frame_pack_headers. */
  method PackHeaders(b: BufChain, d: Deflater, hd: FrameHd, pri: PrioritySpec, fs: seq<Field>)
    returns (r: Status, ghost pieces: seq<seq<Byte>>)
    requires d.Valid() && Ready(b, SpecLength) && pri.Valid()
    requires forall f | f in fs :: Addressable(f.name) && Addressable(f.value)
    modifies d, d.ctx, d.ctx.ring, d.ctx.ring.buffer, b
    ensures d.Valid() && (r.Fail? ==> r == Fail(HeaderComp))
    ensures r.Ok? ==> pieces != [] && Concat(pieces) == BlockBytes(old(d.State()), fs)
    ensures r.Ok? ==> d.State() == AfterBlock(old(d.State()), fs)
    ensures r.Ok? ==> Sends(b, BlockFrames(hd, if Has(hd.flags, WithPriority) then SpecBytes(pri) else [], pieces))
  {
    var front: seq<Byte> := [];
    if Has(hd.flags, WithPriority) {
      front := PackPrioritySpec(Fill(SpecLength), 0, pri);
      assert front == SpecBytes(pri);
    }
    r, pieces := PackBlock(b, d, hd, front, fs);
  }

  /** nghttp2_frame_pack_push_promise. */
  method PackPushPromise(b: BufChain, d: Deflater, hd: FrameHd, promised: nat, fs: seq<Field>)
    returns (r: Status, ghost pieces: seq<seq<Byte>>)
    requires d.Valid() && Ready(b, 4) && forall f | f in fs :: Addressable(f.name) && Addressable(f.value)
    modifies d, d.ctx, d.ctx.ring, d.ctx.ring.buffer, b
    ensures d.Valid() && (r.Fail? ==> r == Fail(HeaderComp))
    ensures r.Ok? ==> pieces != [] && Concat(pieces) == BlockBytes(old(d.State()), fs)
    ensures r.Ok? ==> d.State() == AfterBlock(old(d.State()), fs)
    ensures r.Ok? ==> Sends(b, BlockFrames(hd, BigEndian(4, promised), pieces))
  {
    r, pieces := PackBlock(b, d, hd, BigEndian(4, promised), fs);
  }

  /** What is sent for a block: its frames, the first of them padded. */
  function SentFrames(hd: FrameHd, front: seq<Byte>, pieces: seq<seq<Byte>>, padlen: nat): (fs: seq<Frame>)
    requires pieces != [] && padlen <= 256
    ensures fs != []
  {
    var fs := BlockFrames(hd, front, pieces);
    if padlen == 0 then fs else [PaddedFrame(fs[0], padlen)] + fs[1..]
  }

  // ----------------------------------------------------------------------- receiving

  /** The number of octets in front of the header block in a frame. */
  function FrontLength(f: Frame): nat
  {
    if f.kind == KindPushPromise then 4 else if Has(f.flags, WithPriority) then SpecLength else 0
  }

  /** The pieces of a header block that its frames carry (sections 6.2, 6.6 and 6.10 of RFC 7540). */
  function Fragments(fs: seq<Frame>): Option<seq<seq<Byte>>>
    requires fs != []
  {
    match Unpadded(fs[0])
    case None => None
    case Some(p) => if |p| < FrontLength(fs[0]) then None else Some([p[FrontLength(fs[0])..]] + Payloads(fs[1..]))
  }

  function Payloads(fs: seq<Frame>): (r: seq<seq<Byte>>)
    ensures |r| == |fs| && forall i | 0 <= i < |fs| :: r[i] == fs[i].payload
  {
    if fs == [] then [] else [fs[0].payload] + Payloads(fs[1..])
  }

  /** The frames of a block form one, and the receiver gets the pieces out of them, padded or not. */
  lemma BlockIsReceived(hd: FrameHd, front: seq<Byte>, pieces: seq<seq<Byte>>, padlen: nat)
    requires pieces != [] && hd.kind in {KindHeaders, KindPushPromise} && Has(hd.flags, Flag.EndHeaders) && !Has(hd.flags, Padded)
    requires |front| == if hd.kind == KindPushPromise then 4 else if Has(hd.flags, WithPriority) then SpecLength else 0
    requires padlen <= 256
    ensures
      var sent := SentFrames(hd, front, pieces, padlen);
      IsHeaderBlock(sent) && sent[0].stream == hd.stream && Fragments(sent) == Some(pieces)
  {
    PlainBlockIsReceived(hd, front, pieces);
    if padlen > 0 { PaddedBlock(BlockFrames(hd, front, pieces), padlen); }
  }

  lemma PlainBlockIsReceived(hd: FrameHd, front: seq<Byte>, pieces: seq<seq<Byte>>)
    requires pieces != [] && hd.kind in {KindHeaders, KindPushPromise} && Has(hd.flags, Flag.EndHeaders) && !Has(hd.flags, Padded)
    requires |front| == if hd.kind == KindPushPromise then 4 else if Has(hd.flags, WithPriority) then SpecLength else 0
    ensures
      var fs := BlockFrames(hd, front, pieces);
      IsHeaderBlock(fs) && fs[0].stream == hd.stream && !Has(fs[0].flags, Padded) && Fragments(fs) == Some(pieces)
  {
    var fs := BlockFrames(hd, front, pieces);
    FramesFormBlock(hd, Fronted(front, pieces));
    assert fs[0].payload == front + pieces[0] && (front + pieces[0])[|front|..] == pieces[0];
    assert [pieces[0]] + Payloads(fs[1..]) == pieces;
  }

  /** Padding the first frame does not matter to the receiver. */
  lemma PaddedBlock(fs: seq<Frame>, padlen: nat)
    requires fs != [] && IsHeaderBlock(fs) && !Has(fs[0].flags, Padded) && 1 <= padlen <= 256
    ensures
      var sent := [PaddedFrame(fs[0], padlen)] + fs[1..];
      IsHeaderBlock(sent) && sent[0].stream == fs[0].stream && Fragments(sent) == Fragments(fs)
  {
    var sent := [PaddedFrame(fs[0], padlen)] + fs[1..];
    PaddingStrips(fs[0], padlen);
    assert sent[1..] == fs[1..];
    forall i | 0 <= i < |sent| ensures Has(sent[i].flags, Flag.EndHeaders) <==> i == |sent| - 1 {
      assert i > 0 ==> sent[i] == fs[i];
      assert Has(fs[i].flags, Flag.EndHeaders) <==> i == |fs| - 1;
    }
  }

  /** The receiver of a header block: reads the frames and inflates their pieces one by one. */
  ghost function Receive(s: Decoder, wire: seq<Byte>): Option<Fed>
    requires s.Valid()
  {
    var (fs, rest) := ReadFrames(wire);
    if rest != [] || !IsHeaderBlock(fs) || Fragments(fs).None? then None
    else Some(Ended(FeedPieces(s, Fragments(fs).value)))
  }

  /**
   * A header list arrives: however its block is cut into frames and padded, the receiver
   * gets the same fields in the same order, and both ends keep equal tables, ready for the
   * next block.
   */
  lemma HeadersArrive(e: Encoder, s: Decoder, fs: seq<Field>, hd: FrameHd, front: seq<Byte>, pieces: seq<seq<Byte>>,
                      padlen: nat) returns (u: Decoder)
    requires Synced(e, s) && fs != [] && AllFit(e.dict, e.table, e.max, fs) && pieces != [] && padlen <= 256
    requires Concat(pieces) == BlockBytes(e, fs)
    requires hd.kind in {KindHeaders, KindPushPromise} && Has(hd.flags, Flag.EndHeaders) && !Has(hd.flags, Padded)
    requires |front| == if hd.kind == KindPushPromise then 4 else if Has(hd.flags, WithPriority) then SpecLength else 0
    requires forall f | f in SentFrames(hd, front, pieces, padlen) :: Writable(f)
    ensures
      Receive(s, FramesBytes(SentFrames(hd, front, pieces, padlen))) == Some(Fed(u, ReceivedAll(e.dict, e.max, fs)))
    ensures Synced(AfterBlock(e, fs), HpackConnection.EndHeaders(u)) && u.table == AfterBlock(e, fs).table
  {
    u := BlockDecodes(e, s, fs);
    FramesRoundTrip(SentFrames(hd, front, pieces, padlen));
    BlockIsReceived(hd, front, pieces, padlen);
    FragmentationIsInvisible(s, pieces);
  }

  // -------------------------------------------------------------------- there and back

  /**
   * session_headers_add_pad: `choice` is what the application answers when it is asked for a
   * padded length; one that is too short or too long is an error.
   */
  method AddChosenPad(b: BufChain, choice: nat, ghost hd: FrameHd, ghost front: seq<Byte>, ghost pieces: seq<seq<Byte>>)
    returns (r: Status, ghost padlen: nat, ghost sent: seq<Frame>)
    requires pieces != [] && Sends(b, BlockFrames(hd, front, pieces)) && b.chunkLength < 0x100_0000 && hd.stream < 0x8000_0000
    modifies b`chunks
    ensures b.Valid() && padlen <= 256 && (r.Fail? ==> r == Fail(CallbackFailure))
    ensures r.Ok? ==> sent == SentFrames(hd, front, pieces, padlen) && b.Contents() == FramesBytes(sent)
    ensures r.Ok? ==> forall f | f in sent :: Writable(f)
  {
    ghost var fs := BlockFrames(hd, front, pieces);
    assert fs[0] in fs;
    var length := b.chunks[0].last - b.chunks[0].pos - HdLength;
    assert length == |fs[0].payload|;
    var max := Min(b.chunkLength - b.offset, length + 256);
    var n: nat := 0;
    if length < max {
      if choice < length || choice > max {
        return Fail(CallbackFailure), 0, [];
      }
      n := choice - length;
    }
    padlen, sent := n, SentFrames(hd, front, pieces, n);
    SentAreWritable(hd, front, pieces, n, b.chunkLength - b.offset);
    AddPad(b, n, fs);
    r := Ok;
  }

  /** The padded frames are taken out of the chain. */
  method PadAndTake(b: BufChain, choice: nat, ghost hd: FrameHd, ghost front: seq<Byte>, ghost pieces: seq<seq<Byte>>)
    returns (r: Status, wire: seq<Byte>, ghost padlen: nat)
    requires pieces != [] && Sends(b, BlockFrames(hd, front, pieces)) && b.chunkLength < 0x100_0000 && hd.stream < 0x8000_0000
    modifies b`chunks
    ensures padlen <= 256 && (r.Fail? ==> r == Fail(CallbackFailure))
    ensures r.Ok? ==> wire == FramesBytes(SentFrames(hd, front, pieces, padlen))
    ensures r.Ok? ==> forall f | f in SentFrames(hd, front, pieces, padlen) :: Writable(f)
  {
    ghost var sent;
    r, padlen, sent := AddChosenPad(b, choice, hd, front, pieces);
    wire := b.Remove();
  }

  /** A field list that fits is packed, padded and sent, and arrives; both ends are in step for the next one. */
  method SendHeaders(b: BufChain, d: Deflater, hd: FrameHd, pri: PrioritySpec, fs: seq<Field>, choice: nat, ghost s: Decoder)
    returns (r: Status, wire: seq<Byte>, ghost u: Decoder)
    requires d.Valid() && Ready(b, SpecLength) && pri.Valid() && Synced(d.State(), s)
    requires forall f | f in fs :: Addressable(f.name) && Addressable(f.value)
    requires hd.kind == KindHeaders && Has(hd.flags, Flag.EndHeaders) && !Has(hd.flags, Padded) && hd.stream < 0x8000_0000
    modifies d, d.ctx, d.ctx.ring, d.ctx.ring.buffer, b
    ensures d.Valid() && (r.Fail? ==> r.error in {HeaderComp, CallbackFailure})
    ensures
      var e := old(d.State());
      r.Ok? && fs != [] && AllFit(e.dict, e.table, e.max, fs) ==>
        && Receive(s, wire) == Some(Fed(u, ReceivedAll(e.dict, e.max, fs)))
        && Synced(d.State(), HpackConnection.EndHeaders(u))
  {
    ghost var e, front := d.State(), if Has(hd.flags, WithPriority) then SpecBytes(pri) else [];
    ghost var pieces, padlen;
    wire, u := [], s;
    r, pieces := PackHeaders(b, d, hd, pri, fs);
    if r.Ok? {
      ghost var valid, state := d.Valid(), d.State();
      r, wire, padlen := PadAndTake(b, choice, hd, front, pieces);
      assert d.Valid() == valid && d.State() == state;
      if r.Ok? && fs != [] && AllFit(e.dict, e.table, e.max, fs) {
        u := HeadersArrive(e, s, fs, hd, front, pieces, padlen);
      }
    }
  }

  lemma SentAreWritable(hd: FrameHd, front: seq<Byte>, pieces: seq<seq<Byte>>, padlen: nat, size: nat)
    requires pieces != [] && padlen <= 256 && hd.stream < 0x8000_0000 && size < 0x100_0000
    requires
      var fs := BlockFrames(hd, front, pieces);
      |fs[0].payload| + padlen <= size && forall f | f in fs :: |f.payload| <= size
    ensures forall f | f in SentFrames(hd, front, pieces, padlen) :: Writable(f)
  {
    var fs, sent := BlockFrames(hd, front, pieces), SentFrames(hd, front, pieces, padlen);
    forall f | f in sent ensures Writable(f) {
      var i :| 0 <= i < |sent| && sent[i] == f;
      assert fs[i] == FrameAt(hd, Fronted(front, pieces), i) && fs[i] in fs;
    }
  }
}
