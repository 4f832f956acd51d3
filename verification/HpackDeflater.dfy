/**
 * The encoder as it runs (lib/nghttp2_hd.c): it searches the stored tables, writes
 * into a chunk chain and keeps its table in a ring buffer.
 */
module HpackDeflater {
  import opened Bytes
  import opened Bufs
  import opened HpackInteger
  import opened HpackTable
  import opened HpackContext
  import opened HpackEncoder
  import opened HuffmanTable
  import Codec = HuffmanCodec
  import Huffman = HuffmanCode

  // ------------------------------------------------------- what writing leaves behind

  /** A chain at one moment. */
  datatype Snap = Snap(chunks: seq<Chunk>, cur: nat, contents: seq<Byte>, avail: nat, atEnd: bool)

  ghost function SnapOf(b: BufChain): Snap
    requires b.Valid()
    reads b
  {
    Snap(b.chunks, b.cur, b.Contents(), b.CurAvail(), b.AtEnd())
  }

  /**
   * From `s` to `t` the octets `x` were appended, if `r` is `Ok`.  In a chain that is
   * limited to one chunk this succeeds iff they fit.
   */
  ghost predicate Appended(b: BufChain, s: Snap, t: Snap, r: Status, x: seq<Byte>)
  {
    && Grown(s.chunks, s.cur, t.chunks, t.cur, b.offset) && (s.atEnd ==> t.atEnd)
    && s.contents <= t.contents && (r.Ok? ==> t.contents == s.contents + x)
    && (b.maxChunk == 1 ==>
          |t.contents| + t.avail == |s.contents| + s.avail && (r.Ok? <==> |x| <= s.avail))
  }

  lemma AppendedThen(b: BufChain, s: Snap, t: Snap, u: Snap, r: Status, x: seq<Byte>, y: seq<Byte>)
    requires Appended(b, s, t, Ok, x) && Appended(b, t, u, r, y)
    ensures Appended(b, s, u, r, x + y)
  {
    GrownTransitive(s.chunks, s.cur, t.chunks, t.cur, u.chunks, u.cur, b.offset);
    assert r.Ok? ==> u.contents == s.contents + (x + y);
  }

  lemma AppendFails(b: BufChain, s: Snap, t: Snap, r: Status, x: seq<Byte>, y: seq<Byte>)
    requires Appended(b, s, t, r, x) && r.Fail?
    ensures Appended(b, s, t, r, x + y)
  {}

  /** Number of octets that size_t counts. */
  predicate Addressable(s: seq<Byte>) { |s| < Word }

  lemma ShortInt(first: Byte, n: nat, prefix: nat)
    requires n < Word
    ensures |EncodeInt(first, n, prefix)| <= 16
  {
    WordIsPower();
    Pow2Add(64, 6);
    assert Pow2(6) == 64;
    if n >= PrefixMax(prefix) { TailLength(n - PrefixMax(prefix), 10); }
  }

  /** Writes an integer through the sixteen-octet buffer the source uses. */
  method EmitInt(b: BufChain, first: Byte, n: nat, prefix: nat) returns (r: Status)
    requires b.Valid() && n < Word
    modifies b
    ensures b.Valid() && Appended(b, old(SnapOf(b)), SnapOf(b), r, EncodeInt(first, n, prefix))
  {
    ShortInt(first, n, prefix);
    var blocklen := CountEncodedLength(n, prefix);
    if 16 < blocklen {
      return Fail(HeaderComp);
    }
    var sb := EncodeLength(first, n, prefix);
    r := b.Add(sb);
  }

  method EmitTableSize(b: BufChain, size: nat) returns (r: Status)
    requires b.Valid() && size < Word
    modifies b
    ensures b.Valid() && Appended(b, old(SnapOf(b)), SnapOf(b), r, SizeUpdate(size))
  {
    r := EmitInt(b, 0x20, size, 5);
  }

  method EmitTwoSizes(b: BufChain, least: nat, size: nat) returns (r: Status)
    requires b.Valid() && least < Word && size < Word
    modifies b
    ensures b.Valid() && Appended(b, old(SnapOf(b)), SnapOf(b), r, SizeUpdate(least) + SizeUpdate(size))
  {
    ghost var s0 := SnapOf(b);
    r := EmitTableSize(b, least);
    if r.Fail? {
      AppendFails(b, s0, SnapOf(b), r, SizeUpdate(least), SizeUpdate(size));
      return;
    }
    ghost var s1 := SnapOf(b);
    r := EmitTableSize(b, size);
    AppendedThen(b, s0, s1, SnapOf(b), r, SizeUpdate(least), SizeUpdate(size));
  }

  /** Writes a string, Huffman encoded if that is shorter. */
  method EmitString(b: BufChain, s: seq<Byte>, syms: seq<Sym>) returns (r: Status)
    requires b.Valid() && Codec.Roomy(b) && Huffman.IsSymTable(syms) && Addressable(s)
    modifies b
    ensures b.Valid() && Appended(b, old(SnapOf(b)), SnapOf(b), r, EncodeString(s))
  {
    var enclen := Codec.HuffEncodeCount(s, syms);
    var huffman := enclen < |s|;
    if !huffman {
      enclen := |s|;
    }
    ghost var s0 := SnapOf(b);
    ghost var head := EncodeInt(if huffman then 0x80 else 0, enclen, 7);
    r := EmitInt(b, if huffman then 0x80 else 0, enclen, 7);
    if r.Fail? {
      AppendFails(b, s0, SnapOf(b), r, head, if huffman then Huffman.Encode(s) else s);
      return;
    }
    ghost var s1 := SnapOf(b);
    r := EmitPayload(b, s, huffman, syms);
    AppendedThen(b, s0, s1, SnapOf(b), r, head, if huffman then Huffman.Encode(s) else s);
  }

  method EmitPayload(b: BufChain, s: seq<Byte>, huffman: bool, syms: seq<Sym>) returns (r: Status)
    requires b.Valid() && Codec.Roomy(b) && Huffman.IsSymTable(syms)
    modifies b
    ensures b.Valid()
    ensures Appended(b, old(SnapOf(b)), SnapOf(b), r, if huffman then Huffman.Encode(s) else s)
  {
    if huffman {
      Huffman.EncodeLength(s);
      r := Codec.HuffEncode(b, s, syms);
    } else {
      r := b.Add(s);
    }
  }

  method EmitByte(b: BufChain, x: Byte) returns (r: Status)
    requires b.Valid() && Codec.Roomy(b)
    modifies b
    ensures b.Valid() && Appended(b, old(SnapOf(b)), SnapOf(b), r, [x])
  {
    r := b.AddB(x);
  }

  method EmitIntAndString(b: BufChain, first: Byte, n: nat, prefix: nat, value: seq<Byte>, syms: seq<Sym>)
    returns (r: Status)
    requires b.Valid() && Codec.Roomy(b) && Huffman.IsSymTable(syms) && Addressable(value) && n < Word
    modifies b
    ensures b.Valid() && Appended(b, old(SnapOf(b)), SnapOf(b), r, EncodeInt(first, n, prefix) + EncodeString(value))
  {
    ghost var s0, head := SnapOf(b), EncodeInt(first, n, prefix);
    r := EmitInt(b, first, n, prefix);
    if r.Fail? {
      AppendFails(b, s0, SnapOf(b), r, head, EncodeString(value));
      return;
    }
    ghost var s1 := SnapOf(b);
    r := EmitString(b, value, syms);
    AppendedThen(b, s0, s1, SnapOf(b), r, head, EncodeString(value));
  }

  method EmitIndexedName(b: BufChain, index: nat, value: seq<Byte>, mode: Mode, syms: seq<Sym>) returns (r: Status)
    requires b.Valid() && Codec.Roomy(b) && Huffman.IsSymTable(syms) && Addressable(value) && index + 1 < Word
    modifies b
    ensures b.Valid() && Appended(b, old(SnapOf(b)), SnapOf(b), r, IndexedNameForm(index, value, mode))
  {
    r := EmitIntAndString(b, FirstByte(mode), index + 1, IndexPrefix(mode), value, syms);
  }

  method EmitNewName(b: BufChain, f: Field, mode: Mode, syms: seq<Sym>) returns (r: Status)
    requires b.Valid() && Codec.Roomy(b) && Huffman.IsSymTable(syms) && Addressable(f.name) && Addressable(f.value)
    modifies b
    ensures b.Valid() && Appended(b, old(SnapOf(b)), SnapOf(b), r, NewNameForm(f.name, f.value, mode))
  {
    ghost var s0, head := SnapOf(b), [FirstByte(mode)] + EncodeString(f.name);
    r := EmitFirstAndName(b, f, mode, syms);
    if r.Fail? {
      AppendFails(b, s0, SnapOf(b), r, head, EncodeString(f.value));
      return;
    }
    ghost var s1 := SnapOf(b);
    r := EmitString(b, f.value, syms);
    AppendedThen(b, s0, s1, SnapOf(b), r, head, EncodeString(f.value));
  }

  method EmitFirstAndName(b: BufChain, f: Field, mode: Mode, syms: seq<Sym>) returns (r: Status)
    requires b.Valid() && Codec.Roomy(b) && Huffman.IsSymTable(syms) && Addressable(f.name)
    modifies b
    ensures b.Valid() && Appended(b, old(SnapOf(b)), SnapOf(b), r, [FirstByte(mode)] + EncodeString(f.name))
  {
    ghost var s0 := SnapOf(b);
    r := EmitByte(b, FirstByte(mode));
    if r.Fail? {
      AppendFails(b, s0, SnapOf(b), r, [FirstByte(mode)], EncodeString(f.name));
      return;
    }
    ghost var s1 := SnapOf(b);
    r := EmitString(b, f.name, syms);
    AppendedThen(b, s0, s1, SnapOf(b), r, [FirstByte(mode)], EncodeString(f.name));
  }

  class Deflater {
    const dict: Dictionary
    const syms: seq<Sym>
    const ctx: HdContext
    const ownMax: nat
    var leastMax: nat
    var notify: bool

    ghost predicate Valid()
      reads this, ctx, ctx.ring, ctx.ring.buffer
    {
      ctx.Valid() && State().Valid() && ownMax <= UINT32_MAX && Huffman.IsSymTable(syms)
    }

    /** The encoder this object stands for. */
    ghost function State(): Encoder
      requires ctx.Valid()
      reads this, ctx, ctx.ring, ctx.ring.buffer
    {
      Encoder(dict, ctx.Table(), ctx.bufsizeMax, ownMax, leastMax, notify)
    }

    /** nghttp2_hd_deflate_init2. */
    constructor (dict: Dictionary, syms: seq<Sym>, ownMax: nat)
      requires dict.Valid() && Huffman.IsSymTable(syms) && ownMax <= UINT32_MAX
      ensures Valid() && State() == InitialEncoder(dict, ownMax) && !ctx.bad
      ensures fresh(ctx) && fresh(ctx.ring) && fresh(ctx.ring.buffer)
    {
      this.dict := dict;
      this.syms := syms;
      this.ownMax := ownMax;
      this.ctx := new HdContext();
      this.notify := ownMax < 4096;
      this.leastMax := UINT32_MAX;
      new;
      if ownMax < 4096 {
        ctx.SetLimit(ownMax);
      }
    }

    /** nghttp2_hd_deflate_change_table_size. */
    method ChangeTableSize(settings: nat)
      requires Valid()
      modifies this, ctx, ctx.ring
      ensures Valid() && State() == ChangeLimit(old(State()), settings)
      ensures ctx.ring.buffer == old(ctx.ring.buffer) && ctx.bad == old(ctx.bad)
    {
      EncoderStaysValid(State(), [], settings);
      var next := Min(settings, ownMax);
      leastMax := Min(leastMax, next);
      notify := true;
      ctx.SetLimit(next);
    }

    method SearchStaticTable(token: nat, value: seq<Byte>, mode: Mode) returns (r: Found)
      requires |dict.fixed| == StaticLength
      ensures r == SearchStatic(dict, token, value, mode)
    {
      if mode.NeverIndexing? {
        return Found(token, false);
      }
      var i := token;
      while i < StaticLength && dict.fixed[i].token == token
        invariant SearchStaticFrom(dict, i, token, value) == SearchStaticFrom(dict, token, token, value)
      {
        if dict.fixed[i].value == value {
          return Found(i, true);
        }
        i := i + 1;
      }
      return Found(token, false);
    }

    method SearchTables(f: Field, token: int, mode: Mode) returns (r: Found)
      requires Valid() && token == dict.token(f.name)
      ensures r == Search(dict, ctx.Table(), f, mode)
    {
      r := Found(-1, false);
      if 0 <= token < StaticLength {
        r := SearchStaticTable(token, f.value, mode);
        if r.matched {
          return;
        }
      }
      r := SearchDynamicTable(f, token, mode, r.index);
    }

    method SearchDynamicTable(f: Field, token: int, mode: Mode, start: int) returns (r: Found)
      requires ctx.Valid()
      ensures r == SearchDynamicFrom(ctx.Table(), 0, start, f, token, mode)
    {
      var best, i := start, 0;
      while i < ctx.ring.len
        invariant i <= ctx.ring.len
        invariant SearchDynamicFrom(ctx.Table(), i, best, f, token, mode) ==
                  SearchDynamicFrom(ctx.Table(), 0, start, f, token, mode)
      {
        var e := ctx.ring.Get(i);
        if !(e.token != token || (token == -1 && e.name != f.name)) {
          if best == -1 {
            best := i + StaticLength;
          }
          if !mode.NeverIndexing? && e.value == f.value {
            return Found(i + StaticLength, true);
          }
        }
        i := i + 1;
      }
      return Found(best, false);
    }

    /** Adds the field to the table if its representation asks for it. */
    method UpdateTable(f: Field, token: int, mode: Mode, found: Found)
      requires Valid() && token == dict.token(f.name) && mode == ChooseMode(dict, f, ctx.bufsizeMax)
      requires found == Search(dict, ctx.Table(), f, mode)
      modifies ctx`bufsize, ctx.ring, ctx.ring.buffer
      ensures Valid() && (ctx.ring.buffer == old(ctx.ring.buffer) || fresh(ctx.ring.buffer))
      ensures ctx.Table() == FieldTable(dict, old(ctx.Table()), ctx.bufsizeMax, f)
    {
      FieldTableValid(dict, ctx.Table(), ctx.bufsizeMax, f);
      if !found.matched && mode.WithIndexing? {
        ctx.AddIncremental(Entry(f.name, f.value, token));
      }
    }

    /** Writes the representation that a search of the table `t` led to. */
    method WriteField(b: BufChain, f: Field, mode: Mode, found: Found, ghost t: seq<Entry>, ghost max: nat) returns (r: Status)
      requires b.Valid() && Codec.Roomy(b) && Addressable(f.name) && Addressable(f.value) && Huffman.IsSymTable(syms)
      requires |dict.fixed| == StaticLength && mode == ChooseMode(dict, f, max) && found == Search(dict, t, f, mode)
      requires -1 <= found.index && found.index + 1 < Word && (found.matched ==> found.index >= 0)
      modifies b
      ensures b.Valid() && Appended(b, old(SnapOf(b)), SnapOf(b), r, FieldBytes(dict, t, max, f))
    {
      if found.matched {
        r := EmitInt(b, 0x80, found.index + 1, 7);
      } else if found.index == -1 {
        r := EmitNewName(b, f, mode, syms);
      } else {
        r := EmitIndexedName(b, found.index, f.value, mode, syms);
      }
    }

    /** deflate_nv: chooses a representation, updates the table and writes the field. */
    method DeflateNv(b: BufChain, f: Field) returns (r: Status)
      requires Valid() && b.Valid() && Codec.Roomy(b) && Addressable(f.name) && Addressable(f.value)
      modifies ctx`bufsize, ctx.ring, ctx.ring.buffer, b
      ensures Valid() && b.Valid() && (ctx.ring.buffer == old(ctx.ring.buffer) || fresh(ctx.ring.buffer))
      ensures ctx.Table() == FieldTable(dict, old(ctx.Table()), ctx.bufsizeMax, f)
      ensures Appended(b, old(SnapOf(b)), SnapOf(b), r, FieldBytes(dict, old(ctx.Table()), ctx.bufsizeMax, f))
    {
      var token := dict.token(f.name);
      var mode := ChooseMode(dict, f, ctx.bufsizeMax);
      var found := SearchTables(f, token, mode);
      FoundIsSmall(dict, ctx.Table(), ctx.bufsizeMax, f, mode);
      UpdateTable(f, token, mode, found);
      r := WriteField(b, f, mode, found, old(ctx.Table()), ctx.bufsizeMax);
    }

    method EmitAnnouncement(b: BufChain) returns (r: Status)
      requires Valid() && b.Valid()
      modifies this, b
      ensures Valid() && b.Valid() && !notify
      ensures leastMax == if old(notify) then UINT32_MAX else old(leastMax)
      ensures Appended(b, old(SnapOf(b)), SnapOf(b), r, Announcement(old(State())))
    {
      r := Ok;
      if notify {
        var least := leastMax;
        notify, leastMax := false, UINT32_MAX;
        if ctx.bufsizeMax > least {
          r := EmitTwoSizes(b, least, ctx.bufsizeMax);
        } else {
          r := EmitTableSize(b, ctx.bufsizeMax);
        }
      }
    }

    method DeflateFields(b: BufChain, fs: seq<Field>) returns (r: Status)
      requires Valid() && b.Valid() && Codec.Roomy(b)
      requires forall f | f in fs :: Addressable(f.name) && Addressable(f.value)
      modifies ctx`bufsize, ctx.ring, ctx.ring.buffer, b
      ensures Valid() && b.Valid() && (ctx.ring.buffer == old(ctx.ring.buffer) || fresh(ctx.ring.buffer))
      ensures r.Ok? ==> ctx.Table() == FieldsTable(dict, old(ctx.Table()), ctx.bufsizeMax, fs)
      ensures Appended(b, old(SnapOf(b)), SnapOf(b), r, FieldsBytes(dict, old(ctx.Table()), ctx.bufsizeMax, fs))
    {
      ghost var s0, t0 := SnapOf(b), ctx.Table();
      FieldsStart(dict, t0, ctx.bufsizeMax, fs);
      ghost var done;
      r, done := DeflateEach(b, fs, s0, t0);
      if r.Ok? { FieldsEnd(dict, t0, ctx.bufsizeMax, fs, ctx.Table(), done); }
    }

    /** Field by field. */
    method DeflateEach(b: BufChain, fs: seq<Field>, ghost s0: Snap, ghost t0: seq<Entry>)
      returns (r: Status, ghost done: seq<Byte>)
      requires Doing(b, s0, t0, fs, 0, []) && Codec.Roomy(b)
      requires forall f | f in fs :: Addressable(f.name) && Addressable(f.value)
      modifies ctx`bufsize, ctx.ring, ctx.ring.buffer, b
      ensures Valid() && b.Valid() && (ctx.ring.buffer == old(ctx.ring.buffer) || fresh(ctx.ring.buffer))
      ensures r.Ok? ==> Doing(b, s0, t0, fs, |fs|, done)
      ensures r.Fail? ==> Appended(b, s0, SnapOf(b), r, FieldsBytes(dict, t0, ctx.bufsizeMax, fs))
    {
      var i := 0;
      r, done := Ok, [];
      while i < |fs|
        invariant i <= |fs| && r.Ok? && Doing(b, s0, t0, fs, i, done)
        invariant ctx.ring.buffer == old(ctx.ring.buffer) || fresh(ctx.ring.buffer)
      {
        r, done := DeflateNext(b, fs, i, s0, t0, done);
        if r.Fail? {
          return;
        }
        i := i + 1;
      }
    }

    /** The first `i` fields are written and entered. */
    ghost predicate Doing(b: BufChain, s0: Snap, t0: seq<Entry>, fs: seq<Field>, i: nat, done: seq<Byte>)
      reads this, ctx, ctx.ring, ctx.ring.buffer, b
    {
      Valid() && b.Valid() && Appended(b, s0, SnapOf(b), Ok, done) &&
      Underway(dict, t0, ctx.bufsizeMax, fs, i, ctx.Table(), done)
    }

    method DeflateNext(b: BufChain, fs: seq<Field>, i: nat, ghost s0: Snap, ghost t0: seq<Entry>, ghost done: seq<Byte>)
      returns (r: Status, ghost now: seq<Byte>)
      requires i < |fs| && Doing(b, s0, t0, fs, i, done) && Codec.Roomy(b)
      requires Addressable(fs[i].name) && Addressable(fs[i].value)
      modifies ctx`bufsize, ctx.ring, ctx.ring.buffer, b
      ensures Valid() && b.Valid() && (ctx.ring.buffer == old(ctx.ring.buffer) || fresh(ctx.ring.buffer))
      ensures r.Ok? ==> Doing(b, s0, t0, fs, i + 1, now)
      ensures r.Fail? ==> Appended(b, s0, SnapOf(b), r, FieldsBytes(dict, t0, ctx.bufsizeMax, fs))
    {
      ghost var s1, t1 := SnapOf(b), ctx.Table();
      FieldsNext(dict, t0, ctx.bufsizeMax, fs, i, t1, done);
      r := DeflateNv(b, fs[i]);
      now := done + FieldBytes(dict, t1, ctx.bufsizeMax, fs[i]);
      FieldsJoined(b, s0, s1, SnapOf(b), r, done, dict, t0, t1, ctx.bufsizeMax, fs, i);
    }

    /**
     * nghttp2_hd_deflate_hd_bufs.  A failure marks the encoder bad, and a bad encoder
     * writes nothing.
     */
    method DeflateHdBufs(b: BufChain, fs: seq<Field>) returns (r: Status)
      requires Valid() && b.Valid() && Codec.Roomy(b)
      requires forall f | f in fs :: Addressable(f.name) && Addressable(f.value)
      modifies this, ctx, ctx.ring, ctx.ring.buffer, b
      ensures Valid() && b.Valid() && (ctx.ring.buffer == old(ctx.ring.buffer) || fresh(ctx.ring.buffer))
      ensures old(ctx.bad) ==> r == Fail(HeaderComp) && ctx.bad && State() == old(State()) && SnapOf(b) == old(SnapOf(b))
      ensures !old(ctx.bad) ==> Appended(b, old(SnapOf(b)), SnapOf(b), r, BlockBytes(old(State()), fs))
      ensures r.Ok? ==> State() == AfterBlock(old(State()), fs)
      ensures ctx.bad <==> r.Fail?
    {
      if ctx.bad {
        return Fail(HeaderComp);
      }
      r := DeflateBlock(b, fs);
      if r.Fail? {
        MarkBad();
      }
    }

    method MarkBad()
      requires Valid()
      modifies ctx`bad
      ensures Valid() && ctx.bad && State() == old(State())
    {
      ctx.bad := true;
    }

    method DeflateBlock(b: BufChain, fs: seq<Field>) returns (r: Status)
      requires Valid() && b.Valid() && Codec.Roomy(b)
      requires forall f | f in fs :: Addressable(f.name) && Addressable(f.value)
      modifies this, ctx`bufsize, ctx.ring, ctx.ring.buffer, b
      ensures Valid() && b.Valid() && (ctx.ring.buffer == old(ctx.ring.buffer) || fresh(ctx.ring.buffer))
      ensures Appended(b, old(SnapOf(b)), SnapOf(b), r, BlockBytes(old(State()), fs))
      ensures r.Ok? ==> State() == AfterBlock(old(State()), fs)
    {
      ghost var s0, head := SnapOf(b), Announcement(State());
      ghost var fields := FieldsBytes(dict, ctx.Table(), ctx.bufsizeMax, fs);
      r := EmitAnnouncement(b);
      if r.Fail? {
        AppendFails(b, s0, SnapOf(b), r, head, fields);
        return;
      }
      ghost var s1 := SnapOf(b);
      r := DeflateFields(b, fs);
      AppendedThen(b, s0, s1, SnapOf(b), r, head, fields);
    }

    /**
     * nghttp2_hd_deflate_hd: writes into one buffer of `buflen` octets; this succeeds iff
     * the block fits.
     */
    method DeflateHd(buflen: nat, fs: seq<Field>) returns (r: Status, out: seq<Byte>)
      requires Valid() && forall f | f in fs :: Addressable(f.name) && Addressable(f.value)
      modifies this, ctx, ctx.ring, ctx.ring.buffer
      ensures Valid() && (ctx.ring.buffer == old(ctx.ring.buffer) || fresh(ctx.ring.buffer))
      ensures old(ctx.bad) ==> r == Fail(HeaderComp)
      ensures !old(ctx.bad) ==> (r.Ok? <==> |BlockBytes(old(State()), fs)| <= buflen)
      ensures r.Ok? ==> out == BlockBytes(old(State()), fs) && State() == AfterBlock(old(State()), fs)
    {
      var bufs := new BufChain(buflen, 1, 1, 0);
      r := DeflateHdBufs(bufs, fs);
      out := bufs.Remove();
      if r == Fail(BufferError) {
        r := Fail(InsuffBufsize);
      }
    }
  }

  /** The first `i` fields took the table from `t0` to `t` and made the octets `done`. */
  ghost predicate Underway(d: Dictionary, t0: seq<Entry>, max: nat, fs: seq<Field>, i: nat, t: seq<Entry>, done: seq<Byte>)
    requires |d.fixed| == StaticLength
  {
    && i <= |fs| && done + FieldsBytes(d, t, max, fs[i..]) == FieldsBytes(d, t0, max, fs)
    && FieldsTable(d, t, max, fs[i..]) == FieldsTable(d, t0, max, fs)
  }

  lemma FieldsStart(d: Dictionary, t: seq<Entry>, max: nat, fs: seq<Field>)
    requires |d.fixed| == StaticLength
    ensures Underway(d, t, max, fs, 0, t, [])
  {
    assert fs[0..] == fs;
  }

  lemma FieldsNext(d: Dictionary, t0: seq<Entry>, max: nat, fs: seq<Field>, i: nat, t: seq<Entry>, done: seq<Byte>)
    requires |d.fixed| == StaticLength && i < |fs| && Underway(d, t0, max, fs, i, t, done)
    ensures Underway(d, t0, max, fs, i + 1, FieldTable(d, t, max, fs[i]), done + FieldBytes(d, t, max, fs[i]))
  {
    assert fs[i..][1..] == fs[i + 1..];
    var x, rest := FieldBytes(d, t, max, fs[i]), FieldsBytes(d, FieldTable(d, t, max, fs[i]), max, fs[i + 1..]);
    assert FieldsBytes(d, t, max, fs[i..]) == x + rest;
    assert (done + x) + rest == done + (x + rest);
  }

  /** Joins what a field appended to what the fields before it appended. */
  lemma FieldsJoined(b: BufChain, s0: Snap, s1: Snap, s2: Snap, r: Status, done: seq<Byte>, d: Dictionary,
                     t0: seq<Entry>, t1: seq<Entry>, max: nat, fs: seq<Field>, i: nat)
    requires |d.fixed| == StaticLength && i < |fs|
    requires Appended(b, s0, s1, Ok, done) && Appended(b, s1, s2, r, FieldBytes(d, t1, max, fs[i]))
    requires Underway(d, t0, max, fs, i + 1, FieldTable(d, t1, max, fs[i]), done + FieldBytes(d, t1, max, fs[i]))
    ensures Appended(b, s0, s2, r, done + FieldBytes(d, t1, max, fs[i]))
    ensures r.Fail? ==> Appended(b, s0, s2, r, FieldsBytes(d, t0, max, fs))
  {
    var x := FieldBytes(d, t1, max, fs[i]);
    AppendedThen(b, s0, s1, s2, r, done, x);
    if r.Fail? {
      AppendFails(b, s0, s2, r, done + x, FieldsBytes(d, FieldTable(d, t1, max, fs[i]), max, fs[i + 1..]));
    }
  }

  lemma FieldsEnd(d: Dictionary, t0: seq<Entry>, max: nat, fs: seq<Field>, t: seq<Entry>, done: seq<Byte>)
    requires |d.fixed| == StaticLength && Underway(d, t0, max, fs, |fs|, t, done)
    ensures done == FieldsBytes(d, t0, max, fs) && t == FieldsTable(d, t0, max, fs)
  {
    assert fs[|fs|..] == [];
    assert done + [] == done;
  }

  lemma FoundIsSmall(d: Dictionary, t: seq<Entry>, max: nat, f: Field, mode: Mode)
    requires d.Valid() && AllNumbered(d, t) && TableSize(t) <= max <= UINT32_MAX
    ensures
      var r := Search(d, t, f, mode);
      -1 <= r.index && r.index + 1 < Word && (r.matched ==> r.index >= 0)
  {
    SearchSound(d, t, f, mode);
    PrefixIsSmaller(t, 0);
  }
}
