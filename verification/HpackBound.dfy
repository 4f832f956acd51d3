/**
 * The size nghttp2_hd_deflate_bound promises for a header block (lib/nghttp2_hd.c),
 * and exactly when a block can exceed it.
 */
module HpackBound {
  import opened Bytes
  import opened HpackInteger
  import opened HpackTable
  import opened HpackEncoder
  import Huffman = HuffmanCode
  import HuffmanTable
  import Writer = HpackDeflater
  import Bufs

  function FieldsLength(fs: seq<Field>): nat
  {
    if fs == [] then 0 else |fs[0].name| + |fs[0].value| + FieldsLength(fs[1..])
  }

  /** Two limit announcements, two lengths per field, and all octets as they are. */
  function Bound(fs: seq<Field>): nat { 12 + 12 * |fs| + FieldsLength(fs) }

  method DeflateBound(fs: seq<Field>) returns (n: nat)
    ensures n == Bound(fs)
  {
    n := 12;
    n := n + 6 * 2 * |fs|;
    ghost var start := n;
    for i := 0 to |fs|
      invariant n + FieldsLength(fs[i..]) == start + FieldsLength(fs)
    {
      n := n + |fs[i].name| + |fs[i].value|;
      assert fs[i..][1..] == fs[i + 1..];
    }
  }

  /** Octets of a string length. */
  function LengthOctets(n: nat): nat { |EncodeInt(0, n, 7)| }

  lemma {:induction false} TailMonotone(m: nat, n: nat)
    requires m <= n
    ensures |TailOf(m)| <= |TailOf(n)|
    decreases n
  {
    if m >= 128 { TailMonotone(m / 128, n / 128); }
  }

  lemma IntMonotone(first: Byte, m: nat, n: nat)
    requires m <= n
    ensures |EncodeInt(first, m, 7)| <= LengthOctets(n)
  {
    if m >= 127 { TailMonotone(m - 127, n - 127); }
  }

  /** 32 bits take at most six octets, and 28 bits at most five. */
  lemma IntAtMostSix(first: Byte, n: nat, prefix: nat)
    requires n <= UINT32_MAX
    ensures |EncodeInt(first, n, prefix)| <= 6
    ensures n < 0x10000000 ==> |EncodeInt(first, n, prefix)| <= 5
  {
    if n >= PrefixMax(prefix) {
      FiveGroups(n - PrefixMax(prefix));
      if n < 0x10000000 { FourGroups(n - PrefixMax(prefix)); }
    }
  }

  lemma FourGroups(n: nat)
    requires n < 0x10000000
    ensures |TailOf(n)| <= 4
  {
    Pow2Values();
    Pow2Add(24, 4);
    assert Pow2(4) == 16;
    TailLength(n, 4);
  }

  /** A string takes no more than its length and its octets as they are. */
  lemma StringBound(x: seq<Byte>)
    ensures |EncodeString(x)| <= LengthOctets(|x|) + |x|
  {
    if |Huffman.Encode(x)| < |x| { IntMonotone(0x80, |Huffman.Encode(x)|, |x|); }
  }

  /**
   * The most octets a field can take beyond those of its name and value: a first octet and two
   * lengths, or the index of a name of less than three octets and one length.
   */
  function Overhead(f: Field): nat
  {
    if |f.name| < 3 then 5 - |f.name| + LengthOctets(|f.value|)
    else 1 + LengthOctets(|f.name|) + LengthOctets(|f.value|)
  }

  /** Every entry takes at least 32 octets of the limit, so an index has less than 28 bits. */
  lemma IndexIsShort(d: Dictionary, t: seq<Entry>, max: nat, f: Field)
    requires d.Valid() && AllNumbered(d, t) && TableSize(t) <= max <= UINT32_MAX
    ensures Search(d, t, f, ChooseMode(d, f, max)).index + 1 < 0x10000000
  {
    SearchSound(d, t, f, ChooseMode(d, f, max));
    PrefixIsSmaller(t, 0);
  }

  lemma IndexedBound(index: nat, f: Field, mode: Mode)
    requires index + 1 < 0x10000000
    ensures |IndexedForm(index)| <= Overhead(f) + |f.name| + |f.value|
    ensures |IndexedNameForm(index, f.value, mode)| <= Overhead(f) + |f.name| + |f.value|
  {
    StringBound(f.value);
    IntAtMostSix(0x80, index + 1, 7);
    IntAtMostSix(FirstByte(mode), index + 1, IndexPrefix(mode));
  }

  lemma NewNameBound(f: Field, mode: Mode)
    ensures |NewNameForm(f.name, f.value, mode)| <= Overhead(f) + |f.name| + |f.value|
  {
    StringBound(f.name);
    StringBound(f.value);
  }

  lemma FieldBound(d: Dictionary, t: seq<Entry>, max: nat, f: Field)
    requires d.Valid() && AllNumbered(d, t) && TableSize(t) <= max <= UINT32_MAX
    ensures |FieldBytes(d, t, max, f)| <= Overhead(f) + |f.name| + |f.value|
  {
    var mode := ChooseMode(d, f, max);
    var r := Search(d, t, f, mode);
    IndexIsShort(d, t, max, f);
    NewNameBound(f, mode);
    if r.index >= 0 { IndexedBound(r.index, f, mode); }
  }

  /** The overheads of all fields together. */
  function Overheads(fs: seq<Field>): nat
  {
    if fs == [] then 0 else Overhead(fs[0]) + Overheads(fs[1..])
  }

  lemma {:induction false} FieldsBound(d: Dictionary, t: seq<Entry>, max: nat, fs: seq<Field>)
    requires d.Valid() && AllNumbered(d, t) && TableSize(t) <= max <= UINT32_MAX
    ensures |FieldsBytes(d, t, max, fs)| <= Overheads(fs) + FieldsLength(fs)
    decreases |fs|
  {
    if fs != [] {
      FieldBound(d, t, max, fs[0]);
      FieldTableValid(d, t, max, fs[0]);
      FieldsBound(d, FieldTable(d, t, max, fs[0]), max, fs[1..]);
    }
  }

  lemma AnnouncementBound(e: Encoder)
    requires e.Valid()
    ensures |Announcement(e)| <= 12
  {
    IntAtMostSix(0x20, e.leastMax, 5);
    IntAtMostSix(0x20, e.max, 5);
  }

  /** The bound suffices in every encoder state, announcements included. */
  lemma BlockBound(e: Encoder, fs: seq<Field>)
    requires e.Valid() && Overheads(fs) <= 12 * |fs|
    ensures |BlockBytes(e, fs)| <= Bound(fs)
  {
    AnnouncementBound(e);
    FieldsBound(e.dict, e.table, e.max, fs);
  }

  /** Fields with names and values below 2^28 octets never have more overhead than is allowed for. */
  lemma {:induction false} ShortIsModerate(fs: seq<Field>)
    requires forall f | f in fs :: |f.name| < 0x10000000 && |f.value| < 0x10000000
    ensures Overheads(fs) <= 12 * |fs|
    decreases |fs|
  {
    if fs != [] {
      IntAtMostSix(0, |fs[0].name|, 7);
      IntAtMostSix(0, |fs[0].value|, 7);
      ShortIsModerate(fs[1..]);
    }
  }

  /** Deflating into a buffer of the size promised does not fail. */
  method DeflateIntoBound(deflater: Writer.Deflater, fs: seq<Field>) returns (r: Bufs.Status, out: seq<Byte>)
    requires deflater.Valid() && forall f | f in fs :: Writer.Addressable(f.name) && Writer.Addressable(f.value)
    modifies deflater, deflater.ctx, deflater.ctx.ring, deflater.ctx.ring.buffer
    ensures deflater.Valid()
    ensures !old(deflater.ctx.bad) ==> (r.Ok? <==> |BlockBytes(old(deflater.State()), fs)| <= Bound(fs))
    ensures !old(deflater.ctx.bad) && Overheads(fs) <= 12 * |fs| ==> r.Ok? && out == BlockBytes(old(deflater.State()), fs)
  {
    var n := DeflateBound(fs);
    if !deflater.ctx.bad && Overheads(fs) <= 12 * |fs| { BlockBound(deflater.State(), fs); }
    r, out := deflater.DeflateHd(n, fs);
  }

  // --------------------------------------------------------- where the bound fails

  function Nulls(n: nat): seq<Byte> { seq(n, _ => 0) }

  lemma {:induction false} NullsDoNotShrink(n: nat)
    ensures |Huffman.EncodeBits(Nulls(n))| >= 8 * n
    decreases n
  {
    if n > 0 {
      NullsDoNotShrink(n - 1);
      assert Nulls(n)[1..] == Nulls(n - 1);
      NullCode();
    }
  }

  lemma NullCode()
    ensures |Huffman.Code(0)| == 13
  {
    Huffman.TableWritesCode(0);
    assert HuffmanTable.SymOf(0) == HuffmanTable.Sym(13, 0x1ff8);
  }

  lemma NullString(n: nat)
    ensures |EncodeString(Nulls(n))| == LengthOctets(n) + n
  {
    NullsDoNotShrink(n);
    Huffman.EncodeLength(Nulls(n));
  }

  /** An encoder that has two long announcements to make. */
  function WorstEncoder(d: Dictionary): Encoder
  {
    Encoder(d, [], 0x20000000, 0x20000000, 0x18000000, true)
  }

  /** Two changes of the limit lead there. */
  lemma WorstIsReachable(d: Dictionary)
    ensures WorstEncoder(d) == ChangeLimit(ChangeLimit(InitialEncoder(d, 0x20000000), 0x18000000), 0x20000000)
  {
    assert Shrink([], 0x18000000) == [] && Shrink([], 0x20000000) == [];
  }

  lemma WorstAnnouncement(d: Dictionary)
    ensures |Announcement(WorstEncoder(d))| == 12
  {
    assert |SizeUpdate(0x18000000)| == 6;
    assert |SizeUpdate(0x20000000)| == 6;
  }

  /** The lengths of the name and the value of a field. */
  datatype Lengths = Lengths(name: nat, value: nat)

  function LengthsOf(fs: seq<Field>): (ls: seq<Lengths>)
    ensures |ls| == |fs|
  {
    seq(|fs|, i requires 0 <= i < |fs| => Lengths(|fs[i].name|, |fs[i].value|))
  }

  /** Fields of these lengths that are as long as can be. */
  function WorstFields(ls: seq<Lengths>): (fs: seq<Field>)
    ensures |fs| == |ls|
  {
    seq(|ls|, i requires 0 <= i < |ls| => WorstField(ls[i]))
  }

  function WorstField(l: Lengths): Field { Field(Nulls(l.name), Nulls(l.value), true) }

  function LengthsOctets(ls: seq<Lengths>): nat
  {
    if ls == [] then 0 else LengthOctets(ls[0].name) + LengthOctets(ls[0].value) + LengthsOctets(ls[1..])
  }

  /** A field that is never indexed and whose name is not known is written out. */
  lemma WorstFieldBytes(d: Dictionary, max: nat, l: Lengths)
    requires d.Valid() && d.token(Nulls(l.name)) == -1
    ensures FieldTable(d, [], max, WorstField(l)) == []
    ensures |FieldBytes(d, [], max, WorstField(l))| == 1 + LengthOctets(l.name) + LengthOctets(l.value) + l.name + l.value
  {
    var f := WorstField(l);
    NullString(l.name);
    NullString(l.value);
    assert FieldBytes(d, [], max, f) == NewNameForm(f.name, f.value, NeverIndexing);
  }

  lemma {:induction false} WorstFieldsBytes(d: Dictionary, max: nat, ls: seq<Lengths>)
    requires d.Valid() && forall l | l in ls :: d.token(Nulls(l.name)) == -1
    ensures
      var fs := WorstFields(ls);
      |FieldsBytes(d, [], max, fs)| == |ls| + LengthsOctets(ls) + FieldsLength(fs)
    decreases |ls|
  {
    if ls != [] {
      var fs, rest := WorstFields(ls), WorstFields(ls[1..]);
      assert fs[0] == WorstField(ls[0]) && fs[1..] == rest;
      assert ls[0] in ls;
      WorstFieldBytes(d, max, ls[0]);
      WorstFieldsBytes(d, max, ls[1..]);
      assert FieldsBytes(d, [], max, fs) == FieldBytes(d, [], max, fs[0]) + FieldsBytes(d, [], max, rest);
      assert FieldsLength(fs) == ls[0].name + ls[0].value + FieldsLength(rest);
    }
  }

  lemma WorstBlock(d: Dictionary, ls: seq<Lengths>)
    requires d.Valid() && forall l | l in ls :: d.token(Nulls(l.name)) == -1
    ensures WorstEncoder(d).Valid() && LengthsOf(WorstFields(ls)) == ls
    ensures |BlockBytes(WorstEncoder(d), WorstFields(ls))| == Bound(WorstFields(ls)) + LengthsOctets(ls) - 11 * |ls|
  {
    WorstLengths(ls);
    WorstAnnouncement(d);
    WorstFieldsBytes(d, 0x20000000, ls);
  }

  lemma WorstLengths(ls: seq<Lengths>)
    ensures LengthsOf(WorstFields(ls)) == ls
  {}

  // ------------------------------------------------------------- names found far back

  /** Entries in front of those for the names of zero to two null octets: as many as make an index of five octets. */
  const Depth: nat := 0x200000

  ghost predicate IsDeep(d: Dictionary, t: seq<Entry>)
  {
    && |t| == Depth + 3 && AllNumbered(d, t) && TableSize(t) <= 0x20000000
    && (forall i | 0 <= i < Depth :: t[i].name == [1]) && (forall k | 0 <= k < 3 :: t[Depth + k].name == Nulls(k))
  }

  function Named(d: Dictionary, name: seq<Byte>): Entry { Entry(name, [], d.token(name)) }

  lemma {:induction false} RepeatedSize(e: Entry, k: nat)
    ensures TableSize(seq(k, _ => e)) == k * EntryRoom(e)
    decreases k
  {
    if k > 0 {
      var t := seq(k, _ => e);
      assert t[..k - 1] == seq(k - 1, _ => e);
      RepeatedSize(e, k - 1);
    }
  }

  lemma SizeOfThree(t: seq<Entry>, a: Entry, b: Entry, c: Entry)
    ensures TableSize(t + [a, b, c]) == TableSize(t) + EntryRoom(a) + EntryRoom(b) + EntryRoom(c)
  {
    SizeOfOne(t, a);
    SizeOfOne(t + [a], b);
    SizeOfOne(t + [a] + [b], c);
    assert t + [a, b, c] == t + [a] + [b] + [c];
  }

  lemma SizeOfOne(t: seq<Entry>, e: Entry)
    ensures TableSize(t + [e]) == TableSize(t) + EntryRoom(e)
  {
    assert (t + [e])[..|t|] == t;
  }

  lemma DeepExists(d: Dictionary) returns (t: seq<Entry>)
    ensures IsDeep(d, t)
  {
    var e := Named(d, [1]);
    var front := seq(Depth, _ => e);
    RepeatedSize(e, Depth);
    SizeOfThree(front, Named(d, Nulls(0)), Named(d, Nulls(1)), Named(d, Nulls(2)));
    t := front + [Named(d, Nulls(0)), Named(d, Nulls(1)), Named(d, Nulls(2))];
    assert EntryRoom(e) == 33 && |Nulls(0)| == 0 && |Nulls(1)| == 1 && |Nulls(2)| == 2;
    assert TableSize(t) <= 0x20000000;
    forall i | 0 <= i < |t| ensures WellNumbered(d, t[i]) {
      assert i < Depth ==> t[i] == e;
    }
    forall i | 0 <= i < Depth ensures t[i].name == [1] { assert t[i] == e; }
    forall k | 0 <= k < 3 ensures t[Depth + k].name == Nulls(k) {
      assert t[Depth + k] == [Named(d, Nulls(0)), Named(d, Nulls(1)), Named(d, Nulls(2))][k];
    }
  }

  /** Entries of other names do not matter to a search. */
  lemma {:induction false} SkipsOthers(t: seq<Entry>, i: nat, k: nat, best: int, f: Field, mode: Mode)
    requires i <= k <= |t| && forall j | i <= j < k :: t[j].name != f.name
    ensures SearchDynamicFrom(t, i, best, f, -1, mode) == SearchDynamicFrom(t, k, best, f, -1, mode)
    decreases k - i
  {
    if i < k { SkipsOthers(t, i + 1, k, best, f, mode); }
  }

  /** A name that is in the table once is found there; one that is not, is not. */
  lemma FoundOnce(t: seq<Entry>, j: nat, f: Field)
    requires j <= |t| && (forall i | 0 <= i < |t| && i != j :: t[i].name != f.name)
    requires j < |t| ==> t[j].name == f.name && t[j].token == -1
    ensures SearchDynamicFrom(t, 0, -1, f, -1, NeverIndexing) == Found(if j < |t| then j + StaticLength else -1, false)
  {
    SkipsOthers(t, 0, j, -1, f, NeverIndexing);
    if j < |t| { SkipsOthers(t, j + 1, |t|, j + StaticLength, f, NeverIndexing); }
  }

  /** Where the name of a worst field is in a deep table: at the end, if it is short. */
  lemma DeepSearch(d: Dictionary, t: seq<Entry>, max: nat, l: Lengths)
    requires d.Valid() && IsDeep(d, t) && d.token(Nulls(l.name)) == -1
    ensures
      var f := WorstField(l);
      && ChooseMode(d, f, max) == NeverIndexing
      && Search(d, t, f, NeverIndexing) == Found(if l.name < 3 then Depth + l.name + StaticLength else -1, false)
  {
    var f, j := WorstField(l), if l.name < 3 then Depth + l.name else |t|;
    forall i | 0 <= i < |t| && i != j ensures t[i].name != f.name { OtherName(d, t, i, l.name); }
    if l.name < 3 {
      assert t[Depth + l.name].name == Nulls(l.name);
      assert WellNumbered(d, t[Depth + l.name]);
    }
    FoundOnce(t, j, f);
  }

  lemma OtherName(d: Dictionary, t: seq<Entry>, i: nat, n: nat)
    requires IsDeep(d, t) && i < |t| && i != Depth + n
    ensures t[i].name != Nulls(n)
  {
    if i < Depth {
      assert t[i].name == [1] && [1][0] == 1;
      assert n > 0 ==> Nulls(n)[0] == 0;
      assert n == 0 ==> |Nulls(n)| == 0;
    } else {
      assert t[Depth + (i - Depth)].name == Nulls(i - Depth) && |Nulls(i - Depth)| == i - Depth;
    }
  }

  /** Such an index takes five octets. */
  lemma DeepIndex(k: nat)
    requires k < 3
    ensures |EncodeInt(FirstByte(NeverIndexing), Depth + k + StaticLength + 1, IndexPrefix(NeverIndexing))| == 5
  {
    var m := Depth + k + StaticLength + 1 - PrefixMax(IndexPrefix(NeverIndexing));
    FourGroups(m);
    assert m >= 128 && m / 128 >= 128 && m / 128 / 128 >= 128;
    assert |TailOf(m)| == 1 + |TailOf(m / 128)|;
    assert |TailOf(m / 128)| == 1 + |TailOf(m / 128 / 128)|;
    assert |TailOf(m / 128 / 128)| == 1 + |TailOf(m / 128 / 128 / 128)|;
  }

  lemma DeepFieldBytes(d: Dictionary, t: seq<Entry>, max: nat, l: Lengths)
    requires d.Valid() && IsDeep(d, t) && d.token(Nulls(l.name)) == -1
    ensures FieldTable(d, t, max, WorstField(l)) == t
    ensures |FieldBytes(d, t, max, WorstField(l))| == OverheadOf(l) + l.name + l.value
  {
    var f := WorstField(l);
    DeepSearch(d, t, max, l);
    NullString(l.value);
    if l.name < 3 {
      DeepIndex(l.name);
      assert FieldBytes(d, t, max, f) == IndexedNameForm(Depth + l.name + StaticLength, f.value, NeverIndexing);
    } else {
      NullString(l.name);
      assert FieldBytes(d, t, max, f) == NewNameForm(f.name, f.value, NeverIndexing);
    }
  }

  /** The overhead of fields of given lengths. */
  function OverheadOf(l: Lengths): nat
  {
    if l.name < 3 then 5 - l.name + LengthOctets(l.value) else 1 + LengthOctets(l.name) + LengthOctets(l.value)
  }

  function OverheadsOf(ls: seq<Lengths>): nat
  {
    if ls == [] then 0 else OverheadOf(ls[0]) + OverheadsOf(ls[1..])
  }

  lemma {:induction false} DeepFieldsBytes(d: Dictionary, t: seq<Entry>, max: nat, ls: seq<Lengths>)
    requires d.Valid() && IsDeep(d, t) && forall l | l in ls :: d.token(Nulls(l.name)) == -1
    ensures
      var fs := WorstFields(ls);
      |FieldsBytes(d, t, max, fs)| == OverheadsOf(ls) + FieldsLength(fs)
    decreases |ls|
  {
    if ls != [] {
      var fs, rest := WorstFields(ls), WorstFields(ls[1..]);
      assert fs[0] == WorstField(ls[0]) && fs[1..] == rest;
      assert ls[0] in ls;
      DeepFieldBytes(d, t, max, ls[0]);
      DeepFieldsBytes(d, t, max, ls[1..]);
      assert FieldsBytes(d, t, max, fs) == FieldBytes(d, t, max, fs[0]) + FieldsBytes(d, t, max, rest);
      assert FieldsLength(fs) == ls[0].name + ls[0].value + FieldsLength(rest);
    }
  }

  lemma DeepBlock(d: Dictionary, t: seq<Entry>, ls: seq<Lengths>)
    requires d.Valid() && IsDeep(d, t) && forall l | l in ls :: d.token(Nulls(l.name)) == -1
    ensures
      var e := WorstEncoder(d).(table := t);
      && e.Valid() && LengthsOf(WorstFields(ls)) == ls
      && |BlockBytes(e, WorstFields(ls))| == Bound(WorstFields(ls)) + OverheadsOf(ls) - 12 * |ls|
  {
    WorstLengths(ls);
    WorstAnnouncement(d);
    DeepFieldsBytes(d, t, 0x20000000, ls);
  }

  lemma {:induction false} OverheadsAreLengths(fs: seq<Field>)
    ensures Overheads(fs) == OverheadsOf(LengthsOf(fs))
    decreases |fs|
  {
    if fs != [] {
      assert LengthsOf(fs)[1..] == LengthsOf(fs[1..]);
      OverheadsAreLengths(fs[1..]);
    }
  }

  /**
   * For every list of lengths: the bound suffices for all fields of these lengths in every
   * encoder state iff their overheads sum to at most twelve octets per field.
   */
  lemma BoundSufficesIff(d: Dictionary, ls: seq<Lengths>)
    requires d.Valid() && forall l | l in ls :: d.token(Nulls(l.name)) == -1
    ensures
      (forall e: Encoder, fs: seq<Field> | e.Valid() && e.dict == d && LengthsOf(fs) == ls :: |BlockBytes(e, fs)| <= Bound(fs))
      <==> OverheadsOf(ls) <= 12 * |ls|
  {
    if OverheadsOf(ls) <= 12 * |ls| {
      forall e: Encoder, fs: seq<Field> | e.Valid() && e.dict == d && LengthsOf(fs) == ls
        ensures |BlockBytes(e, fs)| <= Bound(fs)
      {
        OverheadsAreLengths(fs);
        BlockBound(e, fs);
      }
    } else {
      var t := DeepExists(d);
      DeepBlock(d, t, ls);
    }
  }

  /** Name and value of 2^28 + 127 octets each have prefixes of twelve octets. */
  lemma LongestLengths()
    ensures LengthOctets(0x10000000 + 126) == 5 && LengthOctets(0x10000000 + 127) == 6
  {}
}
