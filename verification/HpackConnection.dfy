/**
 * Encoder and decoder of one connection (section 2.2 of RFC 7541): every block is
 * decoded to the fields it was made of, and both tables stay equal, through all
 * changes of the table limit.
 */
module HpackConnection {
  import opened Bytes
  import opened Bufs
  import opened HuffmanTree
  import opened HuffmanTable
  import opened HpackInteger
  import opened HpackTable
  import opened HpackEncoder
  import opened HpackDecoder
  import opened HpackRoundTrip
  import Huffman = HuffmanCode

  /** The decoder is between two representations, with the given table and limit. */
  ghost predicate Between(s: Decoder, d: Dictionary, t: seq<Entry>, max: nat)
  {
    && s.Valid() && s.nv == [] && s.dict == d && s.table == t && s.max == max
    && (s.phase.InflateStart? || s.phase.Opcode?)
  }

  /** A table an encoder can have. */
  ghost predicate GoodTable(d: Dictionary, t: seq<Entry>, max: nat)
  {
    d.Valid() && AllNumbered(d, t) && TableSize(t) <= max <= UINT32_MAX
  }

  /** What the application receives for `f`: never-indexed fields are marked as such. */
  function Received(d: Dictionary, max: nat, f: Field): Field
  {
    f.(noIndex := ChooseMode(d, f, max).NeverIndexing?)
  }

  /** The decoder has room for the octets it must collect for `f`. */
  ghost predicate Fits(d: Dictionary, t: seq<Entry>, max: nat, f: Field)
    requires |d.fixed| == StaticLength
  {
    var r := Search(d, t, f, ChooseMode(d, f, max));
    r.matched || (if r.index < 0 then |f.name| + |f.value| + 2 <= MaxNv else |f.value| + 1 <= MaxNv)
  }

  // -------------------------------------------------------------- first octets

  lemma StartsIndexed(s: Decoder, index: nat, rest: seq<Byte>)
    requires s.Valid() && (s.phase.InflateStart? || s.phase.Opcode?)
    ensures
      var input := IndexedForm(index) + rest;
      input != [] && StepOf(s, input) == Continue(Restart(s, ReadIndex).(op := Indexed), input, false)
  {
    FirstOctet(0x80, index + 1, 7);
  }

  lemma LiteralOctet(mode: Mode, index: nat)
    ensures
      var b := EncodeInt(FirstByte(mode), index + 1, IndexPrefix(mode))[0];
      && b < 0x80 && b / 32 != 1 && b != 0x40 && b != 0 && b != 0x10
      && (b >= 0x40 <==> mode.WithIndexing?) && (b / 16 == 1 <==> mode.NeverIndexing?)
  {
    FirstOctet(FirstByte(mode), index + 1, IndexPrefix(mode));
  }

  /** The state at the start of a literal representation. */
  function Literal(s: Decoder, mode: Mode, p: Phase, op: Op): Decoder
  {
    Restart(s.(indexRequired := mode.WithIndexing?, noIndex := mode.NeverIndexing?), p).(op := op)
  }

  lemma StartsIndexedName(s: Decoder, mode: Mode, index: nat, rest: seq<Byte>)
    requires s.Valid() && (s.phase.InflateStart? || s.phase.Opcode?)
    ensures
      var input := EncodeInt(FirstByte(mode), index + 1, IndexPrefix(mode)) + rest;
      input != [] && StepOf(s, input) == Continue(Literal(s, mode, ReadIndex, IndexedName), input, false)
  {
    LiteralOctet(mode, index);
  }

  lemma StartsNewName(s: Decoder, mode: Mode, rest: seq<Byte>)
    requires s.Valid() && (s.phase.InflateStart? || s.phase.Opcode?)
    ensures StepOf(s, [FirstByte(mode)] + rest) == Continue(Literal(s, mode, CheckNameLen, NewName), rest, false)
  {
    assert ([FirstByte(mode)] + rest)[1..] == rest;
  }

  // --------------------------------------------------------------------- fields

  lemma TableIsSmall(t: seq<Entry>, max: nat)
    requires TableSize(t) <= max <= UINT32_MAX
    ensures StaticLength + |t| <= UINT32_MAX
  {
    PrefixIsSmaller(t, 0);
  }

  lemma IndexedDecodes(s: Decoder, d: Dictionary, t: seq<Entry>, max: nat, index: nat, rest: seq<Byte>)
    returns (u: Decoder)
    requires Between(s, d, t, max) && GoodTable(d, t, max) && index < StaticLength + |t|
    ensures Between(u, d, t, max) && u.phase.Opcode? && u.settingsMax == s.settingsMax
    ensures
      var e := TableGet(d, t, index);
      Feed(s, IndexedForm(index) + rest, false) == Prepend([Field(e.name, e.value, false)], Feed(u, rest, false))
  {
    var input := IndexedForm(index) + rest;
    StartsIndexed(s, index, rest);
    var v := Restart(s, ReadIndex).(op := Indexed);
    FeedContinues(s, input, false, v, input, false);
    TableIsSmall(t, max);
    var w := ReadsInt(v, 0x80, index + 1, 7, StaticLength + |t|, rest);
    var e := TableGet(d, t, index);
    u := w.(index := index, phase := Opcode);
    FeedEmits(v, input, false, u, rest, Field(e.name, e.value, false));
  }

  /** The name by index: the state before the value. */
  lemma IndexedNameKnown(s: Decoder, d: Dictionary, t: seq<Entry>, max: nat, index: nat, mode: Mode, rest: seq<Byte>)
    returns (u: Decoder)
    requires Between(s, d, t, max) && GoodTable(d, t, max) && index < StaticLength + |t|
    ensures u.Valid() && u == Literal(s, mode, CheckValueLen, IndexedName).(index := index, left := u.left, shift := u.shift)
    ensures
      var head := EncodeInt(FirstByte(mode), index + 1, IndexPrefix(mode));
      Feed(s, head + rest, false) == Feed(u, rest, false)
  {
    var input := EncodeInt(FirstByte(mode), index + 1, IndexPrefix(mode)) + rest;
    StartsIndexedName(s, mode, index, rest);
    var v := Literal(s, mode, ReadIndex, IndexedName);
    FeedContinues(s, input, false, v, input, false);
    TableIsSmall(t, max);
    u := ReadsNameIndex(v, mode, index, rest);
    FeedContinues(v, input, false, u, rest, false);
  }

  lemma ReadsNameIndex(s: Decoder, mode: Mode, index: nat, rest: seq<Byte>) returns (u: Decoder)
    requires s.Valid() && s.phase.ReadIndex? && s.op.IndexedName? && s.indexRequired == mode.WithIndexing?
    requires s.left == 0 && s.shift == 0 && index < StaticLength + |s.table| <= UINT32_MAX
    ensures u == s.(index := index, phase := CheckValueLen, left := index + 1, shift := u.shift)
    ensures
      var input := EncodeInt(FirstByte(mode), index + 1, IndexPrefix(mode)) + rest;
      StepOf(s, input) == Continue(u, rest, false)
  {
    var w := ReadsInt(s, FirstByte(mode), index + 1, IndexPrefix(mode), StaticLength + |s.table|, rest);
    u := w.(index := index, phase := CheckValueLen);
  }

  /** The value of a field whose name is known: it is emitted and, if asked for, added to the table. */
  lemma LiteralValueDecodes(s: Decoder, d: Dictionary, t: seq<Entry>, max: nat, f: Field, mode: Mode, rest: seq<Byte>)
    returns (u: Decoder)
    requires s.Valid() && s.phase.CheckValueLen? && |s.nv| + |f.value| < MaxNv && GoodTable(d, t, max)
    requires s.dict == d && s.table == t && s.max == max
    requires s.indexRequired == mode.WithIndexing? && s.noIndex == mode.NeverIndexing?
    requires
      if s.op.NewName? then s.nv == f.name + [0] && s.newNameLen == |f.name|
      else s.nv == [] && s.index < StaticLength + |t| && TableGet(d, t, s.index).name == f.name
    ensures
      var e := Entry(f.name, f.value, d.token(f.name));
      Between(u, d, if mode.WithIndexing? then Insert(t, e, max) else t, max)
    ensures u.phase.Opcode? && u.settingsMax == s.settingsMax
    ensures
      var g := f.(noIndex := mode.NeverIndexing?);
      Feed(s, EncodeString(f.value) + rest, false) == Prepend([g], Feed(u, rest, false))
  {
    var done := ValueDecodes(s, f.value, rest);
    u := Commit(done).0;
    CommitGives(done, d, t, max, f, mode);
  }

  lemma CommitGives(s: Decoder, d: Dictionary, t: seq<Entry>, max: nat, f: Field, mode: Mode)
    requires s.Complete() && GoodTable(d, t, max) && s.dict == d && s.table == t && s.max == max
    requires s.indexRequired == mode.WithIndexing? && s.noIndex == mode.NeverIndexing?
    requires
      if s.op.NewName? then s.nv == f.name + [0] + f.value + [0] && s.newNameLen == |f.name|
      else s.nv == f.value + [0] && TableGet(d, t, s.index).name == f.name
    ensures Commit(s).1 == f.(noIndex := mode.NeverIndexing?)
    ensures
      var e := Entry(f.name, f.value, d.token(f.name));
      Commit(s).0.table == if mode.WithIndexing? then Insert(t, e, max) else t
  {
    if s.op.NewName? {
      assert s.nv[..|f.name|] == f.name;
      assert s.nv[|f.name| + 1..|s.nv| - 1] == f.value;
    } else {
      assert s.nv[..|s.nv| - 1] == f.value;
      if s.index >= StaticLength { assert WellNumbered(d, t[s.index - StaticLength]); }
    }
  }

  /** The representation chosen for a field, in one place. */
  lemma FieldForm(d: Dictionary, t: seq<Entry>, max: nat, f: Field)
    requires GoodTable(d, t, max)
    ensures
      var mode := ChooseMode(d, f, max);
      var r := Search(d, t, f, mode);
      && (r.index < 0 || (r.index < StaticLength + |t| && TableGet(d, t, r.index).name == f.name))
      && (r.matched ==> r.index >= 0 && !mode.NeverIndexing? && TableGet(d, t, r.index).value == f.value)
  {
    SearchSound(d, t, f, ChooseMode(d, f, max));
  }

  /** One field: it is received, and the decoder's table becomes the encoder's. */
  lemma FieldDecodes(s: Decoder, d: Dictionary, t: seq<Entry>, max: nat, f: Field, rest: seq<Byte>)
    returns (u: Decoder)
    requires Between(s, d, t, max) && GoodTable(d, t, max) && Fits(d, t, max, f)
    ensures Between(u, d, FieldTable(d, t, max, f), max) && u.phase.Opcode? && u.settingsMax == s.settingsMax
    ensures
      Feed(s, FieldBytes(d, t, max, f) + rest, false) == Prepend([Received(d, max, f)], Feed(u, rest, false))
  {
    var mode := ChooseMode(d, f, max);
    var r := Search(d, t, f, mode);
    FieldForm(d, t, max, f);
    if r.matched {
      u := IndexedDecodes(s, d, t, max, r.index, rest);
    } else if r.index >= 0 {
      u := IndexedNameFormDecodes(s, d, t, max, r.index, f, mode, rest);
    } else {
      u := NewNameFormDecodes(s, d, t, max, f, mode, rest);
    }
  }

  lemma IndexedNameFormDecodes(s: Decoder, d: Dictionary, t: seq<Entry>, max: nat, index: nat, f: Field, mode: Mode,
                               rest: seq<Byte>) returns (u: Decoder)
    requires Between(s, d, t, max) && GoodTable(d, t, max)
    requires index < StaticLength + |t| && TableGet(d, t, index).name == f.name && |f.value| < MaxNv
    ensures
      var e := Entry(f.name, f.value, d.token(f.name));
      Between(u, d, if mode.WithIndexing? then Insert(t, e, max) else t, max)
    ensures u.phase.Opcode? && u.settingsMax == s.settingsMax
    ensures
      var g := f.(noIndex := mode.NeverIndexing?);
      Feed(s, IndexedNameForm(index, f.value, mode) + rest, false) == Prepend([g], Feed(u, rest, false))
  {
    var head, text := EncodeInt(FirstByte(mode), index + 1, IndexPrefix(mode)), EncodeString(f.value);
    assert (head + text) + rest == head + (text + rest);
    var v := IndexedNameKnown(s, d, t, max, index, mode, text + rest);
    u := LiteralValueDecodes(v, d, t, max, f, mode, rest);
  }

  lemma NewNameFormDecodes(s: Decoder, d: Dictionary, t: seq<Entry>, max: nat, f: Field, mode: Mode, rest: seq<Byte>)
    returns (u: Decoder)
    requires Between(s, d, t, max) && GoodTable(d, t, max) && |f.name| + |f.value| + 2 <= MaxNv
    ensures
      var e := Entry(f.name, f.value, d.token(f.name));
      Between(u, d, if mode.WithIndexing? then Insert(t, e, max) else t, max)
    ensures u.phase.Opcode? && u.settingsMax == s.settingsMax
    ensures
      var g := f.(noIndex := mode.NeverIndexing?);
      Feed(s, NewNameForm(f.name, f.value, mode) + rest, false) == Prepend([g], Feed(u, rest, false))
  {
    var name, text := EncodeString(f.name), EncodeString(f.value);
    NewNameParts(f, mode, rest);
    StartsNewName(s, mode, name + (text + rest));
    var v := Literal(s, mode, CheckNameLen, NewName);
    FeedContinues(s, [FirstByte(mode)] + (name + (text + rest)), false, v, name + (text + rest), false);
    StringIsSome(f.value);
    var w := NameDecodes(v, f.name, text + rest);
    u := LiteralValueDecodes(w, d, t, max, f, mode, rest);
  }

  lemma NewNameParts(f: Field, mode: Mode, rest: seq<Byte>)
    ensures
      NewNameForm(f.name, f.value, mode) + rest ==
        [FirstByte(mode)] + (EncodeString(f.name) + (EncodeString(f.value) + rest))
  {
    Regrouped([FirstByte(mode)], EncodeString(f.name), EncodeString(f.value), rest);
  }

  lemma Regrouped(a: seq<Byte>, b: seq<Byte>, c: seq<Byte>, d: seq<Byte>)
    ensures a + b + c + d == a + (b + (c + d))
  {}

  lemma StringIsSome(x: seq<Byte>)
    ensures EncodeString(x) != []
  {}

  /** A field the decoder has no room for breaks the block. */
  lemma FieldRefused(s: Decoder, d: Dictionary, t: seq<Entry>, max: nat, f: Field, rest: seq<Byte>)
    requires Between(s, d, t, max) && GoodTable(d, t, max) && !Fits(d, t, max, f)
    ensures Feed(s, FieldBytes(d, t, max, f) + rest, false).Broken?
    ensures Feed(s, FieldBytes(d, t, max, f) + rest, false).out == []
  {
    var mode := ChooseMode(d, f, max);
    var r := Search(d, t, f, mode);
    FieldForm(d, t, max, f);
    if r.index >= 0 {
      var head, text := EncodeInt(FirstByte(mode), r.index + 1, IndexPrefix(mode)), EncodeString(f.value);
      assert (head + text) + rest == head + (text + rest);
      var v := IndexedNameKnown(s, d, t, max, r.index, mode, text + rest);
      ValueRefused(v, f.value, rest);
    } else {
      NewNameRefused(s, f, mode, rest);
    }
  }

  lemma NewNameRefused(s: Decoder, f: Field, mode: Mode, rest: seq<Byte>)
    requires s.Valid() && s.nv == [] && (s.phase.InflateStart? || s.phase.Opcode?) && |f.name| + |f.value| + 2 > MaxNv
    ensures Feed(s, NewNameForm(f.name, f.value, mode) + rest, false).Broken?
    ensures Feed(s, NewNameForm(f.name, f.value, mode) + rest, false).out == []
  {
    var name, text := EncodeString(f.name), EncodeString(f.value);
    NewNameParts(f, mode, rest);
    StartsNewName(s, mode, name + (text + rest));
    var v := Literal(s, mode, CheckNameLen, NewName);
    FeedContinues(s, [FirstByte(mode)] + (name + (text + rest)), false, v, name + (text + rest), false);
    if |f.name| >= MaxNv {
      NameRefused(v, f.name, text + rest);
    } else {
      StringIsSome(f.value);
      var w := NameDecodes(v, f.name, text + rest);
      ValueRefused(w, f.value, rest);
    }
  }

  // --------------------------------------------------------------- header blocks

  /** Every field of a list fits when its turn comes. */
  ghost predicate AllFit(d: Dictionary, t: seq<Entry>, max: nat, fs: seq<Field>)
    requires |d.fixed| == StaticLength
    decreases |fs|
  {
    fs == [] || (Fits(d, t, max, fs[0]) && AllFit(d, FieldTable(d, t, max, fs[0]), max, fs[1..]))
  }

  function ReceivedAll(d: Dictionary, max: nat, fs: seq<Field>): seq<Field>
  {
    if fs == [] then [] else [Received(d, max, fs[0])] + ReceivedAll(d, max, fs[1..])
  }

  lemma {:induction false} FieldsDecode(s: Decoder, d: Dictionary, t: seq<Entry>, max: nat, fs: seq<Field>)
    returns (u: Decoder)
    requires Between(s, d, t, max) && GoodTable(d, t, max) && AllFit(d, t, max, fs)
    ensures Between(u, d, FieldsTable(d, t, max, fs), max) && u.settingsMax == s.settingsMax
    ensures if fs == [] then u == s else u.phase.Opcode?
    ensures Feed(s, FieldsBytes(d, t, max, fs), false) == Fed(u, ReceivedAll(d, max, fs))
    decreases |fs|
  {
    if fs == [] {
      u := s;
    } else {
      var t1 := FieldTable(d, t, max, fs[0]);
      FieldTableValid(d, t, max, fs[0]);
      var v := FieldDecodes(s, d, t, max, fs[0], FieldsBytes(d, t1, max, fs[1..]));
      u := FieldsDecode(v, d, t1, max, fs[1..]);
    }
  }

  lemma {:induction false} FieldsRefused(s: Decoder, d: Dictionary, t: seq<Entry>, max: nat, fs: seq<Field>)
    requires Between(s, d, t, max) && GoodTable(d, t, max) && !AllFit(d, t, max, fs)
    ensures Feed(s, FieldsBytes(d, t, max, fs), false).Broken?
    decreases |fs|
  {
    var t1 := FieldTable(d, t, max, fs[0]);
    var rest := FieldsBytes(d, t1, max, fs[1..]);
    FieldTableValid(d, t, max, fs[0]);
    if Fits(d, t, max, fs[0]) {
      var v := FieldDecodes(s, d, t, max, fs[0], rest);
      FieldsRefused(v, d, t1, max, fs[1..]);
    } else {
      FieldRefused(s, d, t, max, fs[0], rest);
    }
  }

  // ----------------------------------------------------------------- table limits

  /** Between two blocks, where alone the decoder lets its limit be changed. */
  predicate BetweenBlocks(s: Decoder) { s.phase.ExpectTableSize? || s.phase.InflateStart? }

  /** nghttp2_hd_inflate_change_table_size. */
  function ChangeDecoderLimit(s: Decoder, settings: nat): (r: Decoder)
    requires BetweenBlocks(s)
    ensures BetweenBlocks(r) && (s.Valid() ==> r.Valid())
  {
    s.(phase := ExpectTableSize, settingsMax := settings, max := settings, table := Shrink(s.table, settings))
  }

  /** nghttp2_hd_inflate_end_headers. */
  function EndHeaders(s: Decoder): (r: Decoder)
    ensures BetweenBlocks(r) && (s.Valid() ==> r.Valid())
  {
    s.(phase := InflateStart)
  }

  lemma SizeUpdateDecodes(s: Decoder, size: nat, rest: seq<Byte>) returns (u: Decoder)
    requires s.Valid() && (s.phase.ExpectTableSize? || s.phase.InflateStart?) && size <= s.settingsMax <= UINT32_MAX
    ensures u.Valid() && u.phase.InflateStart? && u.max == size && u.table == Shrink(s.table, size)
    ensures u.nv == s.nv && u.dict == s.dict && u.settingsMax == s.settingsMax
    ensures Feed(s, SizeUpdate(size) + rest, false) == Feed(u, rest, false)
  {
    var input := SizeUpdate(size) + rest;
    FirstOctet(0x20, size, 5);
    var v := Restart(s, ReadTableSize).(op := Indexed);
    FeedContinues(s, input, false, v, input, false);
    var w := ReadsInt(v, 0x20, size, 5, s.settingsMax, rest);
    u := w.(max := size, table := Shrink(s.table, size), phase := InflateStart);
    FeedContinues(v, input, false, u, rest, false);
  }

  /**
   * Encoder and decoder of one connection between two blocks.  Without pending
   * announcements the tables are equal; otherwise announcing will make them equal.
   */
  ghost predicate Synced(e: Encoder, s: Decoder)
  {
    && e.Valid() && s.Valid() && s.dict == e.dict && s.nv == []
    && e.max <= e.ownMax <= UINT32_MAX && e.max <= s.settingsMax <= UINT32_MAX
    && (s.phase.InflateStart? || (s.phase.ExpectTableSize? && e.notify))
    && (if e.notify then (e.leastMax <= e.max || e.max == e.ownMax) && e.table == Shrink(s.table, Min(e.leastMax, e.max))
        else e.leastMax == UINT32_MAX && s.table == e.table && s.max == e.max)
  }

  /** The announcement is accepted and leaves the decoder with the encoder's table and limit. */
  lemma AnnouncementDecodes(e: Encoder, s: Decoder, rest: seq<Byte>) returns (u: Decoder)
    requires Synced(e, s)
    ensures Between(u, e.dict, e.table, e.max) && u.phase.InflateStart? && u.settingsMax == s.settingsMax
    ensures Feed(s, Announcement(e) + rest, false) == Feed(u, rest, false)
  {
    if !e.notify {
      assert [] + rest == rest;
      u := s;
    } else if e.max > e.leastMax {
      var a, b := SizeUpdate(e.leastMax), SizeUpdate(e.max);
      assert (a + b) + rest == a + (b + rest);
      var v := SizeUpdateDecodes(s, e.leastMax, b + rest);
      u := SizeUpdateDecodes(v, e.max, rest);
      ShrinkTwice(s.table, e.leastMax, e.max);
    } else {
      u := SizeUpdateDecodes(s, e.max, rest);
    }
  }

  lemma ChangeKeepsSynced(e: Encoder, s: Decoder, settings: nat)
    requires Synced(e, s) && settings <= UINT32_MAX
    ensures Synced(ChangeLimit(e, settings), ChangeDecoderLimit(s, settings))
  {
    var next := Min(settings, e.ownMax);
    EncoderStaysValid(e, [], settings);
    ShrinkTwice(s.table, Min(e.leastMax, e.max), next);
    ShrinkTwice(s.table, settings, Min(e.leastMax, next));
  }

  lemma InitiallySynced(d: Dictionary, ownMax: nat, s: Decoder)
    requires d.Valid() && ownMax <= UINT32_MAX && s == InitialDecoder(d)
    ensures Synced(InitialEncoder(d, ownMax), s)
  {
    Huffman.RootIsDeep();
  }

  /** nghttp2_hd_inflate_init. */
  function InitialDecoder(d: Dictionary): Decoder
  {
    Decoder(d, [], 4096, 4096, InflateStart, NoOp, false, 0, 0, 0, 0, false, false, [], [])
  }

  // ---------------------------------------------------------------------- blocks

  /** Decoding a whole block, end included. */
  ghost function DecodeBlock(s: Decoder, block: seq<Byte>): (r: Fed)
    requires s.Valid()
    ensures r.Fed? ==> r.s.Valid()
  {
    Ended(Feed(s, block, false))
  }

  /**
   * A block is decoded to the fields it was made of, in order, and leaves both tables
   * equal, if it has a field and all of its fields fit.
   */
  lemma BlockDecodes(e: Encoder, s: Decoder, fs: seq<Field>) returns (u: Decoder)
    requires Synced(e, s) && fs != [] && AllFit(e.dict, e.table, e.max, fs)
    ensures DecodeBlock(s, BlockBytes(e, fs)) == Fed(u, ReceivedAll(e.dict, e.max, fs))
    ensures Synced(AfterBlock(e, fs), EndHeaders(u)) && u.table == AfterBlock(e, fs).table
  {
    var v := AnnouncementDecodes(e, s, FieldsBytes(e.dict, e.table, e.max, fs));
    u := FieldsDecode(v, e.dict, e.table, e.max, fs);
    SyncedAfterBlock(e, fs, u);
  }

  lemma SyncedAfterBlock(e: Encoder, fs: seq<Field>, u: Decoder)
    requires e.Valid() && e.max <= e.ownMax <= UINT32_MAX && e.max <= u.settingsMax <= UINT32_MAX
    requires !e.notify ==> e.leastMax == UINT32_MAX
    requires Between(u, e.dict, FieldsTable(e.dict, e.table, e.max, fs), e.max)
    ensures Synced(AfterBlock(e, fs), EndHeaders(u)) && u.table == AfterBlock(e, fs).table
  {
    EncoderStaysValid(e, fs, 0);
  }

  /** ... and only then: an empty list or a field without room breaks the block. */
  lemma BlockRefused(e: Encoder, s: Decoder, fs: seq<Field>)
    requires Synced(e, s) && (fs == [] || !AllFit(e.dict, e.table, e.max, fs))
    ensures DecodeBlock(s, BlockBytes(e, fs)).Broken?
  {
    var v := AnnouncementDecodes(e, s, FieldsBytes(e.dict, e.table, e.max, fs));
    if AllFit(e.dict, e.table, e.max, fs) {
      var _ := FieldsDecode(v, e.dict, e.table, e.max, fs);
    } else {
      FieldsRefused(v, e.dict, e.table, e.max, fs);
    }
  }

  /** A block decodes iff it has a field and all of its fields fit. */
  lemma BlockDecodesIff(e: Encoder, s: Decoder, fs: seq<Field>)
    requires Synced(e, s)
    ensures DecodeBlock(s, BlockBytes(e, fs)).Fed? <==> fs != [] && AllFit(e.dict, e.table, e.max, fs)
  {
    if fs != [] && AllFit(e.dict, e.table, e.max, fs) {
      var _ := BlockDecodes(e, s, fs);
    } else {
      BlockRefused(e, s, fs);
    }
  }

  /** Fields whose name and value take at most 65534 octets together fit into every table. */
  lemma {:induction false} SmallFieldsFit(d: Dictionary, t: seq<Entry>, max: nat, fs: seq<Field>)
    requires |d.fixed| == StaticLength && forall i | 0 <= i < |fs| :: |fs[i].name| + |fs[i].value| + 2 <= MaxNv
    ensures AllFit(d, t, max, fs)
    decreases |fs|
  {
    if fs != [] { SmallFieldsFit(d, FieldTable(d, t, max, fs[0]), max, fs[1..]); }
  }

  /** A never-indexed field enters neither table. */
  lemma NeverIndexedStaysOut(d: Dictionary, t: seq<Entry>, max: nat, f: Field)
    requires |d.fixed| == StaticLength && ChooseMode(d, f, max).NeverIndexing?
    ensures FieldTable(d, t, max, f) == t && Received(d, max, f).noIndex
  {}

  // ----------------------------------------------------------------- connections

  /** What happens on a connection between the two ends. */
  datatype Event = SetLimit(settings: nat) | Block(fields: seq<Field>)

  function EncoderAfter(e: Encoder, events: seq<Event>): Encoder
    requires |e.dict.fixed| == StaticLength
    decreases |events|
  {
    if events == [] then e else EncoderAfter(EncoderStep(e, events[0]), events[1..])
  }

  function EncoderStep(e: Encoder, event: Event): (r: Encoder)
    requires |e.dict.fixed| == StaticLength
    ensures r.dict == e.dict
  {
    match event
    case SetLimit(n) => ChangeLimit(e, n)
    case Block(fs) => AfterBlock(e, fs)
  }

  /** All limits are 32-bit values, all blocks have fields and all fields fit. */
  ghost predicate Proper(e: Encoder, events: seq<Event>)
    requires |e.dict.fixed| == StaticLength
    decreases |events|
  {
    events == [] ||
    ((match events[0]
      case SetLimit(n) => n <= UINT32_MAX
      case Block(fs) => fs != [] && AllFit(e.dict, e.table, e.max, fs)) &&
     Proper(EncoderStep(e, events[0]), events[1..]))
  }

  /** The field lists the application at the decoder's end should receive. */
  function Expected(e: Encoder, events: seq<Event>): seq<seq<Field>>
    requires |e.dict.fixed| == StaticLength
    decreases |events|
  {
    if events == [] then []
    else
      var later := Expected(EncoderStep(e, events[0]), events[1..]);
      match events[0]
      case SetLimit(_) => later
      case Block(fs) => [ReceivedAll(e.dict, e.max, fs)] + later
  }

  /** The field lists it does receive, and the decoder's final state; `None` after an error. */
  ghost function Transfer(e: Encoder, s: Decoder, events: seq<Event>): Option<(seq<seq<Field>>, Decoder)>
    requires |e.dict.fixed| == StaticLength && s.Valid() && BetweenBlocks(s)
    decreases |events|
  {
    if events == [] then Some(([], s))
    else
      var next := EncoderStep(e, events[0]);
      match events[0]
      case SetLimit(n) => Transfer(next, ChangeDecoderLimit(s, n), events[1..])
      case Block(fs) =>
        match DecodeBlock(s, BlockBytes(e, fs))
        case Broken(_, _) => None
        case Fed(u, out) =>
          match Transfer(next, EndHeaders(u), events[1..])
          case None => None
          case Some((later, last)) => Some(([out] + later, last))
  }

  /**
   * Over every run of blocks and limit changes the application receives exactly the lists
   * sent, in order, and encoder and decoder end in step.
   */
  lemma {:induction false} ConnectionStaysInSync(e: Encoder, s: Decoder, events: seq<Event>) returns (last: Decoder)
    requires Synced(e, s) && Proper(e, events)
    ensures Transfer(e, s, events) == Some((Expected(e, events), last))
    ensures Synced(EncoderAfter(e, events), last)
    decreases |events|
  {
    if events == [] {
      last := s;
    } else {
      match events[0]
      case SetLimit(n) =>
        ChangeKeepsSynced(e, s, n);
        last := ConnectionStaysInSync(ChangeLimit(e, n), ChangeDecoderLimit(s, n), events[1..]);
      case Block(fs) =>
        var u := BlockDecodes(e, s, fs);
        last := ConnectionStaysInSync(AfterBlock(e, fs), EndHeaders(u), events[1..]);
    }
  }
}
