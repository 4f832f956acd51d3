/**
 * The encoder as functions (lib/nghttp2_hd.c): choosing a representation for a
 * field, searching the tables and writing a header block.
 */
module HpackEncoder {
  import opened Bytes
  import opened HpackInteger
  import opened HpackTable
  import Huffman = HuffmanCode

  datatype Mode = WithIndexing | WithoutIndexing | NeverIndexing

  /**
   * Encoder state: table and limit, the largest limit it will use, the least limit
   * since the last block and whether limits must be announced.
   */
  datatype Encoder = Encoder(dict: Dictionary, table: seq<Entry>, max: nat, ownMax: nat, leastMax: nat, notify: bool)
  {
    ghost predicate Valid()
    {
      && dict.Valid() && AllNumbered(dict, table) && TableSize(table) <= max
      && max <= UINT32_MAX && leastMax <= UINT32_MAX
    }
  }

  // ---------------------------------------------------------------- searching

  /** What a search found: the index of the best entry or -1, and if the value matched too. */
  datatype Found = Found(index: int, matched: bool)

  /** Entries of the static table from `i` on that carry `token`. */
  function SearchStaticFrom(d: Dictionary, i: nat, token: int, value: seq<Byte>): Found
    requires |d.fixed| == StaticLength
    decreases StaticLength - i
  {
    if i < StaticLength && d.fixed[i].token == token then
      if d.fixed[i].value == value then Found(i, true) else SearchStaticFrom(d, i + 1, token, value)
    else Found(token, false)
  }

  function SearchStatic(d: Dictionary, token: nat, value: seq<Byte>, mode: Mode): Found
    requires |d.fixed| == StaticLength
  {
    if mode.NeverIndexing? then Found(token, false) else SearchStaticFrom(d, token, token, value)
  }

  /** Entries of the dynamic table from `i` on; `best` is the index of the name found so far. */
  function SearchDynamicFrom(t: seq<Entry>, i: nat, best: int, f: Field, token: int, mode: Mode): Found
    requires i <= |t|
    decreases |t| - i
  {
    if i == |t| then Found(best, false)
    else if t[i].token != token || (token == -1 && t[i].name != f.name) then
      SearchDynamicFrom(t, i + 1, best, f, token, mode)
    else if !mode.NeverIndexing? && t[i].value == f.value then Found(i + StaticLength, true)
    else SearchDynamicFrom(t, i + 1, if best == -1 then i + StaticLength else best, f, token, mode)
  }

  function Search(d: Dictionary, t: seq<Entry>, f: Field, mode: Mode): Found
    requires |d.fixed| == StaticLength
  {
    var token := d.token(f.name);
    if 0 <= token < StaticLength then
      var r := SearchStatic(d, token, f.value, mode);
      if r.matched then r else SearchDynamicFrom(t, 0, r.index, f, token, mode)
    else SearchDynamicFrom(t, 0, -1, f, token, mode)
  }

  /** The entry at an index of the joint address space. */
  function TableGet(d: Dictionary, t: seq<Entry>, i: nat): Entry
    requires |d.fixed| == StaticLength && i < StaticLength + |t|
  {
    if i < StaticLength then d.fixed[i] else t[i - StaticLength]
  }

  /** An index that a search for `f` may return. */
  ghost predicate GoodIndex(d: Dictionary, t: seq<Entry>, i: int, f: Field)
    requires |d.fixed| == StaticLength
  {
    i == -1 || (0 <= i < StaticLength + |t| && TableGet(d, t, i).name == f.name)
  }

  ghost predicate GoodResult(d: Dictionary, t: seq<Entry>, r: Found, f: Field, mode: Mode)
    requires |d.fixed| == StaticLength
  {
    && GoodIndex(d, t, r.index, f)
    && (r.matched ==> r.index != -1 && !mode.NeverIndexing? && TableGet(d, t, r.index).value == f.value)
  }

  lemma {:induction false} SearchStaticSound(d: Dictionary, t: seq<Entry>, i: nat, f: Field, token: nat, mode: Mode)
    requires d.Valid() && token == d.token(f.name) < StaticLength && !mode.NeverIndexing?
    ensures GoodResult(d, t, SearchStaticFrom(d, i, token, f.value), f, mode)
    decreases StaticLength - i
  {
    if i < StaticLength && d.fixed[i].token == token {
      assert d.token(d.fixed[i].name) == d.token(f.name);
      SearchStaticSound(d, t, i + 1, f, token, mode);
    } else {
      assert d.fixed[token].name == f.name;
    }
  }

  lemma {:induction false} SearchDynamicSound(d: Dictionary, t: seq<Entry>, i: nat, best: int, f: Field, mode: Mode)
    requires d.Valid() && AllNumbered(d, t) && i <= |t| && GoodIndex(d, t, best, f)
    ensures GoodResult(d, t, SearchDynamicFrom(t, i, best, f, d.token(f.name), mode), f, mode)
    decreases |t| - i
  {
    if i < |t| {
      var token := d.token(f.name);
      assert WellNumbered(d, t[i]);
      if t[i].token != token || (token == -1 && t[i].name != f.name) {
        SearchDynamicSound(d, t, i + 1, best, f, mode);
      } else {
        assert t[i].name == f.name;
        assert TableGet(d, t, i + StaticLength) == t[i];
        SearchDynamicSound(d, t, i + 1, if best == -1 then i + StaticLength else best, f, mode);
      }
    }
  }

  /** A search names only entries with the field's name, and matches only its value. */
  lemma SearchSound(d: Dictionary, t: seq<Entry>, f: Field, mode: Mode)
    requires d.Valid() && AllNumbered(d, t)
    ensures GoodResult(d, t, Search(d, t, f, mode), f, mode)
  {
    var token := d.token(f.name);
    if 0 <= token < StaticLength {
      assert d.fixed[token].name == f.name;
      if !mode.NeverIndexing? { SearchStaticSound(d, t, token, f, token, mode); }
      SearchDynamicSound(d, t, 0, SearchStatic(d, token, f.value, mode).index, f, mode);
    } else {
      SearchDynamicSound(d, t, 0, -1, f, mode);
    }
  }

  // ------------------------------------------------------------ representations

  ghost function EncodeString(s: seq<Byte>): seq<Byte>
  {
    if |Huffman.Encode(s)| < |s| then EncodeInt(0x80, |Huffman.Encode(s)|, 7) + Huffman.Encode(s)
    else EncodeInt(0, |s|, 7) + s
  }

  /** Upper bits of a literal representation. */
  function FirstByte(mode: Mode): Byte
  {
    match mode
    case WithIndexing => 0x40
    case WithoutIndexing => 0
    case NeverIndexing => 0x10
  }

  function IndexPrefix(mode: Mode): nat { if mode.WithIndexing? then 6 else 4 }

  function IndexedForm(index: nat): seq<Byte> { EncodeInt(0x80, index + 1, 7) }

  ghost function IndexedNameForm(index: nat, value: seq<Byte>, mode: Mode): seq<Byte>
  {
    EncodeInt(FirstByte(mode), index + 1, IndexPrefix(mode)) + EncodeString(value)
  }

  ghost function NewNameForm(name: seq<Byte>, value: seq<Byte>, mode: Mode): seq<Byte>
  {
    [FirstByte(mode)] + EncodeString(name) + EncodeString(value)
  }

  function SizeUpdate(size: nat): seq<Byte> { EncodeInt(0x20, size, 5) }

  /** Names whose values rarely repeat are not indexed: positions in the static table. */
  predicate RarelyRepeats(token: int)
  {
    // :path, age, content-length, etag, if-modified-since, if-none-match, location, set-cookie
    token == 3 || token == 20 || token == 27 || token == 33 ||
    token == 39 || token == 40 || token == 45 || token == 54
  }

  /** authorization, short cookies and fields flagged by the application are never indexed. */
  function ChooseMode(d: Dictionary, f: Field, max: nat): Mode
  {
    var token := d.token(f.name);
    if token == 22 || (token == 31 && |f.value| < 20) || f.noIndex then NeverIndexing
    else if RarelyRepeats(token) || Room(|f.name|, |f.value|) > max * 3 / 4 then WithoutIndexing
    else WithIndexing
  }

  // ------------------------------------------------------------------- blocks

  /** The octets of one field, searched in the table before the field is added. */
  ghost function FieldBytes(d: Dictionary, t: seq<Entry>, max: nat, f: Field): seq<Byte>
    requires |d.fixed| == StaticLength
  {
    var mode := ChooseMode(d, f, max);
    var r := Search(d, t, f, mode);
    if r.matched && r.index >= 0 then IndexedForm(r.index)
    else if r.index < 0 then NewNameForm(f.name, f.value, mode)
    else IndexedNameForm(r.index, f.value, mode)
  }

  /** The table after one field. */
  function FieldTable(d: Dictionary, t: seq<Entry>, max: nat, f: Field): seq<Entry>
    requires |d.fixed| == StaticLength
  {
    var mode := ChooseMode(d, f, max);
    if Search(d, t, f, mode).matched || !mode.WithIndexing? then t
    else Insert(t, Entry(f.name, f.value, d.token(f.name)), max)
  }

  ghost function FieldsBytes(d: Dictionary, t: seq<Entry>, max: nat, fs: seq<Field>): seq<Byte>
    requires |d.fixed| == StaticLength
    decreases |fs|
  {
    if fs == [] then []
    else FieldBytes(d, t, max, fs[0]) + FieldsBytes(d, FieldTable(d, t, max, fs[0]), max, fs[1..])
  }

  function FieldsTable(d: Dictionary, t: seq<Entry>, max: nat, fs: seq<Field>): seq<Entry>
    requires |d.fixed| == StaticLength
    decreases |fs|
  {
    if fs == [] then t else FieldsTable(d, FieldTable(d, t, max, fs[0]), max, fs[1..])
  }

  /** Announced limits: the least one if the limit went below the current one, then the current one. */
  function Announcement(e: Encoder): seq<Byte>
  {
    if !e.notify then []
    else if e.max > e.leastMax then SizeUpdate(e.leastMax) + SizeUpdate(e.max)
    else SizeUpdate(e.max)
  }

  ghost function BlockBytes(e: Encoder, fs: seq<Field>): seq<Byte>
    requires |e.dict.fixed| == StaticLength
  {
    Announcement(e) + FieldsBytes(e.dict, e.table, e.max, fs)
  }

  /** The encoder after a block. */
  function AfterBlock(e: Encoder, fs: seq<Field>): Encoder
    requires |e.dict.fixed| == StaticLength
  {
    var announced := if e.notify then e.(notify := false, leastMax := UINT32_MAX) else e;
    announced.(table := FieldsTable(e.dict, e.table, e.max, fs))
  }

  /** nghttp2_hd_deflate_change_table_size. */
  function ChangeLimit(e: Encoder, settings: nat): Encoder
  {
    var next := Min(settings, e.ownMax);
    e.(max := next, leastMax := Min(e.leastMax, next), notify := true, table := Shrink(e.table, next))
  }

  /** nghttp2_hd_deflate_init2. */
  function InitialEncoder(d: Dictionary, ownMax: nat): Encoder
  {
    if ownMax < 4096 then Encoder(d, [], ownMax, ownMax, UINT32_MAX, true)
    else Encoder(d, [], 4096, ownMax, UINT32_MAX, false)
  }

  lemma FieldTableValid(d: Dictionary, t: seq<Entry>, max: nat, f: Field)
    requires d.Valid() && AllNumbered(d, t) && TableSize(t) <= max
    ensures AllNumbered(d, FieldTable(d, t, max, f)) && TableSize(FieldTable(d, t, max, f)) <= max
  {
    var e := Entry(f.name, f.value, d.token(f.name));
    InsertNumbered(d, t, e, max);
    TableFits(t, e, max);
  }

  lemma {:induction false} FieldsTableValid(d: Dictionary, t: seq<Entry>, max: nat, fs: seq<Field>)
    requires d.Valid() && AllNumbered(d, t) && TableSize(t) <= max
    ensures AllNumbered(d, FieldsTable(d, t, max, fs)) && TableSize(FieldsTable(d, t, max, fs)) <= max
    decreases |fs|
  {
    if fs != [] {
      FieldTableValid(d, t, max, fs[0]);
      FieldsTableValid(d, FieldTable(d, t, max, fs[0]), max, fs[1..]);
    }
  }

  /** Every operation keeps the encoder valid: in particular its table below its limit. */
  lemma EncoderStaysValid(e: Encoder, fs: seq<Field>, settings: nat)
    requires e.Valid() && e.ownMax <= UINT32_MAX
    ensures AfterBlock(e, fs).Valid() && ChangeLimit(e, settings).Valid()
    ensures InitialEncoder(e.dict, e.ownMax).Valid()
  {
    FieldsTableValid(e.dict, e.table, e.max, fs);
    ShrinkFits(e.table, Min(settings, e.ownMax));
    ShrinkNumbered(e.dict, e.table, Min(settings, e.ownMax));
  }
}
