/**
 * Header table entries and the dynamic table as a newest-first sequence
 * (sections 2.3 and 4 of RFC 7541; the table operations of lib/nghttp2_hd.c).
 */
module HpackTable {
  import opened Bytes

  /** A header field; `noIndex` is the NGHTTP2_NV_FLAG_NO_INDEX flag. */
  datatype Field = Field(name: seq<Byte>, value: seq<Byte>, noIndex: bool)

  /** A table entry; `token` numbers the known names and is -1 for the others. */
  datatype Entry = Entry(name: seq<Byte>, value: seq<Byte>, token: int)

  /** NGHTTP2_STATIC_TABLE_LENGTH. */
  const StaticLength: nat := 61

  /** The static table together with the numbering of known names. */
  datatype Dictionary = Dictionary(fixed: seq<Entry>, token: seq<Byte> -> int)
  {
    /** Equal numbers mean equal names, and numbers below 61 are static positions. */
    ghost predicate Valid()
    {
      && |fixed| == StaticLength
      && (forall name :: -1 <= token(name))
      && (forall a, b | token(a) == token(b) && token(a) >= 0 :: a == b)
      && (forall i | 0 <= i < StaticLength :: token(fixed[i].name) == fixed[i].token)
      && (forall name | 0 <= token(name) < StaticLength :: fixed[token(name)].name == name)
    }

    /** Equal names of the static table follow one another, from the position that is their number on. */
    ghost predicate Grouped()
      requires |fixed| == StaticLength
    {
      forall i | 0 <= i < StaticLength :: GroupedAt(i)
    }

    ghost predicate GroupedAt(i: nat)
      requires i < StaticLength == |fixed|
    {
      0 <= fixed[i].token <= i && forall j | fixed[i].token <= j <= i :: fixed[j].token == fixed[i].token
    }
  }

  /** The entry `e` is numbered as its name demands. */
  predicate WellNumbered(d: Dictionary, e: Entry) { e.token == d.token(e.name) }

  predicate AllNumbered(d: Dictionary, t: seq<Entry>) { forall i | 0 <= i < |t| :: WellNumbered(d, t[i]) }

  // ------------------------------------------------------------ dynamic table

  /** NGHTTP2_HD_ENTRY_OVERHEAD plus the octets of name and value. */
  function Room(nameLen: nat, valueLen: nat): nat { 32 + nameLen + valueLen }

  function EntryRoom(e: Entry): nat { Room(|e.name|, |e.value|) }

  function TableSize(t: seq<Entry>): nat
  {
    if t == [] then 0 else TableSize(t[..|t| - 1]) + EntryRoom(t[|t| - 1])
  }

  /** Drops oldest entries until `room` more octets fit below `max` or nothing is left. */
  function EvictFor(t: seq<Entry>, room: nat, max: nat): seq<Entry>
    decreases |t|
  {
    if t == [] || TableSize(t) + room <= max then t else EvictFor(t[..|t| - 1], room, max)
  }

  function Shrink(t: seq<Entry>, max: nat): seq<Entry> { EvictFor(t, 0, max) }

  /** Adds an entry in front; one that exceeds the table by itself only empties it. */
  function Insert(t: seq<Entry>, e: Entry, max: nat): seq<Entry>
  {
    var u := EvictFor(t, EntryRoom(e), max);
    if EntryRoom(e) > max then u else [e] + u
  }

  lemma {:induction false} TableSizeFront(e: Entry, t: seq<Entry>)
    ensures TableSize([e] + t) == EntryRoom(e) + TableSize(t)
    decreases |t|
  {
    if t == [] {
      assert [e] + t == [e];
      assert [e][..0] == [];
    } else {
      TableSizeFront(e, t[..|t| - 1]);
      assert ([e] + t)[..|t|] == [e] + t[..|t| - 1];
    }
  }

  lemma {:induction false} PrefixIsSmaller(t: seq<Entry>, k: nat)
    requires k <= |t|
    ensures TableSize(t[..k]) + 32 * (|t| - k) <= TableSize(t)
    decreases |t| - k
  {
    if k < |t| {
      PrefixIsSmaller(t, k + 1);
      assert t[..k + 1][..k] == t[..k];
    } else {
      assert t[..k] == t;
    }
  }

  /**
   * Eviction removes the fewest oldest entries that make room: what stays is a prefix
   * that fits (or is empty), and no longer prefix fits.
   */
  lemma {:induction false} EvictIsMinimal(t: seq<Entry>, room: nat, max: nat)
    ensures EvictFor(t, room, max) <= t
    ensures EvictFor(t, room, max) == [] || TableSize(EvictFor(t, room, max)) + room <= max
    ensures forall k | |EvictFor(t, room, max)| < k <= |t| :: TableSize(t[..k]) + room > max
    decreases |t|
  {
    if t != [] && TableSize(t) + room > max {
      var s := t[..|t| - 1];
      EvictIsMinimal(s, room, max);
      forall k | |EvictFor(t, room, max)| < k <= |t| ensures TableSize(t[..k]) + room > max {
        if k == |t| { assert t[..k] == t; } else { assert t[..k] == s[..k]; }
      }
    }
  }

  /** A fitting prefix that cannot be extended is what eviction leaves. */
  lemma {:induction false} EvictIs(t: seq<Entry>, room: nat, max: nat, k: nat)
    requires k <= |t| && (k == 0 || TableSize(t[..k]) + room <= max)
    requires forall j | k < j <= |t| :: TableSize(t[..j]) + room > max
    ensures EvictFor(t, room, max) == t[..k]
    decreases |t|
  {
    if k == |t| {
      assert t[..k] == t;
    } else {
      var s := t[..|t| - 1];
      assert t[..|t|] == t;
      forall j | k < j <= |s| ensures TableSize(s[..j]) + room > max { assert s[..j] == t[..j]; }
      assert s[..k] == t[..k];
      EvictIs(s, room, max, k);
    }
  }

  lemma TableFits(t: seq<Entry>, e: Entry, max: nat)
    ensures TableSize(Insert(t, e, max)) <= max
    ensures EntryRoom(e) > max ==> Insert(t, e, max) == []
  {
    EvictIsMinimal(t, EntryRoom(e), max);
    TableSizeFront(e, EvictFor(t, EntryRoom(e), max));
  }

  lemma ShrinkFits(t: seq<Entry>, max: nat)
    ensures TableSize(Shrink(t, max)) <= max
  {
    EvictIsMinimal(t, 0, max);
  }

  /** Shrinking twice is shrinking to the smaller limit. */
  lemma {:induction false} ShrinkTwice(t: seq<Entry>, a: nat, b: nat)
    ensures Shrink(Shrink(t, a), b) == Shrink(t, Min(a, b))
    decreases |t|
  {
    if t != [] && TableSize(t) > a {
      ShrinkTwice(t[..|t| - 1], a, b);
    } else if t != [] && TableSize(t) > b {
      ShrinkTwice(t[..|t| - 1], a, b);
      PrefixIsSmaller(t, |t| - 1);
    }
  }

  /** The smallest of a limit and the limits that follow it. */
  function LeastLimit(limits: seq<nat>, start: nat): nat
  {
    if limits == [] then start else Min(LeastLimit(limits[..|limits| - 1], start), limits[|limits| - 1])
  }

  function ShrinkAll(t: seq<Entry>, limits: seq<nat>): seq<Entry>
  {
    if limits == [] then t else Shrink(ShrinkAll(t, limits[..|limits| - 1]), limits[|limits| - 1])
  }

  /** Shrinking through any sequence of limits is shrinking to the least of them. */
  lemma {:induction false} ShrinkThrough(t: seq<Entry>, limits: seq<nat>, start: nat)
    requires TableSize(t) <= start
    ensures ShrinkAll(t, limits) == Shrink(t, LeastLimit(limits, start))
    decreases |limits|
  {
    if limits != [] {
      var rest := limits[..|limits| - 1];
      ShrinkThrough(t, rest, start);
      ShrinkTwice(t, LeastLimit(rest, start), limits[|limits| - 1]);
    }
  }

  /** Eviction and insertion keep every entry numbered as its name demands. */
  lemma InsertNumbered(d: Dictionary, t: seq<Entry>, e: Entry, max: nat)
    requires AllNumbered(d, t) && WellNumbered(d, e)
    ensures AllNumbered(d, Insert(t, e, max))
  {
    EvictIsMinimal(t, EntryRoom(e), max);
  }

  lemma ShrinkNumbered(d: Dictionary, t: seq<Entry>, max: nat)
    requires AllNumbered(d, t)
    ensures AllNumbered(d, Shrink(t, max))
  {
    EvictIsMinimal(t, 0, max);
  }
}
