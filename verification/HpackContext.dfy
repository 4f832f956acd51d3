/**
 * The dynamic table as it is stored (lib/nghttp2_hd.c): a power-of-two ring buffer
 * whose first position runs backwards and wraps at the machine word, and the
 * context that keeps the table below its size limit.
 */
module HpackContext {
  import opened Bytes
  import opened HpackInteger
  import opened HpackTable

  /** Number of values of size_t. */
  const Word: nat := 0x10000000000000000

  /** Largest number of places that doubling can reach without wrapping. */
  const MaxPlaces: nat := 0x8000000000000000

  lemma WordIsPower()
    ensures Word == Pow2(64) && MaxPlaces == Pow2(63)
  {
    Pow2Values();
    Pow2Add(32, 32);
    Pow2Add(1, 63);
    assert Pow2(1) == 2;
  }

  /** Position `i` places after `base` in a ring of `size` places. */
  function Wrap(base: nat, i: nat, size: nat): nat { if base + i < size then base + i else base + i - size }

  /** A power of two divides the machine word, so wrapping there does not move a ring position. */
  lemma WordWraps(x: nat, k: nat)
    requires k <= 64
    ensures x % Word % Pow2(k) == x % Pow2(k)
  {
    WordIsPower();
    Pow2Add(64 - k, k);
    RemainderOfMultiple(x, Pow2(64 - k), Pow2(k));
  }

  lemma RemainderOfMultiple(x: nat, m: nat, d: nat)
    requires m > 0 && d > 0
    ensures m * d > 0 && x % (m * d) % d == x % d
  {
    Positive(m, d);
    var w := m * d;
    var q, r := x / w, x % w;
    var s, t := r / d, r % d;
    assert x == w * q + r && r == d * s + t;
    Regroup(x, m, d, q, s, t);
    RemainderIsUnique(x, d, m * q + s, t);
  }

  lemma Positive(m: nat, d: nat)
    requires m > 0 && d > 0
    ensures m * d > 0
  {}

  lemma Regroup(x: nat, m: nat, d: nat, q: nat, s: nat, t: nat)
    requires x == m * d * q + (d * s + t)
    ensures x == d * (m * q + s) + t
  {}

  lemma AddToRemainder(x: nat, i: nat, d: nat)
    requires i < d
    ensures (x + i) % d == Wrap(x % d, i, d)
  {
    var q, r := x / d, x % d;
    assert x == d * q + r;
    if r + i < d {
      RemainderIsUnique(x + i, d, q, r + i);
    } else {
      assert x + i == d * (q + 1) + (r + i - d);
      RemainderIsUnique(x + i, d, q + 1, r + i - d);
    }
  }

  /** Stepping back by one, through the end of the machine word if need be. */
  lemma StepBack(first: nat, k: nat)
    requires first < Word && k <= 64
    ensures ((first + Word - 1) % Word) % Pow2(k) == Wrap(first % Pow2(k), Pow2(k) - 1, Pow2(k))
  {
    WordWraps(first + Word - 1, k);
    WordIsPower();
    Pow2Add(64 - k, k);
    StepBackIn(first, Pow2(64 - k), Pow2(k));
  }

  lemma StepBackIn(first: nat, m: nat, d: nat)
    requires m > 0 && d > 0
    ensures m * d > 0 && (first + m * d - 1) % d == Wrap(first % d, d - 1, d)
  {
    Positive(m, d);
    AddToRemainder(first, d - 1, d);
    OneLess(m, d);
    ShiftByMultiple(first + (d - 1), m - 1, d);
  }

  lemma OneLess(m: nat, d: nat)
    requires m > 0
    ensures m * d == d * (m - 1) + d
  {}

  lemma ShiftByMultiple(x: nat, m: nat, d: nat)
    requires d > 0
    ensures (x + d * m) % d == x % d
  {
    var q, r := x / d, x % d;
    assert x == d * q + r;
    assert x + d * m == d * (q + m) + r;
    RemainderIsUnique(x + d * m, d, q + m, r);
  }

  /** The `len` entries of a ring from position `base` on. */
  function RingSeq(ring: seq<Entry>, base: nat, len: nat): (s: seq<Entry>)
    requires base < |ring| && len <= |ring|
    ensures |s| == len
  {
    seq(len, i requires 0 <= i < len => ring[Wrap(base, i, |ring|)])
  }

  lemma RingPushed(ring: seq<Entry>, base: nat, len: nat, e: Entry)
    requires base < |ring| && len < |ring|
    ensures
      var at := Wrap(base, |ring| - 1, |ring|);
      RingSeq(ring[at := e], at, len + 1) == [e] + RingSeq(ring, base, len)
  {
    var at := Wrap(base, |ring| - 1, |ring|);
    var was, now := RingSeq(ring, base, len), RingSeq(ring[at := e], at, len + 1);
    forall i | 1 <= i <= len ensures now[i] == was[i - 1] {
      assert Wrap(at, i, |ring|) == Wrap(base, i - 1, |ring|) != at;
    }
  }

  class RingBuf {
    var buffer: array<Entry>
    /** The buffer has `1 << log` places; the source keeps the mask `(1 << log) - 1`. */
    ghost var log: nat
    var first: nat
    var len: nat

    ghost predicate Valid()
      reads this, buffer
    {
      log <= 64 && buffer.Length == Pow2(log) && first < Word && len <= buffer.Length
    }

    /** Newest first. */
    ghost function Contents(): (s: seq<Entry>)
      requires Valid()
      reads this, buffer
      ensures |s| == len
    {
      RingSeq(buffer[..], first % buffer.Length, len)
    }

    constructor (size: nat)
      requires 1 <= size <= MaxPlaces
      ensures Valid() && fresh(buffer) && Contents() == [] && size <= buffer.Length
    {
      var places, l := RoundUp(size);
      buffer := new Entry[places](_ => Entry([], [], -1));
      log := l;
      first := 0;
      len := 0;
    }

    method Get(idx: nat) returns (e: Entry)
      requires Valid() && idx < len
      ensures e == Contents()[idx]
    {
      WordWraps(first + idx, log);
      AddToRemainder(first, idx, buffer.Length);
      e := buffer[(first + idx) % Word % buffer.Length];
    }

    /** Makes room for `size` entries, moving the contents to a larger buffer if needed. */
    method Reserve(size: nat)
      requires Valid() && 1 <= size <= MaxPlaces
      modifies this
      ensures Valid() && size <= buffer.Length && Contents() == old(Contents()) && len == old(len)
      ensures buffer == old(buffer) || fresh(buffer)
    {
      if buffer.Length >= size {
        return;
      }
      var places, l := RoundUp(size);
      var next := new Entry[places](_ => Entry([], [], -1));
      var i := 0;
      while i < len
        invariant 0 <= i <= len <= next.Length == places && fresh(next)
        invariant Valid() && unchanged(this)
        invariant forall k | 0 <= k < i :: next[k] == Contents()[k]
        modifies next
      {
        next[i] := Get(i);
        i := i + 1;
      }
      buffer, log, first := next, l, 0;
      assert forall k | 0 <= k < len :: Wrap(0, k, buffer.Length) == k;
    }

    method PushFront(e: Entry)
      requires Valid() && len < MaxPlaces
      modifies this, buffer
      ensures Valid() && Contents() == [e] + old(Contents())
      ensures buffer == old(buffer) || fresh(buffer)
    {
      Reserve(len + 1);
      StepBack(first, log);
      RingPushed(buffer[..], first % buffer.Length, len, e);
      ghost var ring := buffer[..];
      first := (first + Word - 1) % Word;
      buffer[first % buffer.Length] := e;
      len := len + 1;
      assert buffer[..] == ring[first % buffer.Length := e];
    }

    method PopBack()
      requires Valid() && len > 0
      modifies this
      ensures Valid() && Contents() == old(Contents())[..|old(Contents())| - 1] && buffer == old(buffer)
    {
      len := len - 1;
    }
  }

  /** The least power of two that is at least `size`. */
  method RoundUp(size: nat) returns (places: nat, ghost l: nat)
    requires 1 <= size <= MaxPlaces
    ensures places == Pow2(l) && l <= 63 && size <= places && (l > 0 ==> Pow2(l - 1) < size)
  {
    places, l := 1, 0;
    WordIsPower();
    while places < size
      invariant places == Pow2(l) && l <= 63 && (l > 0 ==> Pow2(l - 1) < size)
      decreases size - places
    {
      places, l := 2 * places, l + 1;
    }
  }

  /** nghttp2_hd_context: a dynamic table with its size, its limit and the error mark. */
  class HdContext {
    const ring: RingBuf
    var bufsize: nat
    var bufsizeMax: nat
    var bad: bool

    ghost predicate Valid()
      reads this, ring, ring.buffer
    {
      ring.Valid() && bufsize == TableSize(Table()) && bufsizeMax <= UINT32_MAX
    }

    ghost function Table(): seq<Entry>
      requires ring.Valid()
      reads ring, ring.buffer
    {
      ring.Contents()
    }

    constructor ()
      ensures Valid() && fresh(ring) && fresh(ring.buffer)
      ensures Table() == [] && bufsizeMax == 4096 && !bad
    {
      ring := new RingBuf(4096 / 32);
      bufsize := 0;
      bufsizeMax := 4096;
      bad := false;
    }

    /** Drops oldest entries until `room` more octets fit or nothing is left. */
    method Evict(room: nat)
      requires Valid()
      modifies this`bufsize, ring
      ensures Valid() && Table() == EvictFor(old(Table()), room, bufsizeMax) && ring.buffer == old(ring.buffer)
    {
      while bufsize + room > bufsizeMax && ring.len > 0
        invariant Valid() && ring.buffer == old(ring.buffer)
        invariant EvictFor(Table(), room, bufsizeMax) == EvictFor(old(Table()), room, bufsizeMax)
        decreases ring.len
      {
        var e := ring.Get(ring.len - 1);
        bufsize := bufsize - EntryRoom(e);
        ring.PopBack();
      }
    }

    /** add_hd_table_incremental. */
    method AddIncremental(e: Entry)
      requires Valid()
      modifies this`bufsize, ring, ring.buffer
      ensures Valid() && Table() == Insert(old(Table()), e, bufsizeMax)
      ensures ring.buffer == old(ring.buffer) || fresh(ring.buffer)
    {
      var room := EntryRoom(e);
      Evict(room);
      if room <= bufsizeMax {
        EvictIsMinimal(old(Table()), room, bufsizeMax);
        PrefixIsSmaller(Table(), 0);
        assert TableSize(Table()[..0]) == 0;
        TableSizeFront(e, Table());
        ring.PushFront(e);
        bufsize := bufsize + room;
      }
    }

    /** hd_context_shrink_table_size after setting a new limit. */
    method SetLimit(max: nat)
      requires Valid() && max <= UINT32_MAX
      modifies this`bufsize, this`bufsizeMax, ring
      ensures Valid() && bufsizeMax == max && Table() == Shrink(old(Table()), max)
      ensures ring.buffer == old(ring.buffer)
    {
      bufsizeMax := max;
      Evict(0);
    }
  }
}
