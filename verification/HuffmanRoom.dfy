/**
 * Where in a chunk chain the Huffman encoder stands, as far as room is concerned
 * (huff_encode_sym and nghttp2_hd_huff_encode of lib/nghttp2_hd_huffman.c): the rest of a
 * code that does not fit the current chunk goes to the next one.
 */
module HuffmanRoom {
  import opened Bytes
  import opened HuffmanCode

  /** Octets left in the current chunk, chunks left after it, and free bits of the octet being written. */
  datatype Spot = Spot(avail: nat, left: nat, rembits: nat)
  {
    /** An octet that has been begun is not counted as used up. */
    predicate Valid() { 1 <= rembits <= 8 && (rembits < 8 ==> avail > 0) }
  }

  /** The spot for `need` octets in one chunk. */
  function EnsureSpot(at: Spot, size: nat, need: nat): Option<Spot>
  {
    if need <= at.avail then Some(at)
    else if at.left == 0 || size < need then None
    else Some(Spot(size, at.left - 1, 8))
  }

  /** The spot behind `n` bits of one chunk, written from an octet boundary. */
  function Behind(at: Spot, n: nat): Spot
    requires n / 8 <= at.avail
  {
    Spot(at.avail - n / 8, at.left, 8 - n % 8)
  }

  /** The spot behind the last `n` bits of a code, all in one chunk. */
  function RestSpot(at: Spot, size: nat, n: nat): Option<Spot>
  {
    match EnsureSpot(at, size, (n + 7) / 8)
    case None => None
    case Some(next) => Some(Behind(next, n))
  }

  /** The spot behind a code of `n` bits, in an octet that is begun or open. */
  function SymSpot(at: Spot, size: nat, n: nat): Option<Spot>
  {
    if at.rembits > n then Some(at.(rembits := at.rembits - n))
    else if at.avail == 0 then None
    else if at.rembits == n then Some(Spot(at.avail - 1, at.left, 8))
    else RestSpot(Spot(at.avail - 1, at.left, 8), size, n - at.rembits)
  }

  /** The octet to write to; a full chunk is left for the next one. */
  function OpenSpot(at: Spot, size: nat): Option<Spot>
  {
    if at.rembits < 8 || at.avail > 0 then Some(at)
    else if at.left == 0 then None
    else Some(Spot(size, at.left - 1, 8))
  }

  function NextSpot(at: Spot, size: nat, n: nat): Option<Spot>
  {
    if OpenSpot(at, size).None? then None else SymSpot(OpenSpot(at, size).value, size, n)
  }

  /** The spot behind a whole string, if there is room for it. */
  ghost function LastSpot(at: Spot, size: nat, src: seq<Byte>): Option<Spot>
    decreases |src|
  {
    if src == [] then Some(at)
    else
      match NextSpot(at, size, |Code(src[0])|)
      case None => None
      case Some(next) => LastSpot(next, size, src[1..])
  }

  /** Bits that can still be written if every further chunk takes `size` octets. */
  function Free(at: Spot, size: nat): int { 8 * at.avail + at.rembits - 8 + 8 * (at.left * size) }

  /** What a chunk is sure to take: up to three octets at the end of one are lost. */
  function Sure(size: nat): nat { if size < 3 then 0 else size - 3 }

  /** From `at` to `next`, `n` bits were written and at most three octets of a chunk that was left are lost. */
  predicate Used(at: Spot, next: Spot, size: nat, n: nat)
  {
    && next.Valid() && next.left <= at.left && 0 <= Free(next, size) <= Free(at, size) - n
    && Free(next, Sure(size)) >= Free(at, Sure(size)) - n
  }

  lemma OneChunkLess(left: nat, size: nat)
    requires left > 0
    ensures (left - 1) * size == left * size - size && (left - 1) * size >= 0
  {}

  lemma RestSpotFree(at: Spot, size: nat, n: nat)
    requires at.rembits == 8 && 1 <= n <= 29 && (at.left == 0 || size >= 4)
    ensures
      match RestSpot(at, size, n)
      case None => Free(at, Sure(size)) < n
      case Some(next) => Used(at, next, size, n)
  {
    if at.left > 0 {
      OneChunkLess(at.left, size);
      OneChunkLess(at.left, Sure(size));
    }
  }

  lemma OpenSpotFree(at: Spot, size: nat)
    requires at.Valid() && (at.left == 0 || size >= 4)
    ensures
      match OpenSpot(at, size)
      case None => Free(at, Sure(size)) == 0
      case Some(next) => Used(at, next, size, 0) && next.avail > 0 && next.rembits == at.rembits
  {
    assert at.left * size >= 0;
    if at.left > 0 {
      OneChunkLess(at.left, size);
      OneChunkLess(at.left, Sure(size));
    }
  }

  lemma SymSpotFree(at: Spot, size: nat, n: nat)
    requires at.Valid() && at.avail > 0 && 1 <= n <= 30 && (at.left == 0 || size >= 4)
    ensures
      match SymSpot(at, size, n)
      case None => Free(at, Sure(size)) < n
      case Some(next) => Used(at, next, size, n)
  {
    assert at.left * size >= 0;
    if at.rembits < n { RestSpotFree(Spot(at.avail - 1, at.left, 8), size, n - at.rembits); }
  }

  lemma NextSpotFree(at: Spot, size: nat, n: nat)
    requires at.Valid() && 1 <= n <= 30 && (at.left == 0 || size >= 4)
    ensures
      match NextSpot(at, size, n)
      case None => Free(at, Sure(size)) < n
      case Some(next) => Used(at, next, size, n)
  {
    OpenSpotFree(at, size);
    if OpenSpot(at, size).Some? { SymSpotFree(OpenSpot(at, size).value, size, n); }
  }

  lemma {:induction false} LastSpotFree(at: Spot, size: nat, src: seq<Byte>)
    requires at.Valid() && (at.left == 0 || size >= 4)
    ensures
      match LastSpot(at, size, src)
      case None => Free(at, Sure(size)) < |EncodeBits(src)|
      case Some(last) => last.Valid() && |EncodeBits(src)| <= Free(at, size)
    decreases |src|
  {
    if src == [] {
      assert at.left * size >= 0;
    } else {
      NextSpotFree(at, size, |Code(src[0])|);
      EncodeBitsPrepend(src[0], src[1..]);
      assert [src[0]] + src[1..] == src;
      var next := NextSpot(at, size, |Code(src[0])|);
      if next.Some? { LastSpotFree(next.value, size, src[1..]); }
    }
  }

  /**
   * `n` octets fit if there is room even when three octets of every further chunk are lost,
   * and only if there is room when none is; in the last chunk iff there is room.
   */
  predicate FitsWithin(at: Spot, size: nat, n: nat, fits: bool)
  {
    && (n <= at.avail + at.left * Sure(size) ==> fits) && (fits ==> n <= at.avail + at.left * size)
    && (at.left == 0 ==> (fits <==> n <= at.avail))
  }

  lemma StringFits(at: Spot, size: nat, src: seq<Byte>)
    requires at.rembits == 8 && (at.left == 0 || size >= 4)
    ensures FitsWithin(at, size, EncodeCount(src), LastSpot(at, size, src).Some?)
  {
    LastSpotFree(at, size, src);
  }
}
