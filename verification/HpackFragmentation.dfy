/**
 * A header block may reach the decoder in pieces of any size
 * (nghttp2_hd_inflate_hd2 of lib/nghttp2_hd.c and its caller inflate_header_block
 * of lib/nghttp2_session.c): wherever the cuts fall, the fields, the table and the
 * success or the error are the same.
 */
module HpackFragmentation {
  import opened Bytes
  import opened Bufs
  import opened HuffmanTree
  import opened HuffmanTable
  import opened HpackInteger
  import opened HpackTable
  import opened HpackDecoder
  import Codec = HuffmanCodec

  /** How a round on `a + b` relates to the round `r` on `a` alone. */
  ghost predicate CutAgrees(r: Step, b: seq<Byte>, whole: Step)
  {
    match r
    case Failed(_) => whole == r
    case Stopped(t) => b != [] ==> t.Valid() && whole == StepOf(t, b)
    case Emit(t, rest, f) => whole == Emit(t, rest + b, f)
    case Continue(t, rest, busy) => whole == Continue(t, rest + b, busy)
  }

  /** How an integer read from `a + b` relates to the one read from `a` alone. */
  ghost predicate LenAgrees(r: LenResult, b: seq<Byte>, prefix: nat, max: nat, whole: LenResult)
    requires b != []
  {
    match r
    case LenFail => whole == LenFail
    case LenMore(t) => whole == ReadLen(t, b, prefix, max)
    case LenDone(t, rest) => whole == LenDone(t, rest + b)
  }

  lemma LenCut(s: Decoder, a: seq<Byte>, b: seq<Byte>, prefix: nat, max: nat)
    requires a != [] && b != [] && (s.left == 0 ==> s.shift == 0)
    ensures LenAgrees(ReadLen(s, a, prefix, max), b, prefix, max, ReadLen(s, a + b, prefix, max))
  {
    IntConcat(s.left, s.shift, a, b, prefix);
    match DecodeInt(s.left, s.shift, a, prefix)
    case More(n, k) => TailGrows(n, k, b);
    case _ =>
  }

  // ------------------------------------------------------------ rounds that read integers

  lemma OpcodeCut(s: Decoder, a: seq<Byte>, b: seq<Byte>)
    requires a != []
    ensures CutAgrees(StepOpcode(s, a), b, StepOpcode(s, a + b))
  {
    assert (a + b)[1..] == a[1..] + b;
  }

  lemma TableSizeCut(s: Decoder, a: seq<Byte>, b: seq<Byte>)
    requires s.Valid() && s.phase.ReadTableSize? && a != [] && b != []
    ensures CutAgrees(StepTableSize(s, a), b, StepTableSize(s, a + b))
  {
    TableSizeProgress(s, a);
    LenCut(s, a, b, 5, s.settingsMax);
  }

  lemma IndexCut(s: Decoder, a: seq<Byte>, b: seq<Byte>)
    requires s.Valid() && s.phase.ReadIndex? && a != [] && b != []
    ensures CutAgrees(StepIndex(s, a), b, StepIndex(s, a + b))
  {
    IndexProgress(s, a);
    LenCut(s, a, b, IndexPrefixOf(s), StaticLength + |s.table|);
  }

  lemma NameLenCut(s: Decoder, a: seq<Byte>, b: seq<Byte>)
    requires s.Valid() && (s.phase.CheckNameLen? || s.phase.ReadNameLen?) && a != [] && b != []
    ensures CutAgrees(StepNameLen(s, a), b, StepNameLen(s, a + b))
  {
    NameLenProgress(s, a);
    LenCut(LenChecked(s, a, CheckNameLen, ReadNameLen), a, b, 7, MaxNv);
  }

  lemma ValueLenCut(s: Decoder, a: seq<Byte>, b: seq<Byte>)
    requires s.Valid() && (s.phase.CheckValueLen? || s.phase.ReadValueLen?) && a != [] && b != []
    ensures CutAgrees(StepValueLen(s, a), b, StepValueLen(s, a + b))
  {
    ValueLenProgress(s, a);
    LenCut(LenChecked(s, a, CheckValueLen, ReadValueLen), a, b, 7, MaxNv);
  }

  // ------------------------------------------------------------- rounds that read strings

  lemma RawCut(s: Decoder, a: seq<Byte>, b: seq<Byte>)
    ensures
      match ReadRaw(s, a)
      case TextFail(_) => ReadRaw(s, a + b) == ReadRaw(s, a)
      case Text(t, rest) => ReadRaw(s, a + b) == if t.left > 0 then ReadRaw(t, b) else Text(t, rest + b)
  {
    var r := ReadRaw(s, a);
    if s.left <= |a| {
      assert (a + b)[..s.left] == a[..s.left];
      assert (a + b)[s.left..] == a[s.left..] + b;
    } else {
      assert a[..|a|] == a;
      var n := Min(|a + b|, s.left);
      assert (a + b)[..n] == a + b[..n - |a|];
      assert (a + b)[n..] == b[n - |a|..];
      assert s.nv + (a + b[..n - |a|]) == (s.nv + a) + b[..n - |a|];
    }
  }

  /** How reading a string from `a + b` relates to reading it from `a` alone. */
  ghost predicate HuffAgrees(s: Decoder, a: seq<Byte>, b: seq<Byte>)
    requires s.Valid()
  {
    match ReadHuff(s, a)
    case TextFail(_) => ReadHuff(s, a + b) == ReadHuff(s, a)
    case Text(t, rest) => t.Valid() && ReadHuff(s, a + b) == if t.left > 0 then ReadHuff(t, b) else Text(t, rest + b)
  }

  lemma HuffCut(s: Decoder, a: seq<Byte>, b: seq<Byte>)
    requires s.Valid() && !InIntegerPhase(s.phase)
    ensures HuffAgrees(s, a, b)
  {
    if s.left <= |a| {
      HuffComplete(s, a, b);
    } else {
      HuffPartial(s, a, b);
    }
  }

  lemma HuffComplete(s: Decoder, a: seq<Byte>, b: seq<Byte>)
    requires s.Valid() && !InIntegerPhase(s.phase) && s.left <= |a|
    ensures HuffAgrees(s, a, b)
  {
    TextProgress(s, a);
    assert (a + b)[..s.left] == a[..s.left];
    assert (a + b)[s.left..] == a[s.left..] + b;
  }

  lemma HuffPartial(s: Decoder, a: seq<Byte>, b: seq<Byte>)
    requires s.Valid() && !InIntegerPhase(s.phase) && |a| < s.left
    ensures HuffAgrees(s, a, b)
  {
    var n := Min(|b|, s.left - |a|);
    assert (a + b)[..|a| + n] == a + b[..n];
    assert (a + b)[|a| + n..] == b[n..];
    ReadHuffIs(s, a, |a|, a, []);
    ReadHuffIs(s, a + b, |a| + n, a + b[..n], b[n..]);
    TextProgress(s, a);
    HuffJoined(s, a, b, n, MaxNv - |s.nv|, s.left <= |a + b|);
  }

  /** Decoding `a` and then the first `n` octets of `b` is decoding them together. */
  lemma HuffJoined(s: Decoder, a: seq<Byte>, b: seq<Byte>, n: nat, room: nat, final: bool)
    requires s.Valid() && !InIntegerPhase(s.phase) && |a| < s.left
    requires n == Min(|b|, s.left - |a|) && room == MaxNv - |s.nv| && final == (s.left <= |a + b|)
    ensures
      var o := Codec.DecodeInto(s.pending, a, room, false);
      var whole := Codec.DecodeInto(s.pending, a + b[..n], room, final);
      if o.status.Fail? then whole == o
      else
        var t := Decoded(s, o, |a|, []).s;
        t.Valid() ==> Decoded(s, whole, |a| + n, b[n..]) == ReadHuff(t, b)
  {
    var o := Codec.DecodeInto(s.pending, a, room, false);
    Codec.DecodeIntoConcat(s.pending, a, b[..n], room, final);
    if o.status.Ok? {
      var q := Codec.DecodeInto(o.rest, b[..n], room - |o.out|, final);
      DecodedTwice(s, o, q, |a|, n, b[n..]);
    }
  }

  lemma ReadHuffIs(s: Decoder, input: seq<Byte>, n: nat, src: seq<Byte>, rest: seq<Byte>)
    requires s.Valid() && n == Min(|input|, s.left) && src == input[..n] && rest == input[n..]
    ensures ReadHuff(s, input) == Decoded(s, Codec.DecodeInto(s.pending, src, MaxNv - |s.nv|, s.left <= |input|), n, rest)
  {}

  lemma DecodedTwice(s: Decoder, o: Codec.Outcome, q: Codec.Outcome, m: nat, n: nat, rest: seq<Byte>)
    requires o.status.Ok? && m + n <= s.left
    ensures
      var whole := q.(out := if q.status.Ok? then o.out + q.out else []);
      Decoded(s, whole, m + n, rest) == Decoded(Decoded(s, o, m, []).s, q, n, rest)
  {
    assert s.nv + (o.out + q.out) == (s.nv + o.out) + q.out;
  }

  lemma NameCut(s: Decoder, a: seq<Byte>, b: seq<Byte>)
    requires s.Valid() && s.phase.ReadName? && a != []
    ensures CutAgrees(StepOf(s, a), b, StepOf(s, a + b))
  {
    TextProgress(s, a);
    RawCut(s, a, b);
  }

  lemma NameHuffCut(s: Decoder, a: seq<Byte>, b: seq<Byte>)
    requires s.Valid() && s.phase.ReadNameHuff? && a != []
    ensures CutAgrees(StepOf(s, a), b, StepOf(s, a + b))
  {
    TextProgress(s, a);
    HuffCut(s, a, b);
  }

  lemma ValueCut(s: Decoder, a: seq<Byte>, b: seq<Byte>)
    requires s.Valid() && s.phase.ReadValue?
    ensures CutAgrees(StepOf(s, a), b, StepOf(s, a + b))
  {
    TextProgress(s, a);
    RawCut(s, a, b);
  }

  lemma ValueHuffCut(s: Decoder, a: seq<Byte>, b: seq<Byte>)
    requires s.Valid() && s.phase.ReadValueHuff?
    ensures CutAgrees(StepOf(s, a), b, StepOf(s, a + b))
  {
    TextProgress(s, a);
    HuffCut(s, a, b);
  }

  lemma StepCut(s: Decoder, a: seq<Byte>, b: seq<Byte>)
    requires s.Valid() && (a != [] || MayBeBusy(s)) && b != []
    ensures CutAgrees(StepOf(s, a), b, StepOf(s, a + b))
  {
    match s.phase
    case ReadTableSize => TableSizeCut(s, a, b);
    case ReadIndex => IndexCut(s, a, b);
    case CheckNameLen => NameLenCut(s, a, b);
    case ReadNameLen => NameLenCut(s, a, b);
    case ReadNameHuff => NameHuffCut(s, a, b);
    case ReadName => NameCut(s, a, b);
    case CheckValueLen => ValueLenCut(s, a, b);
    case ReadValueLen => ValueLenCut(s, a, b);
    case ReadValueHuff => ValueHuffCut(s, a, b);
    case ReadValue => ValueCut(s, a, b);
    case _ => OpcodeCut(s, a, b);
  }

  // --------------------------------------------------------------------- whole runs

  /** Goes on with `b` after `r`. */
  ghost function GoOn(r: Fed, b: seq<Byte>): Fed
    requires r.Fed? ==> r.s.Valid()
  {
    match r
    case Broken(_, _) => r
    case Fed(t, out) => Prepend(out, Feed(t, b, false))
  }

  /** A block may be cut in two anywhere. */
  lemma {:induction false} FeedCut(s: Decoder, a: seq<Byte>, b: seq<Byte>, busy: bool)
    requires s.Valid() && (busy ==> MayBeBusy(s))
    ensures Feed(s, a + b, busy) == GoOn(Feed(s, a, busy), b)
    decreases |a|, Rank(s.phase)
  {
    if b == [] {
      assert a + b == a;
      EmptyOut(Feed(s, a, busy));
    } else if a == [] && !busy {
      assert a + b == b;
      EmptyPrefix(Feed(s, b, false));
    } else {
      StepProgresses(s, a);
      StepCut(s, a, b);
      match StepOf(s, a)
      case Failed(_) =>
      case Stopped(t) =>
        EmptyPrefix(Feed(t, b, false));
      case Emit(t, rest, f) =>
        FeedCut(t, rest, b, false);
        PrependTwice([f], Feed(t, rest, false), b);
      case Continue(t, rest, more) =>
        FeedCut(t, rest, b, more);
    }
  }

  lemma EmptyOut(r: Fed)
    requires r.Fed? ==> r.s.Valid()
    ensures GoOn(r, []) == r
  {
    if r.Fed? { assert r.out + [] == r.out; }
  }

  lemma EmptyPrefix(r: Fed)
    ensures Prepend([], r) == r
  {
    assert [] + r.out == r.out;
  }

  lemma PrependTwice(out: seq<Field>, r: Fed, b: seq<Byte>)
    requires r.Fed? ==> r.s.Valid()
    ensures Prepend(out, GoOn(r, b)) == GoOn(Prepend(out, r), b)
  {
    if r.Fed? {
      var more := Feed(r.s, b, false).out;
      assert out + (r.out + more) == (out + r.out) + more;
    }
  }

  /** Feeds the pieces one after the other. */
  ghost function FeedPieces(s: Decoder, pieces: seq<seq<Byte>>): (r: Fed)
    requires s.Valid()
    decreases |pieces|
  {
    if pieces == [] then Fed(s, [])
    else
      match Feed(s, pieces[0], false)
      case Broken(e, out) => Broken(e, out)
      case Fed(t, out) => Prepend(out, FeedPieces(t, pieces[1..]))
  }

  /**
   * Decoding does not depend on fragmentation: for every block and every way of cutting
   * it, inside integers and Huffman strings too, the fields emitted, the final state with
   * its table, and the success or the error are those of a single run.
   */
  lemma {:induction false} FragmentationIsInvisible(s: Decoder, pieces: seq<seq<Byte>>)
    requires s.Valid()
    ensures FeedPieces(s, pieces) == Feed(s, Concat(pieces), false)
    ensures Ended(FeedPieces(s, pieces)) == Ended(Feed(s, Concat(pieces), false))
    decreases |pieces|
  {
    if pieces != [] {
      FeedCut(s, pieces[0], Concat(pieces[1..]), false);
      var r := Feed(s, pieces[0], false);
      if r.Fed? { FragmentationIsInvisible(r.s, pieces[1..]); }
    }
  }
}
