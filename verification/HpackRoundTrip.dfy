/**
 * What the encoder writes the decoder reads back (sections 2.2, 4 and 6 of
 * RFC 7541): field by field, block by block and over whole connections with
 * changing table limits.
 */
module HpackRoundTrip {
  import opened Bytes
  import opened Bufs
  import opened HuffmanTree
  import opened HuffmanTable
  import opened HpackInteger
  import opened HpackTable
  import opened HpackEncoder
  import opened HpackDecoder
  import Codec = HuffmanCodec
  import Huffman = HuffmanCode

  // ------------------------------------------------------------ unfolding a run

  lemma FeedContinues(s: Decoder, input: seq<Byte>, busy: bool, t: Decoder, rest: seq<Byte>, more: bool)
    requires s.Valid() && (busy ==> MayBeBusy(s)) && (input != [] || busy)
    requires StepOf(s, input) == Continue(t, rest, more)
    ensures t.Valid() && (more ==> MayBeBusy(t)) && Feed(s, input, busy) == Feed(t, rest, more)
  {
    StepProgresses(s, input);
  }

  lemma FeedEmits(s: Decoder, input: seq<Byte>, busy: bool, t: Decoder, rest: seq<Byte>, f: Field)
    requires s.Valid() && (busy ==> MayBeBusy(s)) && (input != [] || busy)
    requires StepOf(s, input) == Emit(t, rest, f)
    ensures t.Valid() && Feed(s, input, busy) == Prepend([f], Feed(t, rest, false))
  {
    StepProgresses(s, input);
  }

  lemma FeedFails(s: Decoder, input: seq<Byte>, busy: bool)
    requires s.Valid() && (busy ==> MayBeBusy(s)) && (input != [] || busy)
    requires StepOf(s, input).Failed?
    ensures Feed(s, input, busy) == Broken(StepOf(s, input).error, [])
  {}

  // ------------------------------------------------------------------- integers

  /** A fresh integer is read back in one go. */
  lemma ReadsInt(s: Decoder, first: Byte, n: nat, prefix: nat, max: nat, rest: seq<Byte>) returns (t: Decoder)
    requires s.left == 0 && s.shift == 0 && n <= UINT32_MAX && n <= max
    ensures t == s.(left := n, shift := t.shift)
    ensures ReadLen(s, EncodeInt(first, n, prefix) + rest, prefix, max) == LenDone(t, rest)
  {
    var input := EncodeInt(first, n, prefix) + rest;
    IntRoundTrip(first, n, prefix, rest);
    t := s.(left := n, shift := DecodeInt(0, 0, input, prefix).shift);
  }

  lemma RefusesInt(s: Decoder, first: Byte, n: nat, prefix: nat, max: nat, rest: seq<Byte>)
    requires s.left == 0 && s.shift == 0 && n > max
    ensures ReadLen(s, EncodeInt(first, n, prefix) + rest, prefix, max) == LenFail
  {
    if n <= UINT32_MAX {
      IntRoundTrip(first, n, prefix, rest);
    } else {
      IntRefuses(first, n, prefix, rest);
    }
  }

  /** The Huffman bit of a length octet. */
  lemma LengthOctet(huffman: bool, n: nat, rest: seq<Byte>)
    ensures
      var s := EncodeInt(if huffman then 0x80 else 0, n, 7) + rest;
      s != [] && (s[0] >= 0x80 <==> huffman)
  {
    FirstOctet(if huffman then 0x80 else 0, n, 7);
  }

  // -------------------------------------------------------------------- strings

  ghost predicate Shorter(x: seq<Byte>) { |Huffman.Encode(x)| < |x| }

  ghost function Payload(x: seq<Byte>): seq<Byte> { if Shorter(x) then Huffman.Encode(x) else x }

  lemma StringParts(x: seq<Byte>, rest: seq<Byte>)
    ensures EncodeString(x) + rest == EncodeInt(if Shorter(x) then 0x80 else 0, |Payload(x)|, 7) + (Payload(x) + rest)
  {
    var head := EncodeInt(if Shorter(x) then 0x80 else 0, |Payload(x)|, 7);
    assert (head + Payload(x)) + rest == head + (Payload(x) + rest);
  }

  /** Decoding a complete encoded string into enough room gives the string. */
  lemma HuffmanGivesBack(s: Decoder, x: seq<Byte>, rest: seq<Byte>)
    requires s.Valid() && s.pending == [] && s.left == |Huffman.Encode(x)|
    ensures
      ReadHuff(s, Huffman.Encode(x) + rest) ==
        if |s.nv| + |x| > MaxNv then TextFail(BufferError)
        else Text(s.(nv := s.nv + x, left := 0, pending := Ones(Huffman.PadBits(|Huffman.EncodeBits(x)|))), rest)
  {
    var h := Huffman.Encode(x);
    assert (h + rest)[..|h|] == h && (h + rest)[|h|..] == rest;
    Huffman.DecodeEncode(x);
  }

  lemma RawGivesBack(s: Decoder, x: seq<Byte>, rest: seq<Byte>)
    requires s.left == |x|
    ensures
      ReadRaw(s, x + rest) ==
        if |s.nv| + |x| > MaxNv then TextFail(BufferError) else Text(s.(nv := s.nv + x, left := 0), rest)
  {
    assert (x + rest)[..|x|] == x && (x + rest)[|x|..] == rest;
  }

  /** `t` is `s` about to read the payload of the string `x` in the given phases. */
  ghost predicate AtPayload(s: Decoder, t: Decoder, x: seq<Byte>, huff: Phase, raw: Phase)
  {
    t == s.(phase := if Shorter(x) then huff else raw, huffman := Shorter(x), left := |Payload(x)|,
            shift := t.shift, pending := if Shorter(x) then [] else s.pending)
  }

  /** The length of an encoded string is read, or refused if it is too long. */
  lemma StringLenRead(s: Decoder, x: seq<Byte>, input: seq<Byte>, rest: seq<Byte>, check: Phase, read: Phase) returns (t: Decoder)
    requires s.phase == check && input == EncodeString(x) + rest
    ensures input != []
    ensures
      ReadLen(LenChecked(s, input, check, read), input, 7, MaxNv) ==
        if MaxNv < |Payload(x)| then LenFail else LenDone(t, Payload(x) + rest)
    ensures |Payload(x)| <= MaxNv ==> t == s.(phase := read, huffman := Shorter(x), left := |Payload(x)|, shift := t.shift)
  {
    StringParts(x, rest);
    LengthOctet(Shorter(x), |Payload(x)|, Payload(x) + rest);
    var checked := LenChecked(s, input, check, read);
    t := checked;
    if MaxNv < |Payload(x)| {
      RefusesInt(checked, if Shorter(x) then 0x80 else 0, |Payload(x)|, 7, MaxNv, Payload(x) + rest);
    } else {
      t := ReadsInt(checked, if Shorter(x) then 0x80 else 0, |Payload(x)|, 7, MaxNv, Payload(x) + rest);
    }
  }

  lemma ReadsNameLen(s: Decoder, x: seq<Byte>, rest: seq<Byte>) returns (t: Decoder)
    requires s.Valid() && s.phase.CheckNameLen? && |Payload(x)| <= MaxNv
    ensures AtPayload(s, t, x, ReadNameHuff, ReadName)
    ensures EncodeString(x) + rest != [] && StepOf(s, EncodeString(x) + rest) == Continue(t, Payload(x) + rest, false)
  {
    var u := StringLenRead(s, x, EncodeString(x) + rest, rest, CheckNameLen, ReadNameLen);
    t := u.(phase := if Shorter(x) then ReadNameHuff else ReadName, pending := if Shorter(x) then [] else s.pending);
  }

  lemma ReadsValueLen(s: Decoder, x: seq<Byte>, rest: seq<Byte>) returns (t: Decoder)
    requires s.Valid() && s.phase.CheckValueLen? && |Payload(x)| <= MaxNv
    ensures AtPayload(s, t, x, ReadValueHuff, ReadValue)
    ensures EncodeString(x) + rest != [] && StepOf(s, EncodeString(x) + rest) == Continue(t, Payload(x) + rest, true)
  {
    var u := StringLenRead(s, x, EncodeString(x) + rest, rest, CheckValueLen, ReadValueLen);
    t := u.(phase := if Shorter(x) then ReadValueHuff else ReadValue, pending := if Shorter(x) then [] else s.pending);
  }

  /** A string whose encoding is too long is refused at its length. */
  lemma RefusesLen(s: Decoder, x: seq<Byte>, rest: seq<Byte>)
    requires s.Valid() && (s.phase.CheckNameLen? || s.phase.CheckValueLen?) && MaxNv < |Payload(x)|
    ensures EncodeString(x) + rest != [] && StepOf(s, EncodeString(x) + rest) == Failed(HeaderComp)
  {
    var read := if s.phase.CheckNameLen? then ReadNameLen else ReadValueLen;
    var _ := StringLenRead(s, x, EncodeString(x) + rest, rest, s.phase, read);
  }

  /** Reading the payload of `x` gives `x`, if there is room for it. */
  lemma ReadsPayload(s: Decoder, x: seq<Byte>, rest: seq<Byte>, huff: Phase, raw: Phase) returns (r: TextResult)
    requires s.Valid() && s.left == |Payload(x)| && s.phase == (if Shorter(x) then huff else raw)
    requires Shorter(x) ==> s.pending == []
    ensures r == if Shorter(x) then ReadHuff(s, Payload(x) + rest) else ReadRaw(s, Payload(x) + rest)
    ensures |s.nv| + |x| > MaxNv ==> r == TextFail(BufferError)
    ensures |s.nv| + |x| <= MaxNv ==>
      r.Text? && r.s == s.(nv := s.nv + x, left := 0, pending := r.s.pending) && r.rest == rest
  {
    if Shorter(x) {
      HuffmanGivesBack(s, x, rest);
      r := ReadHuff(s, Payload(x) + rest);
    } else {
      RawGivesBack(s, x, rest);
      r := ReadRaw(s, Payload(x) + rest);
    }
  }

  // ------------------------------------------------------------- names and values

  /** The state after the name `x` was read. */
  ghost predicate NameKnown(s: Decoder, t: Decoder, x: seq<Byte>)
  {
    t == s.(phase := CheckValueLen, huffman := t.huffman, left := t.left, shift := t.shift, pending := t.pending,
            nv := x + [0], newNameLen := |x|)
  }

  /** The round that reads the payload of a name. */
  lemma NameText(s: Decoder, x: seq<Byte>, rest: seq<Byte>) returns (t: Decoder)
    requires s.Valid() && s.phase == (if Shorter(x) then ReadNameHuff else ReadName) && Payload(x) + rest != []
    requires s.left == |Payload(x)| && (Shorter(x) ==> s.pending == [])
    ensures MaxNv <= |s.nv| + |x| ==> StepOf(s, Payload(x) + rest) == Failed(BufferError)
    ensures |s.nv| + |x| < MaxNv ==>
      && t == s.(phase := CheckValueLen, left := 0, pending := t.pending, nv := s.nv + x + [0], newNameLen := |s.nv + x|)
      && StepOf(s, Payload(x) + rest) == Continue(t, rest, false)
  {
    NameStep(s, Payload(x) + rest);
    var r := ReadsPayload(s, x, rest, ReadNameHuff, ReadName);
    t := s;
    if |s.nv| + |x| < MaxNv {
      t := r.s.(nv := s.nv + x + [0], newNameLen := |s.nv + x|, phase := CheckValueLen);
    }
  }

  lemma NameDecodes(s: Decoder, x: seq<Byte>, rest: seq<Byte>) returns (t: Decoder)
    requires s.Valid() && s.phase.CheckNameLen? && s.nv == [] && |x| < MaxNv && rest != []
    ensures t.Valid() && NameKnown(s, t, x) && Feed(s, EncodeString(x) + rest, false) == Feed(t, rest, false)
  {
    var u := ReadsNameLen(s, x, rest);
    FeedContinues(s, EncodeString(x) + rest, false, u, Payload(x) + rest, false);
    t := NameText(u, x, rest);
    assert [] + x == x;
    FeedContinues(u, Payload(x) + rest, false, t, rest, false);
  }

  lemma NameRefused(s: Decoder, x: seq<Byte>, rest: seq<Byte>)
    requires s.Valid() && s.phase.CheckNameLen? && s.nv == [] && MaxNv <= |x|
    ensures Feed(s, EncodeString(x) + rest, false).Broken? && Feed(s, EncodeString(x) + rest, false).out == []
  {
    if |Payload(x)| > MaxNv {
      RefusesLen(s, x, rest);
      FeedFails(s, EncodeString(x) + rest, false);
    } else {
      var u := ReadsNameLen(s, x, rest);
      FeedContinues(s, EncodeString(x) + rest, false, u, Payload(x) + rest, false);
      NonEmptyPayload(x);
      var _ := NameText(u, x, rest);
      FeedFails(u, Payload(x) + rest, false);
    }
  }

  lemma NonEmptyPayload(x: seq<Byte>)
    requires x != []
    ensures Payload(x) != []
  {
    Huffman.EncodeLength(x);
    assert |Huffman.EncodeBits(x)| >= 5 by {
      assert Huffman.EncodeBits(x) == Huffman.Code(x[0]) + Huffman.EncodeBits(x[1..]);
    }
  }

  /** `done` is `s` with the value `x` collected. */
  ghost predicate ValueKnown(s: Decoder, done: Decoder, x: seq<Byte>)
  {
    done == s.(phase := done.phase, huffman := done.huffman, left := 0, shift := done.shift,
               pending := done.pending, nv := s.nv + x + [0])
  }

  /** The round that reads the payload of a value. */
  lemma ValueText(s: Decoder, x: seq<Byte>, rest: seq<Byte>) returns (done: Decoder)
    requires s.Valid() && s.phase == (if Shorter(x) then ReadValueHuff else ReadValue)
    requires s.left == |Payload(x)| && (Shorter(x) ==> s.pending == [])
    ensures MaxNv <= |s.nv| + |x| ==> StepOf(s, Payload(x) + rest) == Failed(BufferError)
    ensures |s.nv| + |x| < MaxNv ==>
      && ValueKnown(s, done, x) && done.Complete()
      && StepOf(s, Payload(x) + rest) == Emit(Commit(done).0, rest, Commit(done).1)
  {
    var r := ReadsPayload(s, x, rest, ReadValueHuff, ReadValue);
    ValueStep(s, Payload(x) + rest);
    done := s;
    if |s.nv| + |x| < MaxNv {
      done := r.s.(nv := s.nv + x + [0]);
      ValueComplete(r, done);
    } else {
      ValueTooLong(r);
    }
  }

  lemma ValueTooLong(r: TextResult)
    requires r.Text? ==> |r.s.dict.fixed| == StaticLength && r.s.ValueExpected() && r.s.left == 0 && |r.s.nv| == MaxNv
    requires r.TextFail? ==> r.error == BufferError
    ensures ValueRead(r) == Failed(BufferError)
  {}

  lemma ValueComplete(r: TextResult, done: Decoder)
    requires r.Text? && |r.s.dict.fixed| == StaticLength && r.s.ValueExpected()
    requires r.s.left == 0 && |r.s.nv| < MaxNv && done == r.s.(nv := r.s.nv + [0])
    ensures done.Complete() && ValueRead(r) == Emit(Commit(done).0, r.rest, Commit(done).1)
  {}

  lemma ValueDecodes(s: Decoder, x: seq<Byte>, rest: seq<Byte>) returns (done: Decoder)
    requires s.Valid() && s.phase.CheckValueLen? && |s.nv| + |x| < MaxNv
    ensures ValueKnown(s, done, x) && done.Complete() && Commit(done).0.Valid()
    ensures Feed(s, EncodeString(x) + rest, false) == Prepend([Commit(done).1], Feed(Commit(done).0, rest, false))
  {
    var u := ReadsValueLen(s, x, rest);
    FeedContinues(s, EncodeString(x) + rest, false, u, Payload(x) + rest, true);
    done := ValueText(u, x, rest);
    FeedEmits(u, Payload(x) + rest, true, Commit(done).0, rest, Commit(done).1);
  }

  lemma ValueRefused(s: Decoder, x: seq<Byte>, rest: seq<Byte>)
    requires s.Valid() && s.phase.CheckValueLen? && MaxNv <= |s.nv| + |x|
    ensures Feed(s, EncodeString(x) + rest, false).Broken? && Feed(s, EncodeString(x) + rest, false).out == []
  {
    if |Payload(x)| > MaxNv {
      RefusesLen(s, x, rest);
      FeedFails(s, EncodeString(x) + rest, false);
    } else {
      var u := ReadsValueLen(s, x, rest);
      FeedContinues(s, EncodeString(x) + rest, false, u, Payload(x) + rest, true);
      var _ := ValueText(u, x, rest);
      FeedFails(u, Payload(x) + rest, true);
    }
  }
}
