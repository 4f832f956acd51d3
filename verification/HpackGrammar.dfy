/**
 * Header blocks as section 6 of RFC 7541 describes them, read from the left with all of the
 * block at hand, and the decoder against that: for every string of octets it accepts exactly
 * the blocks, and delivers what they mean.
 */
module HpackGrammar {
  import opened Bytes
  import opened Bufs
  import opened HuffmanTree
  import opened HuffmanTable
  import opened HpackInteger
  import opened HpackTable
  import opened HpackEncoder
  import opened HpackDecoder
  import opened HpackRoundTrip
  import opened HpackConnection
  import Codec = HuffmanCodec
  import Huffman = HuffmanCode

  // ------------------------------------------------------------------------- integers

  /** The position of the first octet without the mark that another follows. */
  function TailEnd(s: seq<Byte>): (k: Option<nat>)
    ensures k.Some? ==> k.value < |s| && s[k.value] < 128
  {
    if s == [] then None
    else if s[0] < 128 then Some(0)
    else
      match TailEnd(s[1..])
      case None => None
      case Some(k) => Some(k + 1)
  }

  /** Groups of seven bits, the least significant first. */
  function TailValue(s: seq<Byte>): nat
  {
    if s == [] then 0 else s[0] % 128 + 128 * TailValue(s[1..])
  }

  datatype IntRead = IntRead(n: nat, rest: seq<Byte>)

  /** Section 5.1: the prefix, or a full prefix and groups; more than 32 bits are not allowed. */
  function ParseInt(s: seq<Byte>, prefix: nat): (r: Option<IntRead>)
    ensures r.Some? ==> |r.value.rest| < |s|
  {
    if s == [] then None
    else if s[0] % PrefixSize(prefix) < PrefixMax(prefix) then Some(IntRead(s[0] % PrefixSize(prefix), s[1..]))
    else
      match TailEnd(s[1..])
      case None => None
      case Some(k) =>
        var n := PrefixMax(prefix) + TailValue(s[1..][..k + 1]);
        if n > UINT32_MAX then None else Some(IntRead(n, s[1..][k + 1..]))
  }

  lemma {:induction false} TailParses(n: nat, shift: nat, s: seq<Byte>)
    requires n <= UINT32_MAX
    ensures
      var r := DecodeTail(n, shift, s);
      match TailEnd(s)
      case None => !r.Done?
      case Some(k) =>
        var all := n + Shl(TailValue(s[..k + 1]), shift);
        if all > UINT32_MAX then r == Refused else r.Done? && r.n == all && r.rest == s[k + 1..]
    decreases |s|
  {
    if s != [] {
      var add := s[0] % 128;
      ShlFits(add, shift, UINT32_MAX);
      if s[0] < 128 {
        assert s[..1] == [s[0]] && TailValue([s[0]]) == add + 128 * TailValue([]);
      } else {
        if TailEnd(s[1..]).Some? { TailSplit(s, TailEnd(s[1..]).value, shift); }
        if n + Shl(add, shift) <= UINT32_MAX { TailParses(n + Shl(add, shift), shift + 7, s[1..]); }
      }
    }
  }

  lemma TailSplit(s: seq<Byte>, k: nat, shift: nat)
    requires k + 1 < |s|
    ensures Shl(TailValue(s[..k + 2]), shift) == Shl(s[0] % 128, shift) + Shl(TailValue(s[1..][..k + 1]), shift + 7)
    ensures s[1..][k + 1..] == s[k + 2..]
  {
    assert s[..k + 2][1..] == s[1..][..k + 1];
    var low, high := s[0] % 128, TailValue(s[1..][..k + 1]);
    ShlGroups(low + 128 * high, shift);
    assert (low + 128 * high) % 128 == low && (low + 128 * high) / 128 == high;
  }

  /** A fresh integer is read as the grammar says. */
  lemma IntParses(s: seq<Byte>, prefix: nat)
    requires s != []
    ensures
      var r := DecodeInt(0, 0, s, prefix);
      match ParseInt(s, prefix)
      case None => !r.Done?
      case Some(read) => r.Done? && r.n == read.n && r.rest == read.rest
  {
    if s[0] % PrefixSize(prefix) == PrefixMax(prefix) {
      TailParses(PrefixMax(prefix), 0, s[1..]);
      if TailEnd(s[1..]).Some? { assert Shl(TailValue(s[1..][..TailEnd(s[1..]).value + 1]), 0) == TailValue(s[1..][..TailEnd(s[1..]).value + 1]); }
    }
  }

  /** Reading a number of at most `max`, as the machine does it. */
  lemma LenParses(s: Decoder, input: seq<Byte>, prefix: nat, max: nat)
    requires s.left == 0 && s.shift == 0 && input != []
    ensures
      var r, read := ReadLen(s, input, prefix, max), ParseInt(input, prefix);
      if read.Some? && read.value.n <= max then
        r.LenDone? && r.s == s.(left := read.value.n, shift := r.s.shift) && r.rest == read.value.rest
      else r.LenFail? || (r.LenMore? && r.s == s.(left := r.s.left, shift := r.s.shift))
  {
    IntParses(input, prefix);
  }

  // -------------------------------------------------------------------------- strings

  datatype TextRead = TextRead(text: seq<Byte>, rest: seq<Byte>)

  /** Section 5.2: octets as they are, or the Huffman encoding of the text. */
  ghost function ParseText(payload: seq<Byte>, huffman: bool): Option<seq<Byte>>
  {
    if !huffman then Some(payload)
    else if exists x :: payload == Huffman.Encode(x) then
      var x :| payload == Huffman.Encode(x);
      Some(x)
    else None
  }

  ghost function ParseString(s: seq<Byte>): (r: Option<TextRead>)
    ensures r.Some? ==> |r.value.rest| < |s|
  {
    if s == [] then None
    else
      match ParseInt(s, 7)
      case None => None
      case Some(len) =>
        if len.n > MaxNv || len.n > |len.rest| then None
        else
          match ParseText(len.rest[..len.n], s[0] >= 0x80)
          case None => None
          case Some(x) => Some(TextRead(x, len.rest[len.n..]))
  }

  /** What the Huffman decoder makes of a whole payload. */
  lemma TextDecodes(payload: seq<Byte>, room: nat)
    ensures Root.Node? && Pending(Root, [])
    ensures
      var o := Codec.DecodeInto([], payload, room, true);
      match ParseText(payload, true)
      case None => o.status.Fail?
      case Some(x) => if |x| > room then o.status == Fail(BufferError) else o.status == Ok && o.out == x
  {
    Huffman.RootIsDeep();
    Huffman.AcceptsIffEncoding(payload);
    match ParseText(payload, true)
    case None =>
    case Some(x) => Huffman.DecodeEncode(x);
  }

  /** Reading a string in one go: all of its octets must be there. */
  ghost predicate PayloadIs(s: Decoder, input: seq<Byte>, huffman: bool, r: TextResult)
  {
    if s.left > |input| then r.TextFail? || (r.s.left > 0 && r.s.phase == s.phase)
    else
      match ParseText(input[..s.left], huffman)
      case None => r.TextFail?
      case Some(x) =>
        if |s.nv| + |x| > MaxNv then r.TextFail?
        else r.Text? && r.s == s.(nv := s.nv + x, left := 0, pending := r.s.pending) && r.rest == input[s.left..]
  }

  lemma RawParses(s: Decoder, input: seq<Byte>)
    requires s.Valid()
    ensures PayloadIs(s, input, false, ReadRaw(s, input))
  {}

  /** How a string that is there, or is not, is given to the Huffman decoder. */
  lemma HuffmanReads(s: Decoder, input: seq<Byte>) returns (o: Codec.Outcome)
    requires s.Valid() && s.pending == []
    ensures s.left > |input| ==> ReadHuff(s, input) == Decoded(s, o, |input|, [])
    ensures s.left <= |input| ==>
      o == Codec.DecodeInto([], input[..s.left], MaxNv - |s.nv|, true) && ReadHuff(s, input) == Decoded(s, o, s.left, input[s.left..])
  {
    var n := Min(|input|, s.left);
    o := Codec.DecodeInto([], input[..n], MaxNv - |s.nv|, s.left <= |input|);
    assert input[|input|..] == [];
  }

  lemma HuffmanParses(s: Decoder, input: seq<Byte>)
    requires s.Valid() && s.pending == []
    ensures PayloadIs(s, input, true, ReadHuff(s, input))
  {
    var o := HuffmanReads(s, input);
    if s.left <= |input| {
      TextDecodes(input[..s.left], MaxNv - |s.nv|);
      DecodedParses(s, input, o);
    }
  }

  lemma DecodedParses(s: Decoder, input: seq<Byte>, o: Codec.Outcome)
    requires s.left <= |input| && |s.nv| <= MaxNv
    requires
      match ParseText(input[..s.left], true)
      case None => o.status.Fail?
      case Some(x) => if |x| > MaxNv - |s.nv| then o.status == Fail(BufferError) else o.status == Ok && o.out == x
    ensures PayloadIs(s, input, true, Decoded(s, o, s.left, input[s.left..]))
  {}

  lemma PayloadParses(s: Decoder, input: seq<Byte>, huffman: bool) returns (r: TextResult)
    requires s.Valid() && (huffman ==> s.pending == [])
    ensures r == (if huffman then ReadHuff(s, input) else ReadRaw(s, input)) && PayloadIs(s, input, huffman, r)
  {
    if huffman {
      HuffmanParses(s, input);
      r := ReadHuff(s, input);
    } else {
      RawParses(s, input);
      r := ReadRaw(s, input);
    }
  }

  // ------------------------------------------------------- where the decoder gets stuck

  /** Nothing was delivered, and the end of the block here is an error. */
  predicate Stuck(r: Fed) { r.out == [] && Ended(r).Broken? }

  lemma StepIsStuck(s: Decoder, input: seq<Byte>, busy: bool)
    requires s.Valid() && (busy ==> MayBeBusy(s)) && (input != [] || busy)
    requires StepOf(s, input).Failed? || (StepOf(s, input).Stopped? && !StepOf(s, input).s.phase.Opcode?)
    ensures Stuck(Feed(s, input, busy))
  {}

  lemma NoInputIsStuck(s: Decoder)
    requires s.Valid() && !s.phase.Opcode?
    ensures Stuck(Feed(s, [], false))
  {}

  /** The length of a name or a value. */
  lemma LengthParses(s: Decoder, input: seq<Byte>, value: bool) returns (u: Decoder)
    requires s.Valid() && input != [] && (if value then s.phase.CheckValueLen? else s.phase.CheckNameLen?)
    ensures
      var read, huffman, step := ParseInt(input, 7), input[0] >= 0x80, StepOf(s, input);
      if read.Some? && read.value.n <= MaxNv then
        && step == Continue(u, read.value.rest, value)
        && u == s.(phase := TextPhase(huffman, value), huffman := huffman, left := read.value.n, shift := u.shift,
                   pending := if huffman then [] else s.pending)
      else step.Failed? || (step.Stopped? && !step.s.phase.Opcode?)
  {
    var checked := if value then LenChecked(s, input, CheckValueLen, ReadValueLen) else LenChecked(s, input, CheckNameLen, ReadNameLen);
    LenParses(checked, input, 7, MaxNv);
    u := s;
    var r := ReadLen(checked, input, 7, MaxNv);
    if r.LenDone? {
      u := r.s.(phase := TextPhase(checked.huffman, value), pending := if checked.huffman then [] else s.pending);
    }
  }

  function TextPhase(huffman: bool, value: bool): Phase
  {
    if value then (if huffman then ReadValueHuff else ReadValue) else if huffman then ReadNameHuff else ReadName
  }

  /** A new name. */
  lemma NameParses(s: Decoder, input: seq<Byte>) returns (t: Decoder)
    requires s.Valid() && s.phase.CheckNameLen? && s.nv == []
    ensures
      match ParseString(input)
      case None => Stuck(Feed(s, input, false))
      case Some(read) =>
        if |read.text| >= MaxNv || read.rest == [] then Stuck(Feed(s, input, false))
        else t.Valid() && NameKnown(s, t, read.text) && Feed(s, input, false) == Feed(t, read.rest, false)
  {
    t := s;
    if input == [] {
      NoInputIsStuck(s);
    } else {
      var u := LengthParses(s, input, false);
      var read := ParseInt(input, 7);
      if read.Some? && read.value.n <= MaxNv {
        FeedContinues(s, input, false, u, read.value.rest, false);
        t := NameTextParses(u, read.value.rest, input[0] >= 0x80);
      } else {
        StepIsStuck(s, input, false);
      }
    }
  }

  /** The octets of a name that is there and fits. */
  lemma NameTextEnds(s: Decoder, input: seq<Byte>, huffman: bool, r: TextResult) returns (t: Decoder)
    requires s.Valid() && s.phase == TextPhase(huffman, false) && input != []
    requires r == (if huffman then ReadHuff(s, input) else ReadRaw(s, input))
    requires r.Text? && r.s.left == 0 && |r.s.nv| < MaxNv
    ensures t == r.s.(nv := r.s.nv + [0], newNameLen := |r.s.nv|, phase := CheckValueLen)
    ensures t.Valid() && Feed(s, input, false) == Feed(t, r.rest, false)
    ensures r.rest == [] ==> Stuck(Feed(s, input, false))
  {
    NameStep(s, input);
    t := r.s.(nv := r.s.nv + [0], newNameLen := |r.s.nv|, phase := CheckValueLen);
    FeedContinues(s, input, false, t, r.rest, false);
    if r.rest == [] { NoInputIsStuck(t); }
  }

  lemma NameTextStops(s: Decoder, input: seq<Byte>, huffman: bool, r: TextResult)
    requires s.Valid() && s.phase == TextPhase(huffman, false) && input != []
    requires r == (if huffman then ReadHuff(s, input) else ReadRaw(s, input))
    requires r.Text? ==> r.s.phase == s.phase && (r.s.left > 0 || |r.s.nv| >= MaxNv) && |r.s.nv| <= MaxNv
    ensures Stuck(Feed(s, input, false))
  {
    NameStep(s, input);
    StepIsStuck(s, input, false);
  }

  /** What reading the octets of a name came to, if `text` is what they stand for. */
  ghost predicate NameTextIs(s: Decoder, input: seq<Byte>, r: TextResult, text: Option<seq<Byte>>)
  {
    match text
    case None => r.TextFail? || (r.s.left > 0 && r.s.phase == s.phase)
    case Some(x) =>
      && s.left <= |input|
      && if |x| > MaxNv then r.TextFail?
         else r.Text? && r.s == s.(nv := x, left := 0, pending := r.s.pending) && r.rest == input[s.left..]
  }

  lemma NameTextCases(s: Decoder, input: seq<Byte>, huffman: bool, r: TextResult, text: Option<seq<Byte>>) returns (t: Decoder)
    requires s.Valid() && s.phase == TextPhase(huffman, false) && input != []
    requires r == (if huffman then ReadHuff(s, input) else ReadRaw(s, input))
    requires NameTextIs(s, input, r, text)
    ensures
      if text.None? || |text.value| >= MaxNv || s.left >= |input| then Stuck(Feed(s, input, false))
      else t.Valid() && NameKnown(s, t, text.value) && Feed(s, input, false) == Feed(t, input[s.left..], false)
  {
    t := s;
    if r.Text? && r.s.left == 0 && |r.s.nv| < MaxNv {
      t := NameTextEnds(s, input, huffman, r);
    } else {
      NameTextStops(s, input, huffman, r);
    }
  }

  lemma NameTextParses(s: Decoder, input: seq<Byte>, huffman: bool) returns (t: Decoder)
    requires s.Valid() && s.phase == TextPhase(huffman, false) && s.nv == [] && (huffman ==> s.pending == [])
    ensures
      var text := if s.left <= |input| then ParseText(input[..s.left], huffman) else None;
      if text.None? || |text.value| >= MaxNv || s.left >= |input| then Stuck(Feed(s, input, false))
      else t.Valid() && NameKnown(s, t, text.value) && Feed(s, input, false) == Feed(t, input[s.left..], false)
  {
    t := s;
    if input == [] {
      NoInputIsStuck(s);
    } else {
      var r := PayloadParses(s, input, huffman);
      var text := if s.left <= |input| then ParseText(input[..s.left], huffman) else None;
      assert NameTextIs(s, input, r, text) by { if text.Some? { assert [] + text.value == text.value; } }
      t := NameTextCases(s, input, huffman, r, text);
    }
  }

  /** A value: the field is complete. */
  lemma ValueParses(s: Decoder, input: seq<Byte>) returns (done: Decoder)
    requires s.Valid() && s.phase.CheckValueLen?
    ensures
      match ParseString(input)
      case None => Stuck(Feed(s, input, false))
      case Some(read) =>
        if |s.nv| + |read.text| >= MaxNv then Stuck(Feed(s, input, false))
        else
          && ValueKnown(s, done, read.text) && done.Complete() && Commit(done).0.Valid()
          && Feed(s, input, false) == Prepend([Commit(done).1], Feed(Commit(done).0, read.rest, false))
  {
    done := s;
    if input == [] {
      NoInputIsStuck(s);
    } else {
      var u := LengthParses(s, input, true);
      var read := ParseInt(input, 7);
      if read.Some? && read.value.n <= MaxNv {
        FeedContinues(s, input, false, u, read.value.rest, true);
        done := ValueTextParses(u, read.value.rest, input[0] >= 0x80);
      } else {
        StepIsStuck(s, input, false);
      }
    }
  }

  lemma ValueTextParses(s: Decoder, input: seq<Byte>, huffman: bool) returns (done: Decoder)
    requires s.Valid() && s.phase == TextPhase(huffman, true) && (huffman ==> s.pending == [])
    ensures
      var text := if s.left <= |input| then ParseText(input[..s.left], huffman) else None;
      if text.None? || |s.nv| + |text.value| >= MaxNv then Stuck(Feed(s, input, true))
      else
        && ValueKnown(s, done, text.value) && done.Complete() && Commit(done).0.Valid()
        && Feed(s, input, true) == Prepend([Commit(done).1], Feed(Commit(done).0, input[s.left..], false))
  {
    done := s;
    var r := PayloadParses(s, input, huffman);
    ValueStep(s, input);
    if r.Text? && r.s.left == 0 && |r.s.nv| < MaxNv {
      done := r.s.(nv := r.s.nv + [0]);
      ValueComplete(r, done);
      FeedEmits(s, input, true, Commit(done).0, r.rest, Commit(done).1);
    } else {
      StepIsStuck(s, input, true);
    }
  }

  // -------------------------------------------------------------------- representations

  datatype FieldRead = FieldRead(field: Field, table: seq<Entry>, rest: seq<Byte>)

  /** A name, the number it has in the tables, and if its octets were given. */
  datatype NameRead = NameRead(name: seq<Byte>, token: int, given: bool, rest: seq<Byte>)

  /** Section 6.1: an index from 1 to the number of all entries. */
  function ParseIndexed(d: Dictionary, t: seq<Entry>, s: seq<Byte>): (r: Option<FieldRead>)
    requires |d.fixed| == StaticLength
    ensures r.Some? ==> |r.value.rest| < |s|
  {
    match ParseInt(s, 7)
    case None => None
    case Some(i) =>
      if i.n == 0 || i.n > StaticLength + |t| then None
      else
        var e := TableGet(d, t, i.n - 1);
        Some(FieldRead(Field(e.name, e.value, false), t, i.rest))
  }

  /** Section 6.2: an index for the name, or zero and the name itself. */
  ghost function ParseName(d: Dictionary, t: seq<Entry>, s: seq<Byte>, mode: Mode): (r: Option<NameRead>)
    requires |d.fixed| == StaticLength
    ensures r.Some? ==> |r.value.rest| < |s|
  {
    match ParseInt(s, IndexPrefix(mode))
    case None => None
    case Some(i) =>
      if i.n == 0 then
        match ParseString(i.rest)
        case None => None
        case Some(x) => Some(NameRead(x.text, d.token(x.text), true, x.rest))
      else if i.n > StaticLength + |t| then None
      else
        var e := TableGet(d, t, i.n - 1);
        Some(NameRead(e.name, e.token, false, i.rest))
  }

  /** What is collected for a field, each string with a zero behind it, must fit. */
  predicate Collectable(name: NameRead, value: seq<Byte>)
  {
    (if name.given then |name.name| + 1 else 0) + |value| + 1 <= MaxNv
  }

  ghost function ParseLiteral(d: Dictionary, t: seq<Entry>, max: nat, s: seq<Byte>, mode: Mode): (r: Option<FieldRead>)
    requires |d.fixed| == StaticLength
    ensures r.Some? ==> |r.value.rest| < |s|
  {
    match ParseName(d, t, s, mode)
    case None => None
    case Some(n) =>
      match ParseString(n.rest)
      case None => None
      case Some(v) =>
        if !Collectable(n, v.text) then None
        else
          var table := if mode.WithIndexing? then Insert(t, Entry(n.name, v.text, n.token), max) else t;
          Some(FieldRead(Field(n.name, v.text, mode.NeverIndexing?), table, v.rest))
  }

  /** The first bits of a literal tell if and how it may be indexed. */
  function ModeOf(b: Byte): Mode
  {
    if b >= 0x40 then WithIndexing else if b / 16 == 1 then NeverIndexing else WithoutIndexing
  }

  /** A field: not a change of the table's size. */
  ghost function ParseField(d: Dictionary, t: seq<Entry>, max: nat, s: seq<Byte>): (r: Option<FieldRead>)
    requires |d.fixed| == StaticLength
    ensures r.Some? ==> |r.value.rest| < |s|
  {
    if s == [] || s[0] / 32 == 1 then None
    else if s[0] >= 0x80 then ParseIndexed(d, t, s)
    else ParseLiteral(d, t, max, s, ModeOf(s[0]))
  }

  datatype FieldsRead = FieldsRead(fields: seq<Field>, table: seq<Entry>, max: nat)

  ghost function ParseFields(d: Dictionary, t: seq<Entry>, max: nat, s: seq<Byte>): Option<FieldsRead>
    requires |d.fixed| == StaticLength
    decreases |s|
  {
    if s == [] then Some(FieldsRead([], t, max))
    else
      match ParseField(d, t, max, s)
      case None => None
      case Some(f) =>
        match ParseFields(d, f.table, max, f.rest)
        case None => None
        case Some(more) => Some(more.(fields := [f.field] + more.fields))
  }

  /**
   * A block (section 4.2 and 6.3): changes of the table's size up to the limit set, at least one
   * if it is expected, and then at least one field.
   */
  ghost function ParseBlock(d: Dictionary, t: seq<Entry>, max: nat, limit: nat, expected: bool, s: seq<Byte>): Option<FieldsRead>
    requires |d.fixed| == StaticLength
    decreases |s|
  {
    if s == [] then None
    else if s[0] / 32 == 1 then
      match ParseInt(s, 5)
      case None => None
      case Some(size) => if size.n > limit then None else ParseBlock(d, Shrink(t, size.n), size.n, limit, false, size.rest)
    else if expected then None
    else ParseFields(d, t, max, s)
  }

  // -------------------------------------------------------- the decoder follows the grammar

  /** Reading an index: it names an entry, or the decoder is stuck. */
  lemma IndexReads(v: Decoder, input: seq<Byte>) returns (u: Decoder)
    requires v.Valid() && v.phase.ReadIndex? && v.left == 0 && v.shift == 0 && input != []
    ensures
      var i := ParseInt(input, IndexPrefixOf(v));
      if i.Some? && 0 < i.value.n <= StaticLength + |v.table| then
        && u == v.(left := i.value.n, shift := u.shift, index := i.value.n - 1, phase := if v.op.Indexed? then Opcode else CheckValueLen)
        && StepOf(v, input) ==
           if v.op.Indexed? then
             var e := TableGet(v.dict, v.table, i.value.n - 1);
             Emit(u, i.value.rest, Field(e.name, e.value, false))
           else Continue(u, i.value.rest, false)
      else Stuck(Feed(v, input, false))
  {
    var max := StaticLength + |v.table|;
    LenParses(v, input, IndexPrefixOf(v), max);
    var r := ReadLen(v, input, IndexPrefixOf(v), max);
    u := v;
    if r.LenDone? && r.s.left != 0 {
      u := r.s.(index := r.s.left - 1, phase := if v.op.Indexed? then Opcode else CheckValueLen);
    } else {
      StepIsStuck(v, input, false);
    }
  }

  lemma IndexedParses(s: Decoder, input: seq<Byte>) returns (u: Decoder)
    requires Between(s, s.dict, s.table, s.max) && input != [] && input[0] >= 0x80
    ensures Follows(s, input, ParseIndexed(s.dict, s.table, input), u)
  {
    var v := Restart(s, ReadIndex).(op := Indexed);
    FeedContinues(s, input, false, v, input, false);
    u := IndexReads(v, input);
    var f := ParseIndexed(s.dict, s.table, input);
    if f.Some? { FeedEmits(v, input, false, u, f.value.rest, f.value.field); }
  }

  /** The decoder delivers the field and is at `u` behind it, or it is stuck if there is none. */
  ghost predicate Follows(s: Decoder, input: seq<Byte>, r: Option<FieldRead>, u: Decoder)
    requires s.Valid()
  {
    match r
    case None => Stuck(Feed(s, input, false))
    case Some(f) =>
      && Between(u, s.dict, f.table, s.max) && u.phase.Opcode? && u.settingsMax == s.settingsMax
      && Feed(s, input, false) == Prepend([f.field], Feed(u, f.rest, false))
  }

  /** The state when the name of a literal is known. */
  ghost predicate AtValue(s: Decoder, t: Decoder, n: NameRead, mode: Mode)
  {
    && t.Valid() && t.phase.CheckValueLen? && t.dict == s.dict && t.table == s.table && t.max == s.max && t.settingsMax == s.settingsMax
    && t.indexRequired == mode.WithIndexing? && t.noIndex == mode.NeverIndexing?
    && if n.given then t.op.NewName? && t.nv == n.name + [0] && t.newNameLen == |n.name| && n.token == s.dict.token(n.name)
       else t.op.IndexedName? && t.nv == [] && t.index < StaticLength + |t.table| &&
            n.name == TableGet(t.dict, t.table, t.index).name && n.token == TableGet(t.dict, t.table, t.index).token
  }

  lemma FirstBits(b: Byte)
    requires b < 0x80 && b / 32 != 1
    ensures
      var mode := ModeOf(b);
      && (mode.WithIndexing? <==> b >= 0x40) && (mode.NeverIndexing? <==> b / 16 == 1)
      && (b % PrefixSize(IndexPrefix(mode)) == 0 <==> b == 0x40 || b == 0 || b == 0x10)
  {}

  lemma ZeroIndex(s: seq<Byte>, prefix: nat)
    requires s != []
    ensures
      var r := ParseInt(s, prefix);
      if s[0] % PrefixSize(prefix) == 0 then r == Some(IntRead(0, s[1..])) else r.Some? ==> r.value.n > 0
  {}

  lemma GivenNameParses(s: Decoder, input: seq<Byte>, mode: Mode) returns (t: Decoder)
    requires Between(s, s.dict, s.table, s.max) && input != [] && input[0] < 0x80 && input[0] / 32 != 1 && mode == ModeOf(input[0])
    requires input[0] == 0x40 || input[0] == 0 || input[0] == 0x10
    ensures
      match ParseName(s.dict, s.table, input, mode)
      case None => Stuck(Feed(s, input, false))
      case Some(n) =>
        if |n.name| >= MaxNv || n.rest == [] then n.given && Stuck(Feed(s, input, false))
        else AtValue(s, t, n, mode) && Feed(s, input, false) == Feed(t, n.rest, false)
  {
    FirstBits(input[0]);
    ZeroIndex(input, IndexPrefix(mode));
    var v := Literal(s, mode, CheckNameLen, NewName);
    FeedContinues(s, input, false, v, input[1..], false);
    t := NameParses(v, input[1..]);
  }

  /** A literal whose name is given by an index. */
  lemma IndexedNameStarts(s: Decoder, input: seq<Byte>, mode: Mode) returns (v: Decoder)
    requires Between(s, s.dict, s.table, s.max) && input != [] && input[0] < 0x80 && input[0] / 32 != 1 && mode == ModeOf(input[0])
    requires !(input[0] == 0x40 || input[0] == 0 || input[0] == 0x10)
    ensures v == Literal(s, mode, ReadIndex, IndexedName) && v.Valid() && IndexPrefixOf(v) == IndexPrefix(mode)
    ensures Feed(s, input, false) == Feed(v, input, false)
  {
    FirstBits(input[0]);
    v := Literal(s, mode, ReadIndex, IndexedName);
    FeedContinues(s, input, false, v, input, false);
  }

  lemma NameByIndex(d: Dictionary, t: seq<Entry>, s: seq<Byte>, mode: Mode)
    requires |d.fixed| == StaticLength && s != [] && s[0] < 0x80 && s[0] / 32 != 1 && mode == ModeOf(s[0])
    requires !(s[0] == 0x40 || s[0] == 0 || s[0] == 0x10)
    ensures
      var i := ParseInt(s, IndexPrefix(mode));
      ParseName(d, t, s, mode) ==
        if i.Some? && 0 < i.value.n <= StaticLength + |t| then
          var e := TableGet(d, t, i.value.n - 1);
          Some(NameRead(e.name, e.token, false, i.value.rest))
        else None
  {
    FirstBits(s[0]);
    ZeroIndex(s, IndexPrefix(mode));
  }

  lemma NameIndexReads(v: Decoder, input: seq<Byte>, i: Option<IntRead>) returns (t: Decoder)
    requires v.Valid() && v.phase.ReadIndex? && v.op.IndexedName? && v.left == 0 && v.shift == 0 && input != []
    requires i == ParseInt(input, IndexPrefixOf(v))
    ensures
      if i.Some? && 0 < i.value.n <= StaticLength + |v.table| then
        && t == v.(left := i.value.n, shift := t.shift, index := i.value.n - 1, phase := CheckValueLen)
        && t.Valid() && Feed(v, input, false) == Feed(t, i.value.rest, false)
      else Stuck(Feed(v, input, false))
  {
    t := IndexReads(v, input);
    if i.Some? && 0 < i.value.n <= StaticLength + |v.table| { FeedContinues(v, input, false, t, i.value.rest, false); }
  }

  lemma IndexedNameParses(s: Decoder, input: seq<Byte>, mode: Mode) returns (t: Decoder)
    requires Between(s, s.dict, s.table, s.max) && input != [] && input[0] < 0x80 && input[0] / 32 != 1 && mode == ModeOf(input[0])
    requires !(input[0] == 0x40 || input[0] == 0 || input[0] == 0x10)
    ensures
      match ParseName(s.dict, s.table, input, mode)
      case None => Stuck(Feed(s, input, false))
      case Some(n) => !n.given && AtValue(s, t, n, mode) && Feed(s, input, false) == Feed(t, n.rest, false)
  {
    NameByIndex(s.dict, s.table, input, mode);
    var v := IndexedNameStarts(s, input, mode);
    t := NameIndexReads(v, input, ParseInt(input, IndexPrefix(mode)));
  }

  /** The value behind a known name completes the field. */
  lemma LiteralEnds(s: Decoder, t: Decoder, n: NameRead, mode: Mode) returns (u: Decoder)
    requires Between(s, s.dict, s.table, s.max) && AtValue(s, t, n, mode)
    ensures
      match ParseString(n.rest)
      case None => Stuck(Feed(t, n.rest, false))
      case Some(v) =>
        if !Collectable(n, v.text) then Stuck(Feed(t, n.rest, false))
        else
          var table := if mode.WithIndexing? then Insert(s.table, Entry(n.name, v.text, n.token), s.max) else s.table;
          && Between(u, s.dict, table, s.max) && u.phase.Opcode? && u.settingsMax == s.settingsMax
          && Feed(t, n.rest, false) == Prepend([Field(n.name, v.text, mode.NeverIndexing?)], Feed(u, v.rest, false))
  {
    var done := ValueParses(t, n.rest);
    u := s;
    var v := ParseString(n.rest);
    if v.Some? && |t.nv| + |v.value.text| < MaxNv {
      u := Commit(done).0;
      CommitIs(t, done, n, v.value.text);
    }
  }

  lemma CommitIs(s: Decoder, done: Decoder, n: NameRead, value: seq<Byte>)
    requires ValueKnown(s, done, value) && done.Complete() && |s.dict.fixed| == StaticLength
    requires
      if n.given then s.op.NewName? && s.nv == n.name + [0] && s.newNameLen == |n.name| && n.token == s.dict.token(n.name)
      else s.op.IndexedName? && s.nv == [] && s.index < StaticLength + |s.table| &&
           n.name == TableGet(s.dict, s.table, s.index).name && n.token == TableGet(s.dict, s.table, s.index).token
    ensures
      var (u, f) := Commit(done);
      && f == Field(n.name, value, s.noIndex && !s.indexRequired) && u.nv == [] && u.phase.Opcode?
      && u.table == (if s.indexRequired then Insert(s.table, Entry(n.name, value, n.token), s.max) else s.table)
      && u.dict == s.dict && u.max == s.max && u.settingsMax == s.settingsMax
  {
    if n.given {
      assert done.nv == n.name + [0] + value + [0];
      assert done.nv[..|n.name|] == n.name && done.nv[|n.name| + 1..|done.nv| - 1] == value;
    } else {
      assert done.nv == value + [0] && done.nv[..|done.nv| - 1] == value;
    }
  }

  lemma LiteralParses(s: Decoder, input: seq<Byte>) returns (u: Decoder)
    requires Between(s, s.dict, s.table, s.max) && input != [] && input[0] < 0x80 && input[0] / 32 != 1
    ensures Follows(s, input, ParseLiteral(s.dict, s.table, s.max, input, ModeOf(input[0])), u)
  {
    var mode := ModeOf(input[0]);
    var t;
    if input[0] == 0x40 || input[0] == 0 || input[0] == 0x10 {
      t := GivenNameParses(s, input, mode);
    } else {
      t := IndexedNameParses(s, input, mode);
    }
    var n := ParseName(s.dict, s.table, input, mode);
    u := s;
    if n.Some? {
      if n.value.given && (|n.value.name| >= MaxNv || n.value.rest == []) {
        assert n.value.rest == [] ==> ParseString(n.value.rest).None?;
      } else {
        u := LiteralEnds(s, t, n.value, mode);
      }
    }
  }

  lemma FieldParses(s: Decoder, input: seq<Byte>) returns (u: Decoder)
    requires Between(s, s.dict, s.table, s.max) && input != [] && input[0] / 32 != 1
    ensures Follows(s, input, ParseField(s.dict, s.table, s.max, input), u)
  {
    if input[0] >= 0x80 {
      u := IndexedParses(s, input);
    } else {
      u := LiteralParses(s, input);
    }
  }

  /** The block ends here well, with these fields and this table, or badly if it is none. */
  ghost predicate Yields(r: Fed, p: Option<FieldsRead>)
  {
    match p
    case None => Ended(r).Broken?
    case Some(b) => Ended(r).Fed? && r.out == b.fields && r.s.nv == [] && r.s.table == b.table && r.s.max == b.max
  }

  lemma {:induction false} FieldsParse(s: Decoder, input: seq<Byte>)
    requires Between(s, s.dict, s.table, s.max) && (s.phase.Opcode? || (input != [] && input[0] / 32 != 1))
    ensures Yields(Feed(s, input, false), ParseFields(s.dict, s.table, s.max, input))
    decreases |input|
  {
    if input != [] {
      if input[0] / 32 == 1 {
        StepIsStuck(s, input, false);
      } else {
        var u := FieldParses(s, input);
        var f := ParseField(s.dict, s.table, s.max, input);
        if f.Some? { FieldsParse(u, f.value.rest); }
      }
    }
  }

  /** A change of the table's size is read, or the decoder gets stuck. */
  lemma UpdateParses(s: Decoder, input: seq<Byte>) returns (u: Decoder)
    requires s.Valid() && BetweenBlocks(s) && input != [] && input[0] / 32 == 1
    ensures
      var size := ParseInt(input, 5);
      if size.Some? && size.value.n <= s.settingsMax then
        && u.Valid() && Feed(s, input, false) == Feed(u, size.value.rest, false)
        && u == s.(phase := InflateStart, op := Indexed, left := u.left, shift := u.shift, max := size.value.n, table := Shrink(s.table, size.value.n))
      else Stuck(Feed(s, input, false))
  {
    var v := Restart(s, ReadTableSize).(op := Indexed);
    FeedContinues(s, input, false, v, input, false);
    LenParses(v, input, 5, s.settingsMax);
    var r := ReadLen(v, input, 5, s.settingsMax);
    u := s;
    if r.LenDone? {
      u := r.s.(max := r.s.left, table := Shrink(s.table, r.s.left), phase := InflateStart);
      FeedContinues(v, input, false, u, r.rest, false);
    } else {
      StepIsStuck(v, input, false);
    }
  }

  /**
   * For every string of octets: the decoder accepts it as a block if and only if it is one, and
   * then it has delivered its fields and made its changes to the table.
   */
  lemma {:induction false} DecodesIffParses(s: Decoder, block: seq<Byte>)
    requires s.Valid() && BetweenBlocks(s) && s.nv == []
    ensures
      match ParseBlock(s.dict, s.table, s.max, s.settingsMax, s.phase.ExpectTableSize?, block)
      case None => DecodeBlock(s, block).Broken?
      case Some(b) =>
        var r := DecodeBlock(s, block);
        r.Fed? && r.out == b.fields && r.s.nv == [] && r.s.table == b.table && r.s.max == b.max
    decreases |block|
  {
    if block == [] {
      NoInputIsStuck(s);
    } else if block[0] / 32 == 1 {
      var u := UpdateParses(s, block);
      var size := ParseInt(block, 5);
      if size.Some? && size.value.n <= s.settingsMax { DecodesIffParses(u, size.value.rest); }
    } else if s.phase.ExpectTableSize? {
      StepIsStuck(s, block, false);
    } else {
      FieldsParse(s, block);
    }
  }

  /** Changes of the size to 128, 256, ... octets: exactly those up to the limit are accepted. */
  lemma LimitIsExact(s: Decoder, high: Byte)
    requires s.Valid() && BetweenBlocks(s) && s.nv == [] && high < 128
    ensures DecodeBlock(s, [0x3f, 0xe1, high, 0x82]).Fed? <==> 128 + 128 * high <= s.settingsMax
  {
    UpdateOf(high);
    ParsesAfterUpdate(s.dict, Shrink(s.table, 128 + 128 * high), 128 + 128 * high, s.settingsMax);
    DecodesIffParses(s, [0x3f, 0xe1, high, 0x82]);
  }

  lemma ParsesAfterUpdate(d: Dictionary, t: seq<Entry>, max: nat, limit: nat)
    requires |d.fixed| == StaticLength
    ensures ParseBlock(d, t, max, limit, false, [0x82]).Some?
  {
    assert ParseInt([0x82], 7) == Some(IntRead(2, []));
    assert ParseField(d, t, max, [0x82]).Some? && ParseField(d, t, max, [0x82]).value.rest == [];
  }

  lemma UpdateOf(high: Byte)
    requires high < 128
    ensures ParseInt([0x3f, 0xe1, high, 0x82], 5) == Some(IntRead(128 + 128 * high, [0x82]))
  {
    var s := [0xe1, high, 0x82];
    assert [0x3f, 0xe1, high, 0x82][1..] == s && s[1..] == [high, 0x82] && s[..2] == [0xe1, high] && s[2..] == [0x82];
    assert TailEnd([high, 0x82]) == Some(0);
    assert TailEnd(s) == Some(1);
    assert [0xe1, high][1..] == [high] && [high][1..] == [];
    assert TailValue([high]) == high;
    assert TailValue([0xe1, high]) == 97 + 128 * high;
  }

  /**
   * After every change of its limit, a raise too, the decoder takes a block iff that would be
   * acceptable anyway and it begins with a change of the table's size.
   */
  lemma UpdateIsDemanded(s: Decoder, settings: nat, block: seq<Byte>)
    requires s.Valid() && BetweenBlocks(s) && s.nv == []
    ensures
      var t := ChangeDecoderLimit(s, settings);
      DecodeBlock(t, block).Fed? <==> block != [] && block[0] / 32 == 1 && DecodeBlock(EndHeaders(t), block).Fed?
  {
    var t := ChangeDecoderLimit(s, settings);
    DecodesIffParses(t, block);
    DecodesIffParses(EndHeaders(t), block);
  }

  /** With its limit raised, a decoder refuses the field it took before. */
  lemma RaisedLimitRefuses(s: Decoder, settings: nat)
    requires s.Valid() && s.phase.InflateStart? && s.nv == [] && settings > s.settingsMax
    ensures DecodeBlock(s, [0x82]).Fed? && DecodeBlock(ChangeDecoderLimit(s, settings), [0x82]).Broken?
  {
    ParsesAfterUpdate(s.dict, s.table, s.max, s.settingsMax);
    DecodesIffParses(s, [0x82]);
    UpdateIsDemanded(s, settings, [0x82]);
  }
}
