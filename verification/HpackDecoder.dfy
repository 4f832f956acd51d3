/**
 * The decoder as a function (nghttp2_hd_inflate_hd2 of lib/nghttp2_hd.c): a machine
 * of thirteen phases that reads a header block in pieces of any size.
 */
module HpackDecoder {
  import opened Bytes
  import opened Bufs
  import opened HuffmanTree
  import opened HuffmanTable
  import opened HpackInteger
  import opened HpackTable
  import opened HpackEncoder
  import Codec = HuffmanCodec
  import Huffman = HuffmanCode

  /** NGHTTP2_HD_MAX_NV: capacity for the name and the value of one field. */
  const MaxNv: nat := 65536

  datatype Phase =
    | ExpectTableSize
    | InflateStart
    | Opcode
    | ReadTableSize
    | ReadIndex
    | CheckNameLen
    | ReadNameLen
    | ReadNameHuff
    | ReadName
    | CheckValueLen
    | ReadValueLen
    | ReadValueHuff
    | ReadValue

  datatype Op = NoOp | Indexed | NewName | IndexedName

  /**
   * Decoder state.  `pending` are the bits read since the last Huffman symbol and
   * `nv` the octets collected for the current field, each string followed by a zero.
   */
  datatype Decoder = Decoder(
    dict: Dictionary,
    table: seq<Entry>,
    max: nat,
    settingsMax: nat,
    phase: Phase,
    op: Op,
    huffman: bool,
    index: nat,
    left: nat,
    shift: nat,
    newNameLen: nat,
    indexRequired: bool,
    noIndex: bool,
    pending: Bits,
    nv: seq<Byte>)
  {
    ghost predicate Valid()
    {
      && |dict.fixed| == StaticLength && |nv| <= MaxNv
      && Root.Node? && Pending(Root, pending)
      && (InNamePhase(phase) ==> op == NewName)
      && (InValuePhase(phase) ==> ValueExpected())
      && (phase.ReadIndex? ==> op == Indexed || op == IndexedName)
      && (InIntegerPhase(phase) && left == 0 ==> shift == 0)
    }

    /** The name of the field whose value is being read is known. */
    predicate ValueExpected()
    {
      (op == NewName && newNameLen < |nv|) || (op == IndexedName && index < StaticLength + |table|)
    }

    /** All octets of the field are collected. */
    predicate Complete()
    {
      ValueExpected() && nv != [] && (op == NewName ==> newNameLen + 1 < |nv|)
    }
  }

  predicate InNamePhase(p: Phase) { p.CheckNameLen? || p.ReadNameLen? || p.ReadNameHuff? || p.ReadName? }

  predicate InValuePhase(p: Phase) { p.CheckValueLen? || p.ReadValueLen? || p.ReadValueHuff? || p.ReadValue? }

  predicate InIntegerPhase(p: Phase) { p.ReadTableSize? || p.ReadIndex? || p.ReadNameLen? || p.ReadValueLen? }

  /** One round of the decoder's loop. */
  datatype Step =
    | Failed(error: Error)
    | Stopped(s: Decoder)
    | Emit(s: Decoder, rest: seq<Byte>, field: Field)
    | Continue(s: Decoder, rest: seq<Byte>, busy: bool)

  // ------------------------------------------------------------------ integers

  datatype LenResult = LenFail | LenMore(s: Decoder) | LenDone(s: Decoder, rest: seq<Byte>)

  /** hd_inflate_read_len: reads an integer of at most `max` into `left`. */
  function ReadLen(s: Decoder, input: seq<Byte>, prefix: nat, max: nat): (r: LenResult)
    requires input != []
    ensures r.LenDone? ==> r.s == s.(left := r.s.left, shift := r.s.shift) && r.s.left <= max
  {
    match DecodeInt(s.left, s.shift, input, prefix)
    case Refused => LenFail
    case More(n, shift) => if n > max then LenFail else LenMore(s.(left := n, shift := shift))
    case Done(n, shift, rest) => if n > max then LenFail else LenDone(s.(left := n, shift := shift), rest)
  }

  function Restart(s: Decoder, p: Phase): Decoder { s.(phase := p, left := 0, shift := 0) }

  /** The first octet of a representation. */
  function StepOpcode(s: Decoder, input: seq<Byte>): Step
    requires input != []
  {
    var b := input[0];
    if b / 32 == 1 then
      if s.phase.Opcode? then Failed(HeaderComp)
      else Continue(Restart(s, ReadTableSize).(op := Indexed), input, false)
    else if s.phase.ExpectTableSize? then Failed(HeaderComp)
    else if b >= 0x80 then Continue(Restart(s, ReadIndex).(op := Indexed), input, false)
    else StepLiteral(s.(indexRequired := b >= 0x40, noIndex := b / 16 == 1), input)
  }

  function StepLiteral(s: Decoder, input: seq<Byte>): Step
    requires input != []
  {
    var b := input[0];
    if b == 0x40 || b == 0 || b == 0x10 then Continue(Restart(s, CheckNameLen).(op := NewName), input[1..], false)
    else Continue(Restart(s, ReadIndex).(op := IndexedName), input, false)
  }

  function AfterTableSize(r: LenResult): Step
  {
    match r
    case LenFail => Failed(HeaderComp)
    case LenMore(t) => Stopped(t)
    case LenDone(t, rest) =>
      Continue(t.(max := t.left, table := Shrink(t.table, t.left), phase := InflateStart), rest, false)
  }

  function StepTableSize(s: Decoder, input: seq<Byte>): Step
    requires input != []
  {
    AfterTableSize(ReadLen(s, input, 5, s.settingsMax))
  }

  function IndexPrefixOf(s: Decoder): nat
  {
    if s.op.Indexed? then 7 else if s.indexRequired then 6 else 4
  }

  function AfterIndex(r: LenResult): Step
    requires r.LenDone? ==> |r.s.dict.fixed| == StaticLength && r.s.left <= StaticLength + |r.s.table|
  {
    match r
    case LenFail => Failed(HeaderComp)
    case LenMore(t) => Stopped(t)
    case LenDone(t, rest) =>
      if t.left == 0 then Failed(HeaderComp)
      else if t.op.Indexed? then
        var e := TableGet(t.dict, t.table, t.left - 1);
        Emit(t.(index := t.left - 1, phase := Opcode), rest, Field(e.name, e.value, false))
      else Continue(t.(index := t.left - 1, phase := CheckValueLen), rest, false)
  }

  function StepIndex(s: Decoder, input: seq<Byte>): Step
    requires input != [] && |s.dict.fixed| == StaticLength
  {
    AfterIndex(ReadLen(s, input, IndexPrefixOf(s), StaticLength + |s.table|))
  }

  /** The first octet of a length also carries the Huffman bit. */
  function LenChecked(s: Decoder, input: seq<Byte>, check: Phase, read: Phase): Decoder
    requires input != []
  {
    if s.phase == check then Restart(s, read).(huffman := input[0] >= 0x80) else s
  }

  function AfterNameLen(r: LenResult): Step
  {
    match r
    case LenFail => Failed(HeaderComp)
    case LenMore(t) => Stopped(t)
    case LenDone(t, rest) =>
      if t.huffman then Continue(t.(phase := ReadNameHuff, pending := []), rest, false)
      else Continue(t.(phase := ReadName), rest, false)
  }

  function StepNameLen(s: Decoder, input: seq<Byte>): Step
    requires input != []
  {
    AfterNameLen(ReadLen(LenChecked(s, input, CheckNameLen, ReadNameLen), input, 7, MaxNv))
  }

  function AfterValueLen(r: LenResult): Step
  {
    match r
    case LenFail => Failed(HeaderComp)
    case LenMore(t) => Stopped(t)
    case LenDone(t, rest) =>
      if t.huffman then Continue(t.(phase := ReadValueHuff, pending := []), rest, true)
      else Continue(t.(phase := ReadValue), rest, true)
  }

  function StepValueLen(s: Decoder, input: seq<Byte>): Step
    requires input != []
  {
    AfterValueLen(ReadLen(LenChecked(s, input, CheckValueLen, ReadValueLen), input, 7, MaxNv))
  }

  // ------------------------------------------------------------------- strings

  /** What reading string octets comes to. */
  datatype TextResult = TextFail(error: Error) | Text(s: Decoder, rest: seq<Byte>)

  /** hd_inflate_read: copies up to `left` octets. */
  function ReadRaw(s: Decoder, input: seq<Byte>): TextResult
  {
    var n := Min(|input|, s.left);
    if MaxNv < |s.nv| + n then TextFail(BufferError)
    else Text(s.(nv := s.nv + input[..n], left := s.left - n), input[n..])
  }

  /** hd_inflate_read_huff: decodes up to `left` octets. */
  ghost function ReadHuff(s: Decoder, input: seq<Byte>): TextResult
    requires s.Valid()
  {
    var n := Min(|input|, s.left);
    Decoded(s, Codec.DecodeInto(s.pending, input[..n], MaxNv - |s.nv|, s.left <= |input|), n, input[n..])
  }

  /** The state after decoding `n` octets came to `o`. */
  function Decoded(s: Decoder, o: Codec.Outcome, n: nat, rest: seq<Byte>): TextResult
    requires n <= s.left
  {
    if o.status.Fail? then TextFail(o.status.error)
    else Text(s.(nv := s.nv + o.out, left := s.left - n, pending := o.rest), rest)
  }

  /** Ends a string with a zero octet; `None` if there is no place for it. */
  function Terminated(s: Decoder): Option<Decoder>
  {
    if |s.nv| == MaxNv then None else Some(s.(nv := s.nv + [0]))
  }

  /** After octets of a name were read. */
  function NameRead(r: TextResult): Step
  {
    match r
    case TextFail(e) => Failed(e)
    case Text(s, rest) =>
      if s.left > 0 then Stopped(s)
      else
        match Terminated(s)
        case None => Failed(BufferError)
        case Some(t) => Continue(t.(newNameLen := |s.nv|, phase := CheckValueLen), rest, false)
  }

  /** The field that `nv` and the decoder's flags describe. */
  function FieldOf(s: Decoder): Field
    requires |s.dict.fixed| == StaticLength && s.Complete()
  {
    var noIndex := s.noIndex && !s.indexRequired;
    if s.op.NewName? then Field(s.nv[..s.newNameLen], s.nv[s.newNameLen + 1..|s.nv| - 1], noIndex)
    else Field(TableGet(s.dict, s.table, s.index).name, s.nv[..|s.nv| - 1], noIndex)
  }

  /** hd_inflate_commit_newname and hd_inflate_commit_indname. */
  function Commit(s: Decoder): (Decoder, Field)
    requires |s.dict.fixed| == StaticLength && s.Complete()
  {
    var f := FieldOf(s);
    var token := if s.op.NewName? then s.dict.token(f.name) else TableGet(s.dict, s.table, s.index).token;
    var table := if s.indexRequired then Insert(s.table, Entry(f.name, f.value, token), s.max) else s.table;
    (s.(table := table, nv := [], phase := Opcode), f)
  }

  /** After octets of a value were read. */
  function ValueRead(r: TextResult): Step
    requires r.Text? ==> |r.s.dict.fixed| == StaticLength && r.s.ValueExpected()
  {
    match r
    case TextFail(e) => Failed(e)
    case Text(s, rest) =>
      if s.left > 0 then Stopped(s)
      else
        match Terminated(s)
        case None => Failed(BufferError)
        case Some(t) =>
          var (u, f) := Commit(t);
          Emit(u, rest, f)
  }

  ghost function StepOf(s: Decoder, input: seq<Byte>): (r: Step)
    requires s.Valid() && (input != [] || s.phase.ReadValue? || s.phase.ReadValueHuff?)
  {
    match s.phase
    case ExpectTableSize => StepOpcode(s, input)
    case InflateStart => StepOpcode(s, input)
    case Opcode => StepOpcode(s, input)
    case ReadTableSize => StepTableSize(s, input)
    case ReadIndex => StepIndex(s, input)
    case CheckNameLen => StepNameLen(s, input)
    case ReadNameLen => StepNameLen(s, input)
    case ReadNameHuff => NameRead(ReadHuff(s, input))
    case ReadName => NameRead(ReadRaw(s, input))
    case CheckValueLen => StepValueLen(s, input)
    case ReadValueLen => StepValueLen(s, input)
    case ReadValueHuff => ValueRead(ReadHuff(s, input))
    case ReadValue => ValueRead(ReadRaw(s, input))
  }

  /** Phases that hand over without reading come before those they hand over to. */
  function Rank(p: Phase): nat
  {
    match p
    case ExpectTableSize => 2
    case InflateStart => 2
    case Opcode => 2
    case ReadNameHuff => 2
    case ReadName => 2
    case ReadValueHuff => 3
    case ReadValue => 3
    case _ => 1
  }

  /** A round keeps the state valid and, if it goes on, has read something or advanced. */
  ghost predicate Progresses(s: Decoder, input: seq<Byte>, r: Step)
  {
    match r
    case Failed(_) => true
    case Stopped(t) => t.Valid()
    case Emit(t, rest, _) =>
      && t.Valid() && t.phase.Opcode?
      && (|rest| < |input| || (rest == input && Rank(t.phase) < Rank(s.phase)))
    case Continue(t, rest, busy) =>
      && t.Valid()
      && (|rest| < |input| || (rest == input && Rank(t.phase) < Rank(s.phase)))
      && (busy ==> t.phase.ReadValue? || t.phase.ReadValueHuff?)
  }

  lemma IntegerProgress(s: Decoder, input: seq<Byte>, prefix: nat, max: nat)
    requires s.Valid() && InIntegerPhase(s.phase) && input != []
    ensures
      match ReadLen(s, input, prefix, max)
      case LenFail => true
      case LenMore(t) => t.Valid()
      case LenDone(t, rest) => |rest| < |input|
  {
    if s.left != 0 {
      TailGrows(s.left, s.shift, input);
    } else {
      TailGrows(PrefixMax(prefix), s.shift, input[1..]);
    }
  }

  lemma RestartValid(s: Decoder, p: Phase, o: Op)
    requires s.Valid()
    requires p.ReadTableSize? || (p.ReadIndex? && (o.Indexed? || o.IndexedName?)) || (p.CheckNameLen? && o.NewName?)
    ensures Restart(s, p).(op := o).Valid()
  {}

  lemma OpcodeProgress(s: Decoder, input: seq<Byte>)
    requires s.Valid() && input != [] && (s.phase.ExpectTableSize? || s.phase.InflateStart? || s.phase.Opcode?)
    ensures Progresses(s, input, StepOpcode(s, input))
  {
    RestartValid(s, ReadTableSize, Indexed);
    RestartValid(s, ReadIndex, Indexed);
    LiteralProgress(s.(indexRequired := input[0] >= 0x40, noIndex := input[0] / 16 == 1), input);
  }

  lemma LiteralProgress(s: Decoder, input: seq<Byte>)
    requires s.Valid() && input != [] && (s.phase.ExpectTableSize? || s.phase.InflateStart? || s.phase.Opcode?)
    ensures Progresses(s, input, StepLiteral(s, input))
  {
    RestartValid(s, CheckNameLen, NewName);
    RestartValid(s, ReadIndex, IndexedName);
  }

  lemma TableSizeProgress(s: Decoder, input: seq<Byte>)
    requires s.Valid() && input != [] && s.phase.ReadTableSize?
    ensures Progresses(s, input, StepTableSize(s, input))
  {
    IntegerProgress(s, input, 5, s.settingsMax);
  }

  lemma IndexProgress(s: Decoder, input: seq<Byte>)
    requires s.Valid() && input != [] && s.phase.ReadIndex?
    ensures Progresses(s, input, StepIndex(s, input))
  {
    IntegerProgress(s, input, IndexPrefixOf(s), StaticLength + |s.table|);
  }

  lemma NameLenProgress(s: Decoder, input: seq<Byte>)
    requires s.Valid() && input != [] && (s.phase.CheckNameLen? || s.phase.ReadNameLen?)
    ensures Progresses(s, input, StepNameLen(s, input))
  {
    IntegerProgress(LenChecked(s, input, CheckNameLen, ReadNameLen), input, 7, MaxNv);
    Huffman.RootIsDeep();
  }

  lemma ValueLenProgress(s: Decoder, input: seq<Byte>)
    requires s.Valid() && input != [] && (s.phase.CheckValueLen? || s.phase.ReadValueLen?)
    ensures Progresses(s, input, StepValueLen(s, input))
  {
    IntegerProgress(LenChecked(s, input, CheckValueLen, ReadValueLen), input, 7, MaxNv);
    Huffman.RootIsDeep();
  }

  lemma TextProgress(s: Decoder, input: seq<Byte>)
    requires s.Valid() && !InIntegerPhase(s.phase)
    ensures ReadRaw(s, input).Text? ==> TextRead(s, input, ReadRaw(s, input))
    ensures ReadHuff(s, input).Text? ==> TextRead(s, input, ReadHuff(s, input))
  {}

  lemma NameStep(s: Decoder, input: seq<Byte>)
    requires s.Valid() && input != [] && (s.phase.ReadNameHuff? || s.phase.ReadName?)
    ensures StepOf(s, input) == NameRead(if s.phase.ReadNameHuff? then ReadHuff(s, input) else ReadRaw(s, input))
  {}

  lemma ValueStep(s: Decoder, input: seq<Byte>)
    requires s.Valid() && (s.phase.ReadValueHuff? || s.phase.ReadValue?)
    ensures
      var r := if s.phase.ReadValueHuff? then ReadHuff(s, input) else ReadRaw(s, input);
      (r.Text? ==> r.s.ValueExpected() && |r.s.dict.fixed| == StaticLength) && StepOf(s, input) == ValueRead(r)
  {
    TextProgress(s, input);
  }

  /** Reading octets of a string changes only what it is about and reads what it can. */
  ghost predicate TextRead(s: Decoder, input: seq<Byte>, r: TextResult)
    requires r.Text?
  {
    && r.s.Valid() && s.nv <= r.s.nv && |input| == |r.rest| + (s.left - r.s.left) && r.s.left <= s.left
    && r.s == s.(nv := r.s.nv, left := r.s.left, pending := r.s.pending)
    && (r.s.left > 0 ==> r.rest == []) && (|r.rest| == |input| ==> r.rest == input)
  }

  lemma NameProgress(s: Decoder, input: seq<Byte>, r: TextResult)
    requires s.Valid() && (s.phase.ReadName? || s.phase.ReadNameHuff?) && (r.Text? ==> TextRead(s, input, r))
    ensures Progresses(s, input, NameRead(r))
  {}

  lemma ValueProgress(s: Decoder, input: seq<Byte>, r: TextResult)
    requires s.Valid() && (s.phase.ReadValue? || s.phase.ReadValueHuff?) && (r.Text? ==> TextRead(s, input, r))
    ensures Progresses(s, input, ValueRead(r))
  {}

  lemma StepProgresses(s: Decoder, input: seq<Byte>)
    requires s.Valid() && (input != [] || s.phase.ReadValue? || s.phase.ReadValueHuff?)
    ensures Progresses(s, input, StepOf(s, input))
  {
    match s.phase
    case ReadTableSize => TableSizeProgress(s, input);
    case ReadIndex => IndexProgress(s, input);
    case CheckNameLen => NameLenProgress(s, input);
    case ReadNameLen => NameLenProgress(s, input);
    case CheckValueLen => ValueLenProgress(s, input);
    case ReadValueLen => ValueLenProgress(s, input);
    case ReadNameHuff =>
      TextProgress(s, input);
      NameProgress(s, input, ReadHuff(s, input));
    case ReadName =>
      TextProgress(s, input);
      NameProgress(s, input, ReadRaw(s, input));
    case ReadValueHuff =>
      TextProgress(s, input);
      ValueProgress(s, input, ReadHuff(s, input));
    case ReadValue =>
      TextProgress(s, input);
      ValueProgress(s, input, ReadRaw(s, input));
    case _ => OpcodeProgress(s, input);
  }

  // --------------------------------------------------------------------- runs

  /** The outcome of reading octets: the fields in order, and an error or the state reached. */
  datatype Fed = Broken(error: Error, out: seq<Field>) | Fed(s: Decoder, out: seq<Field>)

  function Prepend(out: seq<Field>, r: Fed): Fed
  {
    match r
    case Broken(e, more) => Broken(e, out + more)
    case Fed(s, more) => Fed(s, out + more)
  }

  /** A state in which a round may run without input. */
  predicate MayBeBusy(s: Decoder) { s.phase.ReadValue? || s.phase.ReadValueHuff? }

  /** Reads all of `input`, going on after every field. */
  ghost function Feed(s: Decoder, input: seq<Byte>, busy: bool): (r: Fed)
    requires s.Valid() && (busy ==> MayBeBusy(s))
    ensures r.Fed? ==> r.s.Valid()
    decreases |input|, Rank(s.phase)
  {
    if input == [] && !busy then Fed(s, [])
    else
      StepProgresses(s, input);
      match StepOf(s, input)
      case Failed(e) => Broken(e, [])
      case Stopped(t) => Fed(t, [])
      case Emit(t, rest, f) => Prepend([f], Feed(t, rest, false))
      case Continue(t, rest, b) => Feed(t, rest, b)
  }

  /** The end of a header block is acceptable only between representations. */
  function Ended(r: Fed): Fed
  {
    if r.Fed? && !r.s.phase.Opcode? then Broken(HeaderComp, r.out) else r
  }

  /** One call of the decoder: it returns at the first field. */
  datatype Called = CallFailed(error: Error) | CallDone(s: Decoder) | CallEmit(s: Decoder, rest: seq<Byte>, field: Field)

  ghost function Call(s: Decoder, input: seq<Byte>, busy: bool): (r: Called)
    requires s.Valid() && (busy ==> MayBeBusy(s))
    ensures r.CallDone? ==> r.s.Valid()
    ensures r.CallEmit? ==> r.s.Valid() && r.s.phase.Opcode?
    ensures r.CallEmit? ==> |r.rest| < |input| || (r.rest == input && 2 < Rank(s.phase))
    decreases |input|, Rank(s.phase)
  {
    if input == [] && !busy then CallDone(s)
    else
      StepProgresses(s, input);
      match StepOf(s, input)
      case Failed(e) => CallFailed(e)
      case Stopped(t) => CallDone(t)
      case Emit(t, rest, f) => CallEmit(t, rest, f)
      case Continue(t, rest, b) => Call(t, rest, b)
  }

  /** Calling again after every field reads the whole input. */
  lemma {:induction false} FeedIsCalls(s: Decoder, input: seq<Byte>, busy: bool)
    requires s.Valid() && (busy ==> MayBeBusy(s))
    ensures
      Feed(s, input, busy) ==
        match Call(s, input, busy)
        case CallFailed(e) => Broken(e, [])
        case CallDone(t) => Fed(t, [])
        case CallEmit(t, rest, f) => Prepend([f], Feed(t, rest, false))
    decreases |input|, Rank(s.phase)
  {
    if input != [] || busy {
      StepProgresses(s, input);
      match StepOf(s, input)
      case Continue(t, rest, b) => FeedIsCalls(t, rest, b);
      case _ =>
    }
  }
}
