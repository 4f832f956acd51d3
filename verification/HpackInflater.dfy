/**
 * The decoder as it runs (lib/nghttp2_hd.c): registers updated in place, octets
 * collected in a chunk chain, the table in a ring buffer.
 */
module HpackInflater {
  import opened Bytes
  import opened Bufs
  import opened HuffmanTree
  import opened HpackInteger
  import opened HpackTable
  import opened HpackContext
  import opened HpackEncoder
  import opened HpackDecoder
  import opened HpackConnection
  import Codec = HuffmanCodec
  import Huffman = HuffmanCode

  /** What a round of the loop asks for. */
  datatype Action = Fails(error: Error) | Stops | Emits(field: Field) | Goes(busy: bool)

  /** The action, the unread input and the state `t` are those of the round `r`. */
  ghost predicate Matches(r: Step, a: Action, rest: seq<Byte>, t: Decoder)
  {
    match r
    case Failed(e) => a == Fails(e)
    case Stopped(s) => a == Stops && t == s
    case Emit(s, more, f) => a == Emits(f) && t == s && rest == more
    case Continue(s, more, busy) => a == Goes(busy) && t == s && rest == more
  }

  /** The members of nghttp2_hd_inflater that are plain values. */
  datatype Registers = Registers(
    settingsMax: nat,
    phase: Phase,
    op: Op,
    huffman: bool,
    index: nat,
    left: nat,
    shift: nat,
    newNameLen: nat,
    indexRequired: bool,
    noIndex: bool)

  /** The decoder made of registers, table, pending bits and collected octets. */
  ghost function Assembled(d: Dictionary, t: seq<Entry>, max: nat, r: Registers, p: Bits, nv: seq<Byte>): Decoder
  {
    Decoder(d, t, max, r.settingsMax, r.phase, r.op, r.huffman, r.index, r.left, r.shift, r.newNameLen,
            r.indexRequired, r.noIndex, p, nv)
  }

  /** hd_inflate_read_len: the integer that `input` completes or continues, at most `max`. */
  method ReadLength(start: nat, from: nat, input: seq<Byte>, prefix: nat, max: nat) returns (d: IntResult)
    requires input != []
    ensures d == Refusing(DecodeInt(start, from, input, prefix), max)
  {
    d := DecodeLength(start, from, input, prefix);
    if !d.Refused? && d.n > max {
      d := Refused;
    }
  }

  function Refusing(d: IntResult, max: nat): IntResult { if d.Refused? || d.n > max then Refused else d }

  /** Reading an integer touches two registers only. */
  lemma ReadLenAssembled(d: Dictionary, t: seq<Entry>, limit: nat, r: Registers, p: Bits, nv: seq<Byte>,
                         input: seq<Byte>, prefix: nat, max: nat)
    requires input != []
    ensures
      ReadLen(Assembled(d, t, limit, r, p, nv), input, prefix, max) ==
        match Refusing(DecodeInt(r.left, r.shift, input, prefix), max)
        case Refused => LenFail
        case More(n, k) => LenMore(Assembled(d, t, limit, r.(left := n, shift := k), p, nv))
        case Done(n, k, rest) => LenDone(Assembled(d, t, limit, r.(left := n, shift := k), p, nv), rest)
  {}

  /** The registers after the first octet of a representation. */
  method OpcodeRegisters(r: Registers, input: seq<Byte>) returns (a: Action, q: Registers, rest: seq<Byte>)
    requires input != [] && (r.phase.ExpectTableSize? || r.phase.InflateStart? || r.phase.Opcode?)
    ensures
      forall d, t, max, p, nv :: Matches(StepOpcode(Assembled(d, t, max, r, p, nv), input), a, rest,
                                         Assembled(d, t, max, q, p, nv))
  {
    var b := input[0];
    rest := input;
    a := Goes(false);
    q := r.(left := 0, shift := 0);
    if r.phase.ExpectTableSize? && b / 32 != 1 {
      a := Fails(HeaderComp);
    } else if b / 32 == 1 {
      if r.phase.Opcode? {
        a := Fails(HeaderComp);
      }
      q := q.(op := Indexed, phase := ReadTableSize);
    } else if b >= 0x80 {
      q := q.(op := Indexed, phase := ReadIndex);
    } else {
      if b == 0x40 || b == 0 || b == 0x10 {
        q := q.(op := NewName, phase := CheckNameLen);
        rest := input[1..];
      } else {
        q := q.(op := IndexedName, phase := ReadIndex);
      }
      q := q.(indexRequired := b >= 0x40, noIndex := b / 16 == 1);
    }
  }

  function IndexPrefixIn(r: Registers): nat { if r.op.Indexed? then 7 else if r.indexRequired then 6 else 4 }

  function IndexRead(r: Registers, input: seq<Byte>, max: nat): IntResult
    requires input != []
  {
    Refusing(DecodeInt(r.left, r.shift, input, IndexPrefixIn(r)), max)
  }

  function IndexTaken(r: Registers, d: IntResult): Registers
  {
    match d
    case Refused => r
    case More(n, k) => r.(left := n, shift := k)
    case Done(n, k, _) =>
      if n == 0 then r.(left := n, shift := k)
      else r.(left := n, shift := k, index := n - 1, phase := if r.op.Indexed? then Opcode else CheckValueLen)
  }

  lemma IndexAssembled(d: Dictionary, t: seq<Entry>, limit: nat, r: Registers, p: Bits, nv: seq<Byte>, input: seq<Byte>)
    requires input != [] && |d.fixed| == StaticLength
    ensures
      var i := IndexRead(r, input, StaticLength + |t|);
      var s := Assembled(d, t, limit, IndexTaken(r, i), p, nv);
      StepIndex(Assembled(d, t, limit, r, p, nv), input) ==
        match i
        case Refused => Failed(HeaderComp)
        case More(_, _) => Stopped(s)
        case Done(n, _, rest) =>
          if n == 0 then Failed(HeaderComp)
          else if r.op.Indexed? then
            Emit(s, rest, Field(TableGet(d, t, n - 1).name, TableGet(d, t, n - 1).value, false))
          else Continue(s, rest, false)
  {
    ReadLenAssembled(d, t, limit, r, p, nv, input, IndexPrefixIn(r), StaticLength + |t|);
  }

  /** The registers when the length of a string is read, and after it. */
  function LenStart(r: Registers, input: seq<Byte>, check: Phase, read: Phase): Registers
    requires input != []
  {
    if r.phase == check then r.(phase := read, left := 0, shift := 0, huffman := input[0] >= 0x80) else r
  }

  function LenTaken(r: Registers, d: IntResult, huffPhase: Phase, rawPhase: Phase): Registers
  {
    match d
    case Refused => r
    case More(n, k) => r.(left := n, shift := k)
    case Done(n, k, _) => r.(left := n, shift := k, phase := if r.huffman then huffPhase else rawPhase)
  }

  lemma NameLenAssembled(d: Dictionary, t: seq<Entry>, limit: nat, r: Registers, p: Bits, nv: seq<Byte>, input: seq<Byte>)
    requires input != []
    ensures
      var start := LenStart(r, input, CheckNameLen, ReadNameLen);
      var i := Refusing(DecodeInt(start.left, start.shift, input, 7), MaxNv);
      var q := LenTaken(start, i, ReadNameHuff, ReadName);
      StepNameLen(Assembled(d, t, limit, r, p, nv), input) ==
        match i
        case Refused => Failed(HeaderComp)
        case More(_, _) => Stopped(Assembled(d, t, limit, q, p, nv))
        case Done(_, _, rest) => Continue(Assembled(d, t, limit, q, if q.huffman then [] else p, nv), rest, false)
  {
    ReadLenAssembled(d, t, limit, LenStart(r, input, CheckNameLen, ReadNameLen), p, nv, input, 7, MaxNv);
  }

  lemma ValueLenAssembled(d: Dictionary, t: seq<Entry>, limit: nat, r: Registers, p: Bits, nv: seq<Byte>, input: seq<Byte>)
    requires input != []
    ensures
      var start := LenStart(r, input, CheckValueLen, ReadValueLen);
      var i := Refusing(DecodeInt(start.left, start.shift, input, 7), MaxNv);
      var q := LenTaken(start, i, ReadValueHuff, ReadValue);
      StepValueLen(Assembled(d, t, limit, r, p, nv), input) ==
        match i
        case Refused => Failed(HeaderComp)
        case More(_, _) => Stopped(Assembled(d, t, limit, q, p, nv))
        case Done(_, _, rest) => Continue(Assembled(d, t, limit, q, if q.huffman then [] else p, nv), rest, true)
  {
    ReadLenAssembled(d, t, limit, LenStart(r, input, CheckValueLen, ReadValueLen), p, nv, input, 7, MaxNv);
  }

  /** A value of which some octets were read is still expected. */
  lemma ValueGoesOn(s: Decoder, input: seq<Byte>, encoded: bool, r: TextResult)
    requires s.Valid() && s.ValueExpected() && !InIntegerPhase(s.phase)
    requires r == if encoded then ReadHuff(s, input) else ReadRaw(s, input)
    ensures r.Text? ==> r.s.ValueExpected() && |r.s.dict.fixed| == StaticLength
  {
    TextProgress(s, input);
  }

  class Inflater {
    const dict: Dictionary
    const cells: seq<seq<Cell>>
    const ctx: HdContext
    const nvbufs: BufChain
    var regs: Registers
    var huff: Huffman.Context
    ghost var pending: Bits

    /** The state this object stands for. */
    ghost function State(): Decoder
      requires ctx.ring.Valid() && nvbufs.Valid()
      reads this, ctx, ctx.ring, ctx.ring.buffer, nvbufs
    {
      Assembled(dict, ctx.Table(), ctx.bufsizeMax, regs, pending, nvbufs.Contents())
    }

    /** The chain for names and values: eight chunks of an eighth of the capacity. */
    ghost predicate Collects()
      reads this, nvbufs
    {
      && Codec.Sink(nvbufs) && nvbufs.offset == 0 && nvbufs.chunkLength == 8192
      && nvbufs.maxChunk == 8 && nvbufs.chunkKeep == 1
    }

    /** The parts are sound and the automaton is where the pending bits lead. */
    ghost predicate Sound()
      reads this, ctx, ctx.ring, ctx.ring.buffer, nvbufs
    {
      && ctx.Valid() && Collects() && |dict.fixed| == StaticLength && regs.settingsMax <= UINT32_MAX
      && Huffman.IsDecodeTable(cells) && Huffman.Tracks(huff, pending)
    }

    /** Ready for more input. */
    ghost predicate Live()
      reads this, ctx, ctx.ring, ctx.ring.buffer, nvbufs
    {
      Sound() && State().Valid()
    }

    ghost function Objects(): set<object>
      reads this, ctx, ctx.ring
    {
      {this, ctx, ctx.ring, ctx.ring.buffer, nvbufs}
    }

    /** nghttp2_hd_inflate_init. */
    constructor (dict: Dictionary, cells: seq<seq<Cell>>)
      requires |dict.fixed| == StaticLength && Huffman.IsDecodeTable(cells)
      ensures Sound() && State() == InitialDecoder(dict) && !ctx.bad && fresh(Objects() - {this})
    {
      this.dict := dict;
      this.cells := cells;
      ctx := new HdContext();
      nvbufs := new BufChain(MaxNv / 8, 8, 1, 0);
      regs := Registers(4096, InflateStart, NoOp, false, 0, 0, 0, 0, false, false);
      huff, pending := Huffman.InitialContext, [];
      new;
      Huffman.InitialTracks();
    }

    /** nghttp2_hd_inflate_change_table_size: refused inside a block. */
    method ChangeTableSize(settings: nat) returns (r: Status)
      requires Sound() && settings <= UINT32_MAX
      modifies this`regs, ctx, ctx.ring
      ensures Sound() && ctx.bad == old(ctx.bad) && ctx.ring.buffer == old(ctx.ring.buffer)
      ensures r == if old(BetweenBlocks(State())) then Ok else Fail(InvalidState)
      ensures State() == if old(BetweenBlocks(State())) then ChangeDecoderLimit(old(State()), settings) else old(State())
    {
      if regs.phase != ExpectTableSize && regs.phase != InflateStart {
        return Fail(InvalidState);
      }
      regs := regs.(phase := ExpectTableSize, settingsMax := settings);
      ctx.SetLimit(settings);
      r := Ok;
    }

    /** nghttp2_hd_inflate_end_headers. */
    method EndOfHeaders()
      requires Sound()
      modifies this`regs
      ensures Sound() && State() == EndHeaders(old(State()))
    {
      regs := regs.(phase := InflateStart);
    }

    // ------------------------------------------------------------ rounds that read integers

    method DoOpcode(input: seq<Byte>) returns (a: Action, rest: seq<Byte>)
      requires Sound() && input != []
      requires regs.phase.ExpectTableSize? || regs.phase.InflateStart? || regs.phase.Opcode?
      modifies this`regs
      ensures Sound() && Matches(StepOpcode(old(State()), input), a, rest, State())
    {
      var q;
      a, q, rest := OpcodeRegisters(regs, input);
      assert Matches(StepOpcode(State(), input), a, rest,
                     Assembled(dict, ctx.Table(), ctx.bufsizeMax, q, pending, nvbufs.Contents()));
      if !a.Fails? {
        regs := q;
      }
    }

    method DoTableSize(input: seq<Byte>) returns (a: Action, rest: seq<Byte>)
      requires Sound() && input != [] && regs.phase.ReadTableSize?
      modifies this`regs, ctx, ctx.ring
      ensures Sound() && Matches(StepTableSize(old(State()), input), a, rest, State())
      ensures ctx.ring.buffer == old(ctx.ring.buffer) && ctx.bad == old(ctx.bad)
    {
      ReadLenAssembled(dict, ctx.Table(), ctx.bufsizeMax, regs, pending, nvbufs.Contents(), input, 5, regs.settingsMax);
      var d := ReadLength(regs.left, regs.shift, input, 5, regs.settingsMax);
      rest := [];
      match d
      case Refused => a := Fails(HeaderComp);
      case More(n, k) =>
        regs := regs.(left := n, shift := k);
        a := Stops;
      case Done(n, k, more) =>
        regs := regs.(left := n, shift := k, phase := InflateStart);
        ctx.SetLimit(n);
        a, rest := Goes(false), more;
    }

    method TableEntry(i: nat) returns (e: Entry)
      requires ctx.ring.Valid() && |dict.fixed| == StaticLength && i < StaticLength + ctx.ring.len
      ensures e == TableGet(dict, ctx.Table(), i)
    {
      if i >= StaticLength {
        e := ctx.ring.Get(i - StaticLength);
      } else {
        e := dict.fixed[i];
      }
    }

    method DoIndex(input: seq<Byte>) returns (a: Action, rest: seq<Byte>)
      requires Sound() && input != [] && regs.phase.ReadIndex?
      modifies this`regs
      ensures Sound() && Matches(StepIndex(old(State()), input), a, rest, State())
    {
      IndexAssembled(dict, ctx.Table(), ctx.bufsizeMax, regs, pending, nvbufs.Contents(), input);
      var d := ReadLength(regs.left, regs.shift, input, IndexPrefixIn(regs), StaticLength + ctx.ring.len);
      var q := IndexTaken(regs, d);
      rest := [];
      match d
      case Refused => a := Fails(HeaderComp);
      case More(_, _) =>
        regs := q;
        a := Stops;
      case Done(n, _, more) =>
        if n == 0 {
          a := Fails(HeaderComp);
        } else if regs.op.Indexed? {
          var e := TableEntry(n - 1);
          regs := q;
          a, rest := Emits(Field(e.name, e.value, false)), more;
        } else {
          regs := q;
          a, rest := Goes(false), more;
        }
    }

    method DoNameLen(input: seq<Byte>) returns (a: Action, rest: seq<Byte>)
      requires Sound() && input != []
      modifies this
      ensures Sound() && Matches(StepNameLen(old(State()), input), a, rest, State())
    {
      NameLenAssembled(dict, ctx.Table(), ctx.bufsizeMax, regs, pending, nvbufs.Contents(), input);
      var start := LenStart(regs, input, CheckNameLen, ReadNameLen);
      var d := ReadLength(start.left, start.shift, input, 7, MaxNv);
      a, rest := TakeLength(d, LenTaken(start, d, ReadNameHuff, ReadName), false);
    }

    method DoValueLen(input: seq<Byte>) returns (a: Action, rest: seq<Byte>)
      requires Sound() && input != []
      modifies this
      ensures Sound() && Matches(StepValueLen(old(State()), input), a, rest, State())
    {
      ValueLenAssembled(dict, ctx.Table(), ctx.bufsizeMax, regs, pending, nvbufs.Contents(), input);
      var start := LenStart(regs, input, CheckValueLen, ReadValueLen);
      var d := ReadLength(start.left, start.shift, input, 7, MaxNv);
      a, rest := TakeLength(d, LenTaken(start, d, ReadValueHuff, ReadValue), true);
    }

    /** Takes over the registers after a length; a Huffman string starts a new decoding. */
    method TakeLength(d: IntResult, q: Registers, busy: bool) returns (a: Action, rest: seq<Byte>)
      requires Sound() && q.settingsMax == regs.settingsMax
      modifies this
      ensures Sound()
      ensures
        match d
        case Refused => a == Fails(HeaderComp)
        case More(_, _) => a == Stops && regs == q && pending == old(pending)
        case Done(_, _, more) =>
          a == Goes(busy) && rest == more && regs == q && pending == if q.huffman then [] else old(pending)
    {
      rest := [];
      match d
      case Refused =>
        a := Fails(HeaderComp);
      case More(_, _) =>
        regs := q;
        a := Stops;
      case Done(_, _, more) =>
        regs := q;
        if q.huffman {
          Huffman.InitialTracks();
          huff, pending := Huffman.InitialContext, [];
        }
        a, rest := Goes(busy), more;
    }

    // ------------------------------------------------------------- rounds that read strings

    /** Reads string octets into the chain; the result is that of `ReadRaw` or `ReadHuff`. */
    ghost predicate TextMatches(r: TextResult, status: Status, rest: seq<Byte>)
      requires ctx.ring.Valid() && nvbufs.Valid()
      reads this, ctx, ctx.ring, ctx.ring.buffer, nvbufs
    {
      match r
      case TextFail(e) => status == Fail(e)
      case Text(t, more) => status == Ok && State() == t && rest == more
    }

    /** Takes over octets of the current string as they are. */
    method RunRaw(data: seq<Byte>) returns (status: Status)
      requires Sound()
      modifies nvbufs
      ensures Sound() && status == if MaxNv < |old(nvbufs.Contents())| + |data| then Fail(BufferError) else Ok
      ensures status.Ok? ==> nvbufs.Contents() == old(nvbufs.Contents()) + data
    {
      PackedRoom(nvbufs);
      status := nvbufs.Add(data);
    }

    method DoRaw(input: seq<Byte>) returns (status: Status, rest: seq<Byte>)
      requires Sound()
      modifies this`regs, nvbufs
      ensures Sound() && TextMatches(ReadRaw(old(State()), input), status, rest)
    {
      var n := Min(|input|, regs.left);
      status := RunRaw(input[..n]);
      rest := input[n..];
      if status.Ok? {
        regs := regs.(left := regs.left - n);
      }
    }

    /** Huffman decodes octets of the current string. */
    method RunHuff(input: seq<Byte>, final: bool, ghost o: Codec.Outcome) returns (status: Status)
      requires Sound() && o == Codec.DecodeInto(pending, input, nvbufs.Room(), final)
      modifies this`huff, this`pending, nvbufs
      ensures Sound() && status == o.status
      ensures status.Ok? ==> pending == o.rest && nvbufs.Contents() == old(nvbufs.Contents()) + o.out
    {
      var c;
      status, c := Codec.HuffDecode(huff, pending, nvbufs, input, final, cells);
      if status.Ok? {
        huff, pending := c, o.rest;
      }
    }

    method DoHuff(input: seq<Byte>) returns (status: Status, rest: seq<Byte>)
      requires Live()
      modifies this, nvbufs
      ensures Sound() && TextMatches(ReadHuff(old(State()), input), status, rest)
    {
      var n := Min(|input|, regs.left);
      var final := |input| >= regs.left;
      ghost var s, r := State(), regs;
      ghost var o := Codec.DecodeInto(pending, input[..n], nvbufs.Room(), final);
      PackedRoom(nvbufs);
      ReadHuffBy(s, input, n, nvbufs.Room());
      rest := input[n..];
      DecodedAssembled(dict, ctx.Table(), ctx.bufsizeMax, r, s.pending, s.nv, o, n, rest);
      status := RunHuff(input[..n], final, o);
      if status.Ok? {
        regs := regs.(left := regs.left - n);
      }
    }

    /** Reads octets of the current string, Huffman encoded or not. */
    method DoText(input: seq<Byte>, encoded: bool) returns (status: Status, rest: seq<Byte>)
      requires Live()
      modifies this, nvbufs
      ensures Sound()
      ensures TextMatches(if encoded then ReadHuff(old(State()), input) else ReadRaw(old(State()), input), status, rest)
    {
      if encoded {
        status, rest := DoHuff(input);
      } else {
        status, rest := DoRaw(input);
      }
    }

    /** Ends a string with a zero octet. */
    method Terminate() returns (status: Status)
      requires Sound()
      modifies nvbufs
      ensures Sound()
      ensures
        match Terminated(old(State()))
        case None => status == Fail(BufferError)
        case Some(t) => status == Ok && State() == t
    {
      PackedRoom(nvbufs);
      status := nvbufs.AddB(0);
    }

    method FinishName(ghost rest: seq<Byte>) returns (a: Action)
      requires Sound()
      modifies this`regs, nvbufs
      ensures Sound() && Matches(NameRead(Text(old(State()), rest)), a, rest, State())
    {
      if regs.left > 0 {
        return Stops;
      }
      var n := nvbufs.Len();
      var status := Terminate();
      if status.Fail? {
        return Fails(BufferError);
      }
      regs := regs.(newNameLen := n, phase := CheckValueLen);
      return Goes(false);
    }

    method DoName(input: seq<Byte>, encoded: bool) returns (a: Action, rest: seq<Byte>)
      requires Live()
      modifies this, nvbufs
      ensures Sound()
      ensures
        Matches(NameRead(if encoded then ReadHuff(old(State()), input) else ReadRaw(old(State()), input)), a, rest, State())
    {
      var status;
      status, rest := DoText(input, encoded);
      if status.Fail? {
        return Fails(status.error), [];
      }
      a := FinishName(rest);
    }

    /** The octets collected for a field, taken out of the chain. */
    method TakeCollected() returns (nv: seq<Byte>)
      requires Sound()
      modifies nvbufs
      ensures Sound() && nv == old(nvbufs.Contents()) && nvbufs.Contents() == []
    {
      nv := nvbufs.Remove();
      nvbufs.Reset();
    }

    /** The field and the token that the collected octets `nv` describe. */
    method DescribeField(nv: seq<Byte>) returns (f: Field, token: int)
      requires ctx.ring.Valid() && |dict.fixed| == StaticLength
      requires Assembled(dict, ctx.Table(), ctx.bufsizeMax, regs, pending, nv).Complete()
      ensures f == FieldOf(Assembled(dict, ctx.Table(), ctx.bufsizeMax, regs, pending, nv))
      ensures token == if regs.op.NewName? then dict.token(f.name) else TableGet(dict, ctx.Table(), regs.index).token
    {
      var noIndex := regs.noIndex && !regs.indexRequired;
      if regs.op.NewName? {
        f := Field(nv[..regs.newNameLen], nv[regs.newNameLen + 1..|nv| - 1], noIndex);
        token := dict.token(f.name);
      } else {
        var e := TableEntry(regs.index);
        f := Field(e.name, nv[..|nv| - 1], noIndex);
        token := e.token;
      }
    }

    /** Adds the field to the table if asked to, and ends its representation. */
    method EnterField(f: Field, token: int)
      requires Sound()
      modifies this`regs, ctx`bufsize, ctx.ring, ctx.ring.buffer
      ensures Sound() && (ctx.ring.buffer == old(ctx.ring.buffer) || fresh(ctx.ring.buffer))
      ensures regs == old(regs).(phase := Opcode)
      ensures ctx.Table() ==
        if regs.indexRequired then Insert(old(ctx.Table()), Entry(f.name, f.value, token), ctx.bufsizeMax) else old(ctx.Table())
    {
      if regs.indexRequired {
        ctx.AddIncremental(Entry(f.name, f.value, token));
      }
      regs := regs.(phase := Opcode);
    }

    /** hd_inflate_commit_newname and hd_inflate_commit_indname. */
    method CommitField() returns (f: Field)
      requires Sound() && State().Complete()
      modifies this`regs, ctx`bufsize, ctx.ring, ctx.ring.buffer, nvbufs
      ensures Sound() && (ctx.ring.buffer == old(ctx.ring.buffer) || fresh(ctx.ring.buffer))
      ensures (State(), f) == Commit(old(State()))
    {
      var nv := TakeCollected();
      var token;
      f, token := DescribeField(nv);
      EnterField(f, token);
    }

    method FinishValue(ghost rest: seq<Byte>) returns (a: Action)
      requires Sound() && State().ValueExpected()
      modifies this`regs, ctx`bufsize, ctx.ring, ctx.ring.buffer, nvbufs
      ensures Sound() && (ctx.ring.buffer == old(ctx.ring.buffer) || fresh(ctx.ring.buffer))
      ensures Matches(ValueRead(Text(old(State()), rest)), a, rest, State())
    {
      if regs.left > 0 {
        return Stops;
      }
      var status := Terminate();
      if status.Fail? {
        return Fails(BufferError);
      }
      var f := CommitField();
      return Emits(f);
    }

    method DoValue(input: seq<Byte>, encoded: bool) returns (a: Action, rest: seq<Byte>)
      requires Live() && State().ValueExpected() && !InIntegerPhase(regs.phase)
      modifies this, ctx`bufsize, ctx.ring, ctx.ring.buffer, nvbufs
      ensures Sound() && (ctx.ring.buffer == old(ctx.ring.buffer) || fresh(ctx.ring.buffer))
      ensures
        var r := if encoded then ReadHuff(old(State()), input) else ReadRaw(old(State()), input);
        && (r.Text? ==> r.s.ValueExpected() && |r.s.dict.fixed| == StaticLength)
        && Matches(ValueRead(r), a, rest, State())
    {
      ghost var r := if encoded then ReadHuff(State(), input) else ReadRaw(State(), input);
      ValueGoesOn(State(), input, encoded, r);
      var status;
      status, rest := DoText(input, encoded);
      assert TextMatches(r, status, rest);
      if status.Fail? {
        return Fails(status.error), [];
      }
      a := FinishValue(rest);
    }

    // -------------------------------------------------------------------------- the loop

    /** One round of the loop, whatever the phase. */
    method Round(input: seq<Byte>) returns (a: Action, rest: seq<Byte>)
      requires Live() && (input != [] || MayBeBusy(State()))
      modifies this, ctx, ctx.ring, ctx.ring.buffer, nvbufs
      ensures Sound() && (ctx.ring.buffer == old(ctx.ring.buffer) || fresh(ctx.ring.buffer)) && ctx.bad == old(ctx.bad)
      ensures Matches(StepOf(old(State()), input), a, rest, State())
    {
      match regs.phase
      case ReadNameHuff => a, rest := RoundOfName(input);
      case ReadName => a, rest := RoundOfName(input);
      case ReadValueHuff => a, rest := RoundOfValue(input);
      case ReadValue => a, rest := RoundOfValue(input);
      case _ => a, rest := RoundOfIntegers(input);
    }

    method RoundOfName(input: seq<Byte>) returns (a: Action, rest: seq<Byte>)
      requires Live() && input != [] && (regs.phase.ReadNameHuff? || regs.phase.ReadName?)
      modifies this, nvbufs
      ensures Sound() && Matches(StepOf(old(State()), input), a, rest, State())
    {
      NameStep(State(), input);
      a, rest := DoName(input, regs.phase.ReadNameHuff?);
    }

    method RoundOfValue(input: seq<Byte>) returns (a: Action, rest: seq<Byte>)
      requires Live() && (regs.phase.ReadValueHuff? || regs.phase.ReadValue?)
      modifies this, ctx`bufsize, ctx.ring, ctx.ring.buffer, nvbufs
      ensures Sound() && (ctx.ring.buffer == old(ctx.ring.buffer) || fresh(ctx.ring.buffer))
      ensures Matches(StepOf(old(State()), input), a, rest, State())
    {
      ValueStep(State(), input);
      a, rest := DoValue(input, regs.phase.ReadValueHuff?);
    }

    method RoundOfIntegers(input: seq<Byte>) returns (a: Action, rest: seq<Byte>)
      requires Live() && input != []
      requires !(regs.phase.ReadNameHuff? || regs.phase.ReadName? || regs.phase.ReadValueHuff? || regs.phase.ReadValue?)
      modifies this, ctx, ctx.ring
      ensures Sound() && ctx.ring.buffer == old(ctx.ring.buffer) && ctx.bad == old(ctx.bad)
      ensures Matches(StepOf(old(State()), input), a, rest, State())
    {
      match regs.phase
      case ReadTableSize => a, rest := DoTableSize(input);
      case ReadIndex => a, rest := DoIndex(input);
      case CheckNameLen => a, rest := DoNameLen(input);
      case ReadNameLen => a, rest := DoNameLen(input);
      case CheckValueLen => a, rest := DoValueLen(input);
      case ReadValueLen => a, rest := DoValueLen(input);
      case ExpectTableSize => a, rest := DoOpcode(input);
      case InflateStart => a, rest := DoOpcode(input);
      case Opcode => a, rest := DoOpcode(input);
    }

    /** Rounds until input is used up, a field is complete or an error occurs. */
    method Rounds(input: seq<Byte>) returns (a: Action, rest: seq<Byte>)
      requires Live()
      modifies this, ctx, ctx.ring, ctx.ring.buffer, nvbufs
      ensures Sound() && (ctx.ring.buffer == old(ctx.ring.buffer) || fresh(ctx.ring.buffer)) && ctx.bad == old(ctx.bad)
      ensures
        match Call(old(State()), input, false)
        case CallFailed(e) => a == Fails(e)
        case CallDone(t) => a == Stops && State() == t && rest == []
        case CallEmit(t, more, f) => a == Emits(f) && State() == t && rest == more
    {
      var busy := false;
      rest := input;
      while rest != [] || busy
        invariant Live() && (busy ==> MayBeBusy(State()))
        invariant (ctx.ring.buffer == old(ctx.ring.buffer) || fresh(ctx.ring.buffer)) && ctx.bad == old(ctx.bad)
        invariant Call(State(), rest, busy) == Call(old(State()), input, false)
        decreases |rest|, Rank(regs.phase)
      {
        ghost var s, before := State(), rest;
        StepProgresses(s, rest);
        a, rest := Round(rest);
        match a
        case Fails(_) => return;
        case Stops => rest := []; return;
        case Emits(_) => return;
        case Goes(more) => busy := more;
      }
      a := Stops;
    }

    /**
     * nghttp2_hd_inflate_hd2: one call.  A failure marks the decoder bad, and a bad decoder
     * refuses all input.
     */
    method InflateHd(input: seq<Byte>, final: bool) returns (r: Status, rest: seq<Byte>, field: Option<Field>)
      requires if ctx.bad then Sound() else Live()
      modifies this, ctx, ctx.ring, ctx.ring.buffer, nvbufs
      ensures Sound() && (ctx.ring.buffer == old(ctx.ring.buffer) || fresh(ctx.ring.buffer))
      ensures ctx.bad <==> r.Fail?
      ensures old(ctx.bad) ==> r == Fail(HeaderComp)
      ensures !old(ctx.bad) ==>
        match Call(old(State()), input, false)
        case CallFailed(e) => r == Fail(e)
        case CallDone(t) =>
          if final && !t.phase.Opcode? then r == Fail(HeaderComp)
          else r == Ok && field == None && State() == t && rest == []
        case CallEmit(t, more, f) => r == Ok && field == Some(f) && State() == t && rest == more
    {
      rest, field := [], None;
      if ctx.bad {
        return Fail(HeaderComp), rest, field;
      }
      var a;
      a, rest := Rounds(input);
      r := Ok;
      match a {
        case Fails(e) => r := Fail(e);
        case Emits(f) => field := Some(f);
        case Stops =>
          if final && !regs.phase.Opcode? {
            r := Fail(HeaderComp);
          }
        case Goes(_) =>
      }
      if r.Fail? {
        ctx.bad := true;
      }
    }

    /** One call, seen as part of reading all of `input`. */
    method NextField(input: seq<Byte>, final: bool) returns (r: Status, rest: seq<Byte>, field: Option<Field>)
      requires Live() && !ctx.bad
      modifies this, ctx, ctx.ring, ctx.ring.buffer, nvbufs
      ensures Sound() && (ctx.ring.buffer == old(ctx.ring.buffer) || fresh(ctx.ring.buffer)) && (ctx.bad <==> r.Fail?)
      ensures
        var fed := Feed(old(State()), input, false);
        match r
        case Fail(e) => (if final then Ended(fed) else fed) == Broken(e, [])
        case Ok =>
          match field
          case Some(f) =>
            && Live() && fed == Prepend([f], Feed(State(), rest, false))
            && (|rest| < |input| || (rest == input && Rank(regs.phase) < old(Rank(regs.phase))))
          case None => fed == Fed(State(), []) && (final ==> Ended(fed) == fed)
    {
      FeedIsCalls(State(), input, false);
      r, rest, field := InflateHd(input, final);
    }

    /**
     * inflate_header_block of lib/nghttp2_session.c: calls until the input is used up, and
     * ends the block if this was its last piece.
     */
    method InflateBlock(input: seq<Byte>, final: bool) returns (r: Status, fields: seq<Field>)
      requires Live() && !ctx.bad
      modifies this, ctx, ctx.ring, ctx.ring.buffer, nvbufs
      ensures Sound() && (ctx.ring.buffer == old(ctx.ring.buffer) || fresh(ctx.ring.buffer))
      ensures ctx.bad <==> r.Fail?
      ensures
        var fed := Feed(old(State()), input, false);
        match if final then Ended(fed) else fed
        case Broken(e, out) => r == Fail(e) && fields == out
        case Fed(t, out) => r == Ok && fields == out && State() == if final then EndHeaders(t) else t
    {
      fields := [];
      var rest, more := input, true;
      ghost var whole := Feed(State(), input, false);
      NothingYet(whole);
      while more
        invariant Sound() && (ctx.ring.buffer == old(ctx.ring.buffer) || fresh(ctx.ring.buffer)) && !ctx.bad
        invariant more ==> Live() && Remains(rest, fields, whole)
        invariant !more ==> Fed(State(), fields) == whole && (final ==> Ended(whole) == whole)
        decreases more, |rest|, Rank(regs.phase)
      {
        var field;
        r, rest, field := CollectNext(rest, final, fields, whole);
        if r.Fail? {
          return;
        }
        match field
        case Some(f) => fields := fields + [f];
        case None => more := false;
      }
      r := Ok;
      if final {
        EndOfHeaders();
      }
    }

    /** Reading `rest` after `fields` comes to `whole`. */
    ghost predicate Remains(rest: seq<Byte>, fields: seq<Field>, whole: Fed)
      requires Live()
      reads this, ctx, ctx.ring, ctx.ring.buffer, nvbufs
    {
      Prepend(fields, Feed(State(), rest, false)) == whole
    }

    method CollectNext(input: seq<Byte>, final: bool, ghost fields: seq<Field>, ghost whole: Fed)
      returns (r: Status, rest: seq<Byte>, field: Option<Field>)
      requires Live() && !ctx.bad && Remains(input, fields, whole)
      modifies this, ctx, ctx.ring, ctx.ring.buffer, nvbufs
      ensures Sound() && (ctx.ring.buffer == old(ctx.ring.buffer) || fresh(ctx.ring.buffer)) && (ctx.bad <==> r.Fail?)
      ensures
        match r
        case Fail(e) => (if final then Ended(whole) else whole) == Broken(e, fields)
        case Ok =>
          match field
          case Some(f) =>
            && Live() && Remains(rest, fields + [f], whole)
            && (|rest| < |input| || (rest == input && Rank(regs.phase) < old(Rank(regs.phase))))
          case None => whole == Fed(State(), fields) && (final ==> Ended(whole) == whole)
    {
      ghost var fed := Feed(State(), input, false);
      r, rest, field := NextField(input, final);
      EndedAfter(fields, fed);
      assert fields + [] == fields;
      if field.Some? && r.Ok? {
        PrependMore(fields, field.value, Feed(State(), rest, false));
      }
    }
  }

  lemma NothingYet(r: Fed)
    ensures Prepend([], r) == r
  {
    assert [] + r.out == r.out;
  }

  lemma PrependMore(out: seq<Field>, f: Field, r: Fed)
    ensures Prepend(out, Prepend([f], r)) == Prepend(out + [f], r)
  {
    assert out + ([f] + r.out) == (out + [f]) + r.out;
  }

  lemma EndedAfter(out: seq<Field>, r: Fed)
    ensures Ended(Prepend(out, r)) == Prepend(out, Ended(r))
  {}

  lemma DecodedAssembled(d: Dictionary, t: seq<Entry>, limit: nat, r: Registers, p: Bits, nv: seq<Byte>,
                         o: Codec.Outcome, n: nat, rest: seq<Byte>)
    requires n <= r.left
    ensures
      Decoded(Assembled(d, t, limit, r, p, nv), o, n, rest) ==
        if o.status.Fail? then TextFail(o.status.error)
        else Text(Assembled(d, t, limit, r.(left := r.left - n), o.rest, nv + o.out), rest)
  {}

  lemma ReadHuffBy(s: Decoder, input: seq<Byte>, n: nat, room: nat)
    requires s.Valid() && n == Min(|input|, s.left) && room == MaxNv - |s.nv|
    ensures ReadHuff(s, input) == Decoded(s, Codec.DecodeInto(s.pending, input[..n], room, s.left <= |input|), n, input[n..])
  {}
}
