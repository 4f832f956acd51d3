/**
 * The decoder's table never exceeds what its own side allows (nghttp2_hd_inflate_hd2 and
 * nghttp2_hd_inflate_change_table_size of lib/nghttp2_hd.c; section 4.2 of RFC 7541),
 * whatever the peer sends.
 */
module HpackLimits {
  import opened Bytes
  import opened HpackInteger
  import opened HpackTable
  import opened HpackEncoder
  import opened HpackDecoder
  import opened HpackConnection
  import Huffman = HuffmanCode

  /** The limit in use is at most the one that was set, and the table fits it. */
  predicate Bounded(s: Decoder) { s.max <= s.settingsMax && TableSize(s.table) <= s.max }

  /** The same limit is set, and the table is bounded. */
  predicate StaysBounded(s: Decoder, t: Decoder) { Bounded(t) && t.settingsMax == s.settingsMax }

  ghost predicate StepStays(s: Decoder, r: Step)
  {
    match r
    case Failed(_) => true
    case Stopped(t) => StaysBounded(s, t)
    case Emit(t, _, _) => StaysBounded(s, t)
    case Continue(t, _, _) => StaysBounded(s, t)
  }

  lemma TableSizeStays(s: Decoder, input: seq<Byte>)
    requires Bounded(s) && input != []
    ensures StepStays(s, StepTableSize(s, input))
  {
    var r := ReadLen(s, input, 5, s.settingsMax);
    if r.LenDone? { ShrinkFits(s.table, r.s.left); }
  }

  lemma CommitStays(s: Decoder)
    requires Bounded(s) && |s.dict.fixed| == StaticLength && s.Complete()
    ensures StaysBounded(s, Commit(s).0)
  {
    var f := FieldOf(s);
    var token := if s.op.NewName? then s.dict.token(f.name) else TableGet(s.dict, s.table, s.index).token;
    TableFits(s.table, Entry(f.name, f.value, token), s.max);
  }

  lemma ValueStays(s: Decoder, input: seq<Byte>, r: TextResult)
    requires s.Valid() && Bounded(s) && (s.phase.ReadValue? || s.phase.ReadValueHuff?) && (r.Text? ==> TextRead(s, input, r))
    ensures StepStays(s, ValueRead(r))
  {
    if r.Text? && r.s.left == 0 && Terminated(r.s).Some? { CommitStays(Terminated(r.s).value); }
  }

  lemma StringStays(s: Decoder, input: seq<Byte>)
    requires s.Valid() && Bounded(s) && (s.phase.ReadName? || s.phase.ReadNameHuff? || s.phase.ReadValue? || s.phase.ReadValueHuff?)
    requires input != [] || s.phase.ReadValue? || s.phase.ReadValueHuff?
    ensures StepStays(s, StepOf(s, input))
  {
    TextProgress(s, input);
    if s.phase.ReadValue? || s.phase.ReadValueHuff? {
      ValueStep(s, input);
      ValueStays(s, input, if s.phase.ReadValueHuff? then ReadHuff(s, input) else ReadRaw(s, input));
    } else {
      NameStep(s, input);
    }
  }

  lemma OpcodeStays(s: Decoder, input: seq<Byte>)
    requires Bounded(s) && input != []
    ensures StepStays(s, StepOpcode(s, input))
  {}

  lemma IndexStays(s: Decoder, input: seq<Byte>)
    requires Bounded(s) && input != [] && |s.dict.fixed| == StaticLength
    ensures StepStays(s, StepIndex(s, input))
  {}

  lemma LengthStays(s: Decoder, input: seq<Byte>)
    requires Bounded(s) && input != []
    ensures StepStays(s, StepNameLen(s, input)) && StepStays(s, StepValueLen(s, input))
  {
    var a, b := LenChecked(s, input, CheckNameLen, ReadNameLen), LenChecked(s, input, CheckValueLen, ReadValueLen);
    AfterLength(s, a, ReadLen(a, input, 7, MaxNv));
    AfterLength(s, b, ReadLen(b, input, 7, MaxNv));
  }

  lemma AfterLength(s: Decoder, t: Decoder, r: LenResult)
    requires StaysBounded(s, t) && (r.LenMore? || r.LenDone? ==> r.s == t.(left := r.s.left, shift := r.s.shift))
    ensures StepStays(s, AfterNameLen(r)) && StepStays(s, AfterValueLen(r))
  {}

  /** No round of the machine, on any input, leaves the bounds. */
  lemma StepIsBounded(s: Decoder, input: seq<Byte>)
    requires s.Valid() && Bounded(s) && (input != [] || s.phase.ReadValue? || s.phase.ReadValueHuff?)
    ensures StepStays(s, StepOf(s, input))
  {
    match s.phase
    case ReadTableSize => TableSizeStays(s, input);
    case ReadName => StringStays(s, input);
    case ReadNameHuff => StringStays(s, input);
    case ReadValue => StringStays(s, input);
    case ReadValueHuff => StringStays(s, input);
    case ReadIndex => IndexStays(s, input);
    case CheckNameLen => LengthStays(s, input);
    case ReadNameLen => LengthStays(s, input);
    case CheckValueLen => LengthStays(s, input);
    case ReadValueLen => LengthStays(s, input);
    case _ => OpcodeStays(s, input);
  }

  lemma {:induction false} FeedIsBounded(s: Decoder, input: seq<Byte>, busy: bool)
    requires s.Valid() && Bounded(s) && (busy ==> MayBeBusy(s))
    ensures Feed(s, input, busy).Fed? ==> StaysBounded(s, Feed(s, input, busy).s)
    decreases |input|, Rank(s.phase)
  {
    if input != [] || busy {
      StepProgresses(s, input);
      StepIsBounded(s, input);
      match StepOf(s, input)
      case Emit(t, rest, _) => FeedIsBounded(t, rest, false);
      case Continue(t, rest, b) => FeedIsBounded(t, rest, b);
      case _ =>
    }
  }

  // ------------------------------------------------------------------------- over runs

  /** What happens to a decoder: octets of any kind arrive, its limit is set, a block is over. */
  datatype Event = Octets(input: seq<Byte>) | Limit(settings: nat) | BlockEnd

  /** The decoder after an event, or none once it is bad; a limit set inside a block is refused. */
  ghost function After(s: Decoder, e: Event): (r: Option<Decoder>)
    requires s.Valid()
    ensures r.Some? ==> r.value.Valid()
  {
    match e
    case Octets(input) =>
      (match Feed(s, input, false)
       case Broken(_, _) => None
       case Fed(t, _) => Some(t))
    case Limit(settings) => Some(if BetweenBlocks(s) then ChangeDecoderLimit(s, settings) else s)
    case BlockEnd => Some(EndHeaders(s))
  }

  ghost function AfterAll(s: Decoder, events: seq<Event>): (r: Option<Decoder>)
    requires s.Valid()
    ensures r.Some? ==> r.value.Valid()
    decreases |events|
  {
    if events == [] then Some(s)
    else
      match After(s, events[0])
      case None => None
      case Some(t) => AfterAll(t, events[1..])
  }

  /** The limit that was set last, if it was set where it is accepted. */
  ghost function LastLimit(s: Decoder, events: seq<Event>): nat
    requires s.Valid()
    decreases |events|
  {
    if events == [] then s.settingsMax
    else
      match After(s, events[0])
      case None => s.settingsMax
      case Some(t) => LastLimit(t, events[1..])
  }

  lemma EventIsBounded(s: Decoder, e: Event)
    requires s.Valid() && Bounded(s) && After(s, e).Some?
    ensures Bounded(After(s, e).value)
    ensures After(s, e).value.settingsMax == if e.Limit? && BetweenBlocks(s) then e.settings else s.settingsMax
  {
    match e
    case Octets(input) => FeedIsBounded(s, input, false);
    case Limit(settings) => ShrinkFits(s.table, settings);
    case BlockEnd =>
  }

  /** Over every run the table is within the limit that was set last, whatever octets arrive. */
  lemma {:induction false} AlwaysBounded(s: Decoder, events: seq<Event>)
    requires s.Valid() && Bounded(s) && AfterAll(s, events).Some?
    ensures Bounded(AfterAll(s, events).value) && TableSize(AfterAll(s, events).value.table) <= LastLimit(s, events)
    decreases |events|
  {
    if events != [] {
      EventIsBounded(s, events[0]);
      AlwaysBounded(After(s, events[0]).value, events[1..]);
    }
  }

  lemma InitiallyBounded(d: Dictionary)
    requires |d.fixed| == StaticLength
    ensures InitialDecoder(d).Valid() && Bounded(InitialDecoder(d))
  {
    Huffman.RootIsDeep();
  }

  /** A new decoder whose limit is never changed has a table of at most 4096 octets. */
  lemma NewDecoderIsBounded(d: Dictionary, inputs: seq<seq<Byte>>)
    requires |d.fixed| == StaticLength
    ensures InitialDecoder(d).Valid()
    ensures
      var r := AfterAll(InitialDecoder(d), Arrivals(inputs));
      r.Some? ==> TableSize(r.value.table) <= 4096
  {
    InitiallyBounded(d);
    var s, events := InitialDecoder(d), Arrivals(inputs);
    if AfterAll(s, events).Some? {
      AlwaysBounded(s, events);
      LimitIsKept(s, inputs);
    }
  }

  function Arrivals(inputs: seq<seq<Byte>>): seq<Event>
  {
    if inputs == [] then [] else [Octets(inputs[0])] + Arrivals(inputs[1..])
  }

  lemma {:induction false} LimitIsKept(s: Decoder, inputs: seq<seq<Byte>>)
    requires s.Valid() && Bounded(s)
    ensures LastLimit(s, Arrivals(inputs)) == s.settingsMax
    decreases |inputs|
  {
    if inputs != [] {
      var e := Octets(inputs[0]);
      assert Arrivals(inputs)[0] == e && Arrivals(inputs)[1..] == Arrivals(inputs[1..]);
      if After(s, e).Some? {
        EventIsBounded(s, e);
        LimitIsKept(After(s, e).value, inputs[1..]);
      }
    }
  }
}
