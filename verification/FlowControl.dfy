/**
 * The receiver's side of flow control for the connection or one stream
 * (lib/nghttp2_helper.c, lib/nghttp2_submit.c, lib/nghttp2_session.c; section 6.9 of
 * RFC 7540).  The four numbers are 32-bit integers; `ToInt32` and `ToSize` are the
 * conversions of C, on a machine with 64-bit addresses.
 */
module FlowControl {
  import opened Bytes

  newtype Int32 = x: int | -0x8000_0000 <= x < 0x8000_0000

  /** NGHTTP2_MAX_WINDOW_SIZE. */
  const MaxWindow: Int32 := 0x7fff_ffff

  /** local_window_size, recv_window_size, recv_reduction and consumed_size. */
  datatype Window = Window(local: int, recv: int, reduction: int, consumed: int)
  {
    /** What the peer may still send. */
    function Credit(): int { local - recv }

    /**
     * The window is a number of 31 bits, also if it is raised again by all it was reduced;
     * at most what was reduced is owed by the peer.
     */
    predicate Sound()
    {
      && 0 <= local && 0 <= reduction && local + reduction <= MaxWindow as int
      && -reduction <= recv <= local && -0x8000_0000 <= consumed < 0x8000_0000
    }

    /** And no negative number of octets is consumed. */
    predicate Valid() { Sound() && 0 <= consumed }
  }

  /** A number of octets as the application gives it. */
  type Size = n: nat | n < 0x1_0000_0000_0000_0000

  function ToSize(x: int): Size { x % 0x1_0000_0000_0000_0000 }

  function ToInt32(x: int): int { (x + 0x8000_0000) % 0x1_0000_0000 - 0x8000_0000 }

  lemma SameLowBits(x: int, k: int)
    ensures ToInt32(x + 0x1_0000_0000 * k) == ToInt32(x)
  {}

  lemma SizeIsLess(x: int) returns (k: int)
    ensures ToSize(x) == x + 0x1_0000_0000 * k
  {
    k := -0x1_0000_0000 * (x / 0x1_0000_0000_0000_0000);
  }

  /** Adding on 64 bits and then keeping 32 is adding on 32 bits. */
  lemma OneWrap(x: int, n: Size)
    ensures ToInt32(ToSize(ToSize(x) + n)) == ToInt32(x + n)
  {
    var k := SizeIsLess(x);
    var j := SizeIsLess(ToSize(x) + n);
    SameLowBits(x + n, k + j);
  }

  /** What a step does: whether it succeeds, the new window and the increment of the WINDOW_UPDATE sent, if any. */
  datatype Outcome = Outcome(ok: bool, now: Window, wire: Option<int>)

  function Amount(wire: Option<int>): int { if wire.Some? then wire.value else 0 }

  function Negative(x: int): int { if x < 0 then -x else 0 }

  function Positive(x: int): int { if x > 0 then x else 0 }

  /**
   * An adjustment by the application.  A reduction takes from the window what the peer was
   * told before; an increase first gives back octets received, then undoes reductions, and
   * only the rest of it widens the peer's view of the window.
   */
  function Submitted(w: Window, delta: int): Outcome
  {
    var wider := Positive(delta - Positive(w.recv));
    var repaid := Min2(w.reduction, wider);
    if delta > 0 && w.local + wider > MaxWindow as int then Outcome(false, w, None)
    else if delta < 0 && w.local + delta < 0 then Outcome(false, w, None)
    else if delta <= 0 then
      Outcome(true, w.(local := w.local + delta, recv := w.recv + delta, reduction := w.reduction - delta), None)
    else
      var recv := if wider == 0 then w.recv - delta else repaid - Negative(w.recv);
      var told := delta - repaid;
      var now := Window(w.local + wider, recv, w.reduction - repaid, w.consumed);
      if told == 0 then Outcome(true, now, None)
      else Outcome(true, now.(consumed := Positive(ToInt32(w.consumed - told))), Some(told))
  }

  function Min2(a: int, b: int): int { if a < b then a else b }

  /** Octets received; `auto` says that the window is kept open without the application's doing. */
  function Received(w: Window, n: nat, auto: bool): Outcome
  {
    if w.recv + n > w.local then Outcome(false, w, None)
    else if auto && w.recv + n >= w.local / 2 then Outcome(true, w.(recv := 0), Some(w.recv + n))
    else Outcome(true, w.(recv := w.recv + n), None)
  }

  /** `size` octets of `c` consumed are given back once they make up half the window. */
  function GivenBack(w: Window, c: int): Outcome
  {
    var size := Min2(c, w.recv);
    if size >= w.local / 2 then Outcome(true, w.(recv := w.recv - size, consumed := c - size), Some(size))
    else Outcome(true, w.(consumed := c), None)
  }

  /** The test of session_update_consumed_size, on unsigned 64-bit integers. */
  predicate Overconsumed(consumed: int, n: Size) { ToSize(consumed) > ToSize(MaxWindow as int - n) }

  /** Octets the application says it has consumed. */
  function Consumed(w: Window, n: Size): Outcome
  {
    if Overconsumed(w.consumed, n) then Outcome(false, w, None) else GivenBack(w, ToInt32(w.consumed + n))
  }

  /** The same on numbers without bounds: more than 31 bits are refused. */
  function IntendedConsumed(w: Window, n: Size): Outcome
  {
    if w.consumed + n > MaxWindow as int then Outcome(false, w, None) else GivenBack(w, w.consumed + n)
  }

  /** The test sees that the sum is too large iff the number itself is not. */
  lemma OverconsumedIff(consumed: int, n: Size)
    requires 0 <= consumed <= MaxWindow as int
    ensures Overconsumed(consumed, n) <==> consumed + n > MaxWindow as int && n <= MaxWindow as int
  {}

  /** Consuming does what is intended iff the number is one of 31 bits. */
  lemma ConsumedAsIntendedIff(w: Window, n: Size)
    requires w.Valid()
    ensures Consumed(w, n) == IntendedConsumed(w, n) <==> n <= MaxWindow as int
  {
    OverconsumedIff(w.consumed, n);
  }

  /** A number of octets after which the number consumed is not negative. */
  predicate Harmless(w: Window, n: Size)
  {
    n <= MaxWindow as int || (w.consumed + n) % 0x1_0000_0000 <= MaxWindow as int
  }

  lemma ConsumedIsValidIff(w: Window, n: Size)
    requires w.Valid()
    ensures Consumed(w, n).now.Valid() <==> Harmless(w, n)
  {
    OverconsumedIff(w.consumed, n);
    SignBit(w.consumed + n);
    GivenBackIsValidIff(w, ToInt32(w.consumed + n));
  }

  lemma SignBit(x: nat)
    ensures -0x8000_0000 <= ToInt32(x) < 0x8000_0000 && (0 <= ToInt32(x) <==> x % 0x1_0000_0000 <= MaxWindow as int)
    ensures x <= MaxWindow as int ==> ToInt32(x) == x
  {
    var q, r := x / 0x1_0000_0000, x % 0x1_0000_0000;
    if r < 0x8000_0000 { Quotient(q, r + 0x8000_0000); } else { Quotient(q + 1, r - 0x8000_0000); }
  }

  lemma Quotient(q: int, r: nat)
    requires r < 0x1_0000_0000
    ensures (0x1_0000_0000 * q + r) % 0x1_0000_0000 == r
  {}

  lemma GivenBackIsValidIff(w: Window, c: int)
    requires w.Sound() && -0x8000_0000 <= c < 0x8000_0000
    ensures GivenBack(w, c).now.Valid() <==> 0 <= c
  {}

  /** 2^31 octets are accepted from every valid window and leave none valid. */
  lemma TooMuchIsAccepted(w: Window)
    requires w.Valid()
    ensures
      var r := Consumed(w, 0x8000_0000);
      r.ok && r.now == w.(consumed := w.consumed - 0x8000_0000) && !r.now.Valid() && !IntendedConsumed(w, 0x8000_0000).ok
  {
    OverconsumedIff(w.consumed, 0x8000_0000);
    assert ToInt32(w.consumed + 0x8000_0000) == w.consumed - 0x8000_0000;
  }

  datatype Event = Submit(delta: int) | Receive(n: nat, auto: bool) | Consume(m: Size)

  function Step(w: Window, e: Event): Outcome
  {
    match e
    case Submit(delta) => Submitted(w, delta)
    case Receive(n, auto) => Received(w, n, auto)
    case Consume(n) => Consumed(w, n)
  }

  /** The octets the peer sent in an event that is accepted. */
  function Sent(w: Window, e: Event): nat { if e.Receive? && Step(w, e).ok then e.n else 0 }

  /**
   * Every step keeps the window sound, a failure changes nothing, and the peer's credit
   * changes by exactly what is put on the wire less what the peer sent.
   */
  lemma StepConserves(w: Window, e: Event)
    requires w.Sound()
    ensures
      var r := Step(w, e);
      && r.now.Sound() && 0 <= Amount(r.wire) <= MaxWindow as int && (!r.ok ==> r.now == w && r.wire == None)
      && r.now.Credit() == w.Credit() + Amount(r.wire) - Sent(w, e)
  {}

  /** A step keeps the window valid iff it does not consume a number that wraps around to a negative one. */
  lemma StepIsValidIff(w: Window, e: Event)
    requires w.Valid()
    ensures Step(w, e).now.Valid() <==> (e.Consume? ==> Harmless(w, e.m))
  {
    StepConserves(w, e);
    if e.Consume? { ConsumedIsValidIff(w, e.m); }
  }

  /**
   * A WINDOW_UPDATE with an increment of zero, which section 6.9 of RFC 7540 makes an error,
   * is sent exactly when the window is of at most one octet and there is nothing to give back.
   */
  lemma ZeroIncrementIff(w: Window, e: Event)
    requires w.Sound()
    ensures
      Step(w, e).wire == Some(0) <==>
      w.local <= 1 &&
      match e
      case Submit(_) => false
      case Receive(n, auto) => auto && w.recv + n == 0
      case Consume(n) => !Overconsumed(w.consumed, n) && Min2(ToInt32(w.consumed + n), w.recv) == 0
  {}

  /** Such a run: all of the initial window is received and then taken away, and nothing consumed. */
  lemma ZeroIncrementSent()
    ensures
      var full := Received(Window(65535, 0, 0, 0), 65535, false);
      var none := Submitted(full.now, -65535);
      full.ok && none.ok && none.now == Window(0, 0, 65535, 0) && Consumed(none.now, 0).wire == Some(0)
  {
    OverconsumedIff(0, 0);
    SignBit(0);
  }

  /** While the peer owes octets of a reduction, none are given back. */
  lemma NoneWhileOwed(w: Window, n: Size)
    requires w.Sound() && w.recv < 0
    ensures Consumed(w, n).wire == None
  {}

  /** The window after a run of events. */
  function After(w: Window, events: seq<Event>): Window
    decreases |events|
  {
    if events == [] then w else After(Step(w, events[0]).now, events[1..])
  }

  /** All increments put on the wire. */
  function Wired(w: Window, events: seq<Event>): int
    decreases |events|
  {
    if events == [] then 0 else Amount(Step(w, events[0]).wire) + Wired(Step(w, events[0]).now, events[1..])
  }

  /** All octets accepted from the peer. */
  function Taken(w: Window, events: seq<Event>): nat
    decreases |events|
  {
    if events == [] then 0 else Sent(w, events[0]) + Taken(Step(w, events[0]).now, events[1..])
  }

  /**
   * Over every run the peer's credit is what it was given less what it used: it is the
   * recorded difference, never negative and never more than 31 bits (section 6.9.1 of RFC 7540),
   * whatever numbers the application says it consumed.
   */
  lemma {:induction false} CreditIsConserved(w: Window, events: seq<Event>)
    requires w.Sound()
    ensures
      var v := After(w, events);
      && v.Sound() && v.Credit() == w.Credit() + Wired(w, events) - Taken(w, events)
      && 0 <= v.Credit() <= MaxWindow as int
    decreases |events|
  {
    if events != [] {
      StepConserves(w, events[0]);
      CreditIsConserved(Step(w, events[0]).now, events[1..]);
    }
  }

  /** Every number consumed in the run is harmless at its time. */
  predicate AllHarmless(w: Window, events: seq<Event>)
    decreases |events|
  {
    events == [] ||
    ((events[0].Consume? ==> Harmless(w, events[0].m)) && AllHarmless(Step(w, events[0]).now, events[1..]))
  }

  /** The windows after all parts of the run are valid iff all numbers consumed are harmless. */
  lemma {:induction false} StaysValidIff(w: Window, events: seq<Event>)
    requires w.Valid()
    ensures (forall k | 0 <= k <= |events| :: After(w, events[..k]).Valid()) <==> AllHarmless(w, events)
    decreases |events|
  {
    if events != [] {
      var next, rest := Step(w, events[0]).now, events[1..];
      forall k | 0 < k <= |events| ensures After(w, events[..k]) == After(next, rest[..k - 1]) {
        assert events[..k][1..] == rest[..k - 1];
      }
      StepIsValidIff(w, events[0]);
      assert After(next, rest[..0]) == next;
      if next.Valid() {
        StaysValidIff(next, rest);
        assert forall k | 0 <= k <= |rest| :: After(next, rest[..k]) == After(w, events[..k + 1]);
      } else {
        assert After(w, events[..1]) == next;
      }
    }
  }

  // ------------------------------------------------------------- what is given back

  /** A quantity of each event, over a run. */
  function Total(w: Window, events: seq<Event>, f: (Window, Event) -> int): int
    decreases |events|
  {
    if events == [] then 0 else f(w, events[0]) + Total(Step(w, events[0]).now, events[1..], f)
  }

  /** Octets the application consumes, if the event is accepted. */
  function Eaten(w: Window, e: Event): int { if e.Consume? && Step(w, e).ok then e.m else 0 }

  /** The part of a submitted increment that goes beyond what is consumed. */
  function Excess(w: Window, e: Event): int
  {
    if e.Submit? then Positive(Amount(Step(w, e).wire) - w.consumed) else 0
  }

  /** What is given back without the application's doing. */
  function Automatic(w: Window, e: Event): int { if e.Receive? then Amount(Step(w, e).wire) else 0 }

  predicate AllSmall(events: seq<Event>) { forall e | e in events && e.Consume? :: e.m <= MaxWindow as int }

  /** One event: what is consumed and not yet given back changes by what is consumed less what is given back for it. */
  lemma StepAccounts(w: Window, e: Event)
    requires w.Valid() && (e.Consume? ==> e.m <= MaxWindow as int)
    ensures
      var r := Step(w, e);
      r.now.Valid() && r.now.consumed + Amount(r.wire) == w.consumed + Eaten(w, e) + Excess(w, e) + Automatic(w, e)
  {
    StepIsValidIff(w, e);
    if e.Consume? { ConsumedAsIntendedIff(w, e.m); }
    if e.Submit? { SubmitAccounts(w, e.delta); }
  }

  lemma SubmitAccounts(w: Window, delta: int)
    requires w.Valid()
    ensures
      var r := Submitted(w, delta);
      r.now.consumed + Amount(r.wire) == w.consumed + Positive(Amount(r.wire) - w.consumed)
  {
    StepConserves(w, Submit(delta));
    var told := Amount(Submitted(w, delta).wire);
    SmallDifference(w.consumed, told);
  }

  lemma SmallDifference(a: int, b: int)
    requires 0 <= a <= MaxWindow as int && 0 <= b <= MaxWindow as int
    ensures ToInt32(a - b) == a - b
  {}

  /**
   * Over every run what is consumed and not yet given back, with all increments on the wire,
   * is what was consumed, what was submitted beyond that and what was given back by itself.
   */
  lemma {:induction false} ConsumedIsAccounted(w: Window, events: seq<Event>)
    requires w.Valid() && AllSmall(events)
    ensures
      var v := After(w, events);
      && v.Valid()
      && v.consumed + Wired(w, events) ==
         w.consumed + Total(w, events, Eaten) + Total(w, events, Excess) + Total(w, events, Automatic)
    decreases |events|
  {
    if events != [] {
      StepAccounts(w, events[0]);
      ConsumedIsAccounted(Step(w, events[0]).now, events[1..]);
    }
  }

  /** No increment goes beyond what is consumed, and none is given back by itself. */
  predicate Modest(w: Window, events: seq<Event>)
    decreases |events|
  {
    events == [] ||
    (Excess(w, events[0]) == 0 && Automatic(w, events[0]) == 0 && Modest(Step(w, events[0]).now, events[1..]))
  }

  /** In such a run never more is given back than was consumed. */
  lemma NeverMoreThanConsumed(w: Window, events: seq<Event>)
    requires w.Valid() && AllSmall(events) && Modest(w, events)
    ensures Wired(w, events) == w.consumed + Total(w, events, Eaten) - After(w, events).consumed
    ensures Wired(w, events) <= w.consumed + Total(w, events, Eaten)
  {
    ConsumedIsAccounted(w, events);
    ModestTotals(w, events);
  }

  lemma {:induction false} ModestTotals(w: Window, events: seq<Event>)
    requires Modest(w, events)
    ensures Total(w, events, Excess) == 0 && Total(w, events, Automatic) == 0
    decreases |events|
  {
    if events != [] { ModestTotals(Step(w, events[0]).now, events[1..]); }
  }

  /** Something is given back iff it makes up half of the window, rounded down. */
  lemma ReopensIff(w: Window, n: Size)
    requires w.Valid() && n <= MaxWindow as int
    ensures Received(w, n, true).wire.Some? <==> n <= w.Credit() && 2 * (w.recv + n) + 1 >= w.local
    ensures Received(w, n, false).wire.None?
    ensures Consumed(w, n).wire.Some? <==> w.consumed + n <= MaxWindow as int && 2 * Min2(w.consumed + n, w.recv) + 1 >= w.local
  {
    ConsumedAsIntendedIff(w, n);
  }

  /** Octets are accepted iff the peer had the credit to send them. */
  lemma AcceptedIffCredit(w: Window, n: nat, auto: bool)
    requires w.Sound()
    ensures Received(w, n, auto).ok <==> n <= w.Credit()
  {}

  /**
   * A reduction and an increase by the same amount cancel out without the peer hearing of
   * them iff no more octets are waiting to be given back; otherwise those are given back.
   */
  lemma ReductionIsUndoneIff(w: Window, k: nat)
    requires w.Sound() && 0 < k <= w.local
    ensures
      var down := Submitted(w, 0 - k);
      var up := Submitted(down.now, k);
      down.ok && down.wire == None && up.ok && (up.now == w && up.wire == None <==> w.recv <= k)
  {}

  // ------------------------------------------------------------------- as it is stored

  datatype Verdict = Fine | FlowControlError

  class Ledger {
    var local: Int32
    var recv: Int32
    var reduction: Int32
    var consumed: Int32

    function Now(): Window
      reads this
    {
      Window(local as int, recv as int, reduction as int, consumed as int)
    }

    constructor (initial: Int32)
      requires initial >= 0
      ensures Now() == Window(initial as int, 0, 0, 0) && Now().Valid()
    {
      local, recv, reduction, consumed := initial, 0, 0, 0;
    }

    /** nghttp2_adjust_local_window_size. */
    method AdjustLocalWindowSize(delta: Int32) returns (r: Verdict, wire: Int32)
      requires Now().Sound()
      modifies this`local, this`recv, this`reduction
      ensures
        var s := Submitted(old(Now()), delta as int);
        && (r.Fine? <==> s.ok) && Now() == s.now.(consumed := old(consumed) as int)
        && (r.Fine? ==> wire as int == Amount(s.wire))
    {
      wire := delta;
      if wire > 0 {
        var newRecv := (if recv > 0 then recv else 0) - wire;
        if newRecv >= 0 {
          recv := newRecv;
          return Fine, wire;
        }
        var d := -newRecv;
        if local > MaxWindow - d {
          return FlowControlError, wire;
        }
        local := local + d;
        var repaid := if reduction < d then reduction else d;
        reduction := reduction - repaid;
        if recv < 0 {
          recv := recv + repaid;
        } else {
          recv := repaid;
        }
        wire := wire - repaid;
        return Fine, wire;
      }
      if local + wire < 0 || recv < -0x8000_0000 - wire || reduction > 0x7fff_ffff + wire {
        return FlowControlError, wire;
      }
      local := local + wire;
      recv := recv + wire;
      reduction := reduction - wire;
      return Fine, 0;
    }

    /** nghttp2_submit_window_update. */
    method SubmitWindowUpdate(increment: Int32) returns (r: Verdict, wire: Option<int>)
      requires Now().Sound()
      modifies this
      ensures Now().Sound() && Outcome(r.Fine?, Now(), wire) == Submitted(old(Now()), increment as int)
    {
      if increment == 0 {
        return Fine, None;
      }
      StepConserves(Now(), Submit(increment as int));
      var told;
      r, told := AdjustLocalWindowSize(increment);
      if r.FlowControlError? || told <= 0 {
        return r, None;
      }
      var left := ToInt32(consumed as int - told as int) as Int32;
      consumed := if left > 0 then left else 0;
      wire := Some(told as int);
    }

    /** adjust_recv_window_size. */
    method AdjustRecvWindowSize(n: Int32) returns (r: Verdict)
      requires Now().Sound() && n >= 0
      modifies this`recv
      ensures r.Fine? <==> n as int <= old(Now()).Credit()
      ensures Now() == if r.Fine? then old(Now()).(recv := old(recv) as int + n as int) else old(Now())
    {
      if recv > local - n || recv > MaxWindow - n {
        return FlowControlError;
      }
      recv := recv + n;
      return Fine;
    }

    /** session_update_recv_connection_window_size and session_update_recv_stream_window_size. */
    method UpdateRecvWindowSize(n: Int32, auto: bool) returns (r: Verdict, wire: Option<int>)
      requires Now().Sound() && n >= 0
      modifies this`recv
      ensures Now().Sound() && Outcome(r.Fine?, Now(), wire) == Received(old(Now()), n as nat, auto)
    {
      wire := None;
      r := AdjustRecvWindowSize(n);
      if r.Fine? && auto && recv >= local / 2 {
        wire := Some(recv as int);
        recv := 0;
      }
    }

    /** session_update_consumed_size. */
    method UpdateConsumedSize(n: Size) returns (r: Verdict, wire: Option<int>)
      requires Now().Sound()
      modifies this`recv, this`consumed
      ensures Now().Sound() && Outcome(r.Fine?, Now(), wire) == Consumed(old(Now()), n)
    {
      wire := None;
      if ToSize(consumed as int) > ToSize(MaxWindow as int - n) {
        return FlowControlError, None;
      }
      OneWrap(consumed as int, n);
      consumed := ToInt32(ToSize(ToSize(consumed as int) + n)) as Int32;
      var size := if consumed < recv then consumed else recv;
      if size >= local / 2 {
        wire := Some(size as int);
        recv := recv - size;
        consumed := consumed - size;
      }
      return Fine, wire;
    }
  }
}
