/**
 * Prefixed integers (section 5.1 of RFC 7541; count_encoded_length,
 * encode_length and decode_length of lib/nghttp2_hd.c).
 */
module HpackInteger {
  import opened Bytes

  const UINT32_MAX: nat := 0xffffffff

  /** `1 << prefix` for the prefixes HPACK uses. */
  function PrefixSize(prefix: nat): nat
  {
    match prefix
    case 4 => 16
    case 5 => 32
    case 6 => 64
    case _ => 128
  }

  /** The largest value a prefix holds: all of its bits set. */
  function PrefixMax(prefix: nat): nat { PrefixSize(prefix) - 1 }

  /** Groups of seven bits, least significant first, the last one unmarked. */
  function TailOf(n: nat): (s: seq<Byte>)
    ensures |s| >= 1
  {
    if n < 128 then [n] else [128 + n % 128] + TailOf(n / 128)
  }

  /** The encoding of `n`; the bits of `first` above the prefix are kept. */
  function EncodeInt(first: Byte, n: nat, prefix: nat): (s: seq<Byte>)
    ensures |s| >= 1
  {
    var high := first - first % PrefixSize(prefix);
    if n < PrefixMax(prefix) then [high + n]
    else [high + PrefixMax(prefix)] + TailOf(n - PrefixMax(prefix))
  }

  // ----------------------------------------------------------------- decoding

  /** An integer is refused, needs more octets, or is complete with `rest` unread. */
  datatype IntResult =
    | Refused
    | More(n: nat, shift: nat)
    | Done(n: nat, shift: nat, rest: seq<Byte>)

  /** Adds groups of seven bits; every step must stay within 32 bits. */
  function DecodeTail(n: nat, shift: nat, s: seq<Byte>): IntResult
    decreases |s|
  {
    if s == [] then More(n, shift)
    else
      var add := s[0] % 128;
      if Shr(UINT32_MAX, shift) < add || UINT32_MAX < n + Shl(add, shift) then Refused
      else if s[0] < 128 then Done(n + Shl(add, shift), shift, s[1..])
      else DecodeTail(n + Shl(add, shift), shift + 7, s[1..])
  }

  /** Decodes from scratch if `initial` is zero, otherwise goes on from it. */
  function DecodeInt(initial: nat, shift: nat, s: seq<Byte>, prefix: nat): IntResult
    requires s != []
  {
    if initial != 0 then DecodeTail(initial, shift, s)
    else if s[0] % PrefixSize(prefix) != PrefixMax(prefix) then Done(s[0] % PrefixSize(prefix), 0, s[1..])
    else if |s| == 1 then More(PrefixMax(prefix), 0)
    else DecodeTail(PrefixMax(prefix), shift, s[1..])
  }

  /** Goes on with `b` after `r`. */
  function Resume(r: IntResult, b: seq<Byte>): IntResult
  {
    match r
    case Refused => Refused
    case More(n, shift) => DecodeTail(n, shift, b)
    case Done(n, shift, rest) => Done(n, shift, rest + b)
  }

  lemma {:induction false} TailConcat(n: nat, shift: nat, a: seq<Byte>, b: seq<Byte>)
    ensures DecodeTail(n, shift, a + b) == Resume(DecodeTail(n, shift, a), b)
    decreases |a|
  {
    if a == [] {
      assert a + b == b;
    } else {
      var add := a[0] % 128;
      assert (a + b)[1..] == a[1..] + b;
      TailConcat(n + Shl(add, shift), shift + 7, a[1..], b);
    }
  }

  /** The value only grows while octets are read. */
  lemma {:induction false} TailGrows(n: nat, shift: nat, s: seq<Byte>)
    ensures
      match DecodeTail(n, shift, s)
      case Refused => true
      case More(m, _) => m >= n
      case Done(m, _, rest) => m >= n && |rest| < |s|
    decreases |s|
  {
    if s != [] {
      var add := s[0] % 128;
      TailGrows(n + Shl(add, shift), shift + 7, s[1..]);
    }
  }

  /** An integer may be cut anywhere and resumed. */
  lemma IntConcat(initial: nat, shift: nat, a: seq<Byte>, b: seq<Byte>, prefix: nat)
    requires a != [] && b != [] && (initial == 0 ==> shift == 0)
    ensures
      match DecodeInt(initial, shift, a, prefix)
      case More(n, k) => n > 0 && DecodeInt(initial, shift, a + b, prefix) == DecodeInt(n, k, b, prefix)
      case r => DecodeInt(initial, shift, a + b, prefix) == Resume(r, b)
  {
    assert (a + b)[1..] == a[1..] + b;
    if initial != 0 {
      TailConcat(initial, shift, a, b);
      TailGrows(initial, shift, a);
    } else if a[0] % PrefixSize(prefix) == PrefixMax(prefix) {
      if |a| == 1 {
        assert a[1..] + b == b;
      } else {
        TailConcat(PrefixMax(prefix), shift, a[1..], b);
        TailGrows(PrefixMax(prefix), shift, a[1..]);
      }
    }
  }

  // --------------------------------------------------------------- round trip

  lemma {:induction false} ShlFits(v: nat, s: nat, max: nat)
    ensures Shl(v, s) <= max <==> v <= Shr(max, s)
    decreases s
  {
    if s > 0 { ShlFits(v, s - 1, max / 2); ShlOut(v, s - 1); }
  }

  lemma ShlOut(v: nat, s: nat)
    ensures Shl(v, s + 1) == 2 * Shl(v, s)
  {}

  lemma {:induction false} ShlSum(a: nat, b: nat, s: nat)
    ensures Shl(a + b, s) == Shl(a, s) + Shl(b, s)
    decreases s
  {
    if s > 0 { ShlSum(a, b, s - 1); }
  }

  lemma ShlGroups(n: nat, s: nat)
    ensures Shl(n, s) == Shl(n % 128, s) + Shl(n / 128, s + 7)
  {
    ShlSum(n % 128, n / 128 * 128, s);
    ShlAdd(n / 128, 7, s);
    assert Shl(n / 128, 7) == n / 128 * 128;
  }

  lemma {:induction false} TailRoundTrip(m: nat, shift: nat, n: nat, rest: seq<Byte>)
    requires m + Shl(n, shift) <= UINT32_MAX
    ensures
      var r := DecodeTail(m, shift, TailOf(n) + rest);
      r.Done? && r.n == m + Shl(n, shift) && r.rest == rest
    decreases n
  {
    var s := TailOf(n) + rest;
    ShlGroups(n, shift);
    ShlFits(n % 128, shift, UINT32_MAX);
    if n < 128 {
      assert n / 128 == 0 && n % 128 == n;
      assert s[1..] == rest;
      assert DecodeTail(m, shift, s) == Done(m + Shl(n, shift), shift, rest);
    } else {
      assert s[1..] == TailOf(n / 128) + rest;
      TailRoundTrip(m + Shl(n % 128, shift), shift + 7, n / 128, rest);
    }
  }

  lemma {:induction false} TailRefuses(m: nat, shift: nat, n: nat, rest: seq<Byte>)
    requires m + Shl(n, shift) > UINT32_MAX
    ensures DecodeTail(m, shift, TailOf(n) + rest) == Refused
    decreases n
  {
    var s := TailOf(n) + rest;
    ShlGroups(n, shift);
    ShlFits(n % 128, shift, UINT32_MAX);
    if n < 128 {
      assert n / 128 == 0 && n % 128 == n;
    } else {
      assert s[1..] == TailOf(n / 128) + rest;
      if m + Shl(n % 128, shift) <= UINT32_MAX {
        TailRefuses(m + Shl(n % 128, shift), shift + 7, n / 128, rest);
      }
    }
  }

  /** A value that needs more than 32 bits is refused. */
  lemma IntRefuses(first: Byte, n: nat, prefix: nat, rest: seq<Byte>)
    requires n > UINT32_MAX
    ensures DecodeInt(0, 0, EncodeInt(first, n, prefix) + rest, prefix) == Refused
  {
    var s, k := EncodeInt(first, n, prefix) + rest, PrefixMax(prefix);
    FirstOctet(first, n, prefix);
    assert s[1..] == TailOf(n - k) + rest;
    assert Shl(n - k, 0) == n - k;
    TailRefuses(k, 0, n - k, rest);
    assert DecodeInt(0, 0, s, prefix) == DecodeTail(k, 0, s[1..]);
  }

  /** Decoding gives back every value of up to 32 bits and leaves what follows unread. */
  lemma IntRoundTrip(first: Byte, n: nat, prefix: nat, rest: seq<Byte>)
    requires n <= UINT32_MAX
    ensures
      var r := DecodeInt(0, 0, EncodeInt(first, n, prefix) + rest, prefix);
      r.Done? && r.n == n && r.rest == rest
  {
    var s := EncodeInt(first, n, prefix) + rest;
    FirstOctet(first, n, prefix);
    if n < PrefixMax(prefix) {
      assert s[1..] == rest;
      assert DecodeInt(0, 0, s, prefix) == Done(n, 0, rest);
    } else {
      assert s[1..] == TailOf(n - PrefixMax(prefix)) + rest;
      TailRoundTrip(PrefixMax(prefix), 0, n - PrefixMax(prefix), rest);
    }
  }

  /** The first octet: the kept bits above, the value or the full prefix below. */
  lemma FirstOctet(first: Byte, n: nat, prefix: nat)
    ensures
      var s := EncodeInt(first, n, prefix);
      && s[0] % PrefixSize(prefix) == Min(n, PrefixMax(prefix))
      && s[0] - s[0] % PrefixSize(prefix) == first - first % PrefixSize(prefix)
  {
    LowPart(first, Min(n, PrefixMax(prefix)), PrefixSize(prefix));
  }

  lemma LowPart(first: nat, low: nat, size: nat)
    requires low < size
    ensures (first - first % size + low) % size == low
  {
    assert first == size * (first / size) + first % size;
    RemainderIsUnique(size * (first / size) + low, size, first / size, low);
  }

  lemma RemainderIsUnique(x: nat, d: nat, q: nat, r: nat)
    requires r < d && x == d * q + r
    ensures x % d == r
  {
    assert d * (x / d - q) == r - x % d by { assert x == d * (x / d) + x % d; }
    MultipleIsLarge(x / d - q, d);
  }

  // ----------------------------------------------------------------- long shifts

  /**
   * Every group is shifted by less than 32.  C leaves longer shifts of a 32-bit integer
   * undefined; `Shl` and `Shr` are those of unbounded integers.
   */
  predicate ShortShifts(n: nat, shift: nat, s: seq<Byte>)
    decreases |s|
  {
    s == [] ||
    (shift < 32 &&
     var add := s[0] % 128;
     Shr(UINT32_MAX, shift) < add || UINT32_MAX < n + Shl(add, shift) || s[0] < 128 ||
     ShortShifts(n + Shl(add, shift), shift + 7, s[1..]))
  }

  /** All shifts are short iff five groups are not followed by more. */
  lemma {:induction false} ShortShiftsIff(n: nat, j: nat, s: seq<Byte>)
    requires j <= 5
    ensures ShortShifts(n, 7 * j, s) <==> |s| <= 5 - j || !DecodeTail(n, 7 * j, s[..5 - j]).More?
    decreases |s|
  {
    if s != [] && j < 5 {
      var add := s[0] % 128;
      ShortShiftsIff(n + Shl(add, 7 * j), j + 1, s[1..]);
      if |s| > 5 - j {
        assert s[1..][..4 - j] == s[..5 - j][1..];
      }
    }
  }

  /** Marked groups of zeros are read without end. */
  lemma {:induction false} ZerosAreRead(n: nat, shift: nat, k: nat)
    requires n <= UINT32_MAX
    ensures DecodeTail(n, shift, seq(k, _ => 128)) == More(n, shift + 7 * k)
    decreases k
  {
    if k > 0 {
      var s: seq<Byte> := seq(k, _ => 128);
      ShlZero(shift);
      assert s[1..] == seq(k - 1, _ => 128);
      ZerosAreRead(n, shift + 7, k - 1);
    }
  }

  /** An octet after five of them is shifted too far. */
  lemma LongShift(prefix: nat, rest: seq<Byte>)
    requires rest != []
    ensures !ShortShifts(PrefixMax(prefix), 0, seq(5, _ => 128) + rest)
  {
    var zeros: seq<Byte> := seq(5, _ => 128);
    ZerosAreRead(PrefixMax(prefix), 0, 5);
    assert (zeros + rest)[..5] == zeros;
    ShortShiftsIff(PrefixMax(prefix), 0, zeros + rest);
  }

  lemma {:induction false} ShlZero(k: nat)
    ensures Shl(0, k) == 0
    decreases k
  {
    if k > 0 { ShlZero(k - 1); }
  }

  lemma FiveGroups(n: nat)
    requires n <= UINT32_MAX
    ensures |TailOf(n)| <= 5
  {
    Pow2Values();
    Pow2Add(3, 32);
    assert Pow2(3) == 8;
    TailLength(n, 5);
  }

  /** No value of 32 bits is written in a way that needs a long shift. */
  lemma EncodedShiftsAreShort(n: nat, prefix: nat, rest: seq<Byte>)
    requires PrefixMax(prefix) <= n <= UINT32_MAX
    ensures ShortShifts(PrefixMax(prefix), 0, TailOf(n - PrefixMax(prefix)) + rest)
  {
    var k := PrefixMax(prefix);
    var t := TailOf(n - k);
    FiveGroups(n - k);
    ShortShiftsIff(k, 0, t + rest);
    if |t + rest| > 5 {
      assert (t + rest)[..5] == t + rest[..5 - |t|];
      assert Shl(n - k, 0) == n - k;
      TailRoundTrip(k, 0, n - k, rest[..5 - |t|]);
    }
  }

  // ------------------------------------------------------------------ methods

  /** Number of octets `EncodeLength` writes. */
  method CountEncodedLength(n: nat, prefix: nat) returns (len: nat)
    ensures len == |EncodeInt(0, n, prefix)|
  {
    var k := PrefixMax(prefix);
    if n < k {
      return 1;
    }
    var m: nat := n - k;
    len := 1;
    while m >= 128
      invariant len + |TailOf(m)| == 1 + |TailOf(n - k)|
    {
      m := m / 128;
      len := len + 1;
    }
    len := len + 1;
  }

  /** Writes `n` with the given prefix into an octet whose upper bits are set already. */
  method EncodeLength(first: Byte, n: nat, prefix: nat) returns (buf: seq<Byte>)
    ensures buf == EncodeInt(first, n, prefix)
  {
    var k := PrefixMax(prefix);
    var high := first - first % PrefixSize(prefix);
    if n < k {
      return [high + n];
    }
    buf := [high + k];
    var m: nat := n - k;
    while m >= 128
      invariant buf + TailOf(m) == [high + k] + TailOf(n - k)
    {
      buf := buf + [128 + m % 128];
      m := m / 128;
    }
    buf := buf + [m];
  }

  /** Reads as much of an integer as `s` holds from position `pos` on. */
  method DecodeLength(initial: nat, shift: nat, s: seq<Byte>, prefix: nat) returns (r: IntResult)
    requires s != []
    ensures r == DecodeInt(initial, shift, s, prefix)
  {
    var k := PrefixMax(prefix);
    var n: nat, i, sh := initial, 0, shift;
    if n == 0 {
      if s[0] % PrefixSize(prefix) != k {
        return Done(s[0] % PrefixSize(prefix), 0, s[1..]);
      }
      n, i := k, 1;
      if i == |s| {
        return More(n, 0);
      }
    }
    while i < |s|
      invariant 0 <= i <= |s|
      invariant DecodeTail(n, sh, s[i..]) == DecodeInt(initial, shift, s, prefix)
    {
      var add := s[i] % 128;
      if Shr(UINT32_MAX, sh) < add || UINT32_MAX - Shl(add, sh) < n {
        return Refused;
      }
      n := n + Shl(add, sh);
      if s[i] < 128 {
        return Done(n, sh, s[i + 1..]);
      }
      sh, i := sh + 7, i + 1;
    }
    return More(n, sh);
  }

  lemma {:induction false} TailLength(n: nat, groups: nat)
    requires groups >= 1 && n < Pow2(7 * groups)
    ensures |TailOf(n)| <= groups
    decreases groups
  {
    if n >= 128 {
      assert Pow2(7) == 128;
      Pow2Add(7, 7 * (groups - 1));
      if groups > 1 { TailLength(n / 128, groups - 1); }
    }
  }
}
