/** Octets, bit strings and the option and sum helpers shared by every component. */
module Bytes {
  type Byte = x: nat | x < 256

  /** A bit string, most significant bit first. */
  type Bits = seq<bool>

  datatype Option<+T> = None | Some(value: T)

  function Min(a: int, b: int): int { if a <= b then a else b }

  function Max(a: int, b: int): int { if a >= b then a else b }

  function Pow2(n: nat): (r: nat)
    ensures r >= 1
  {
    if n == 0 then 1 else 2 * Pow2(n - 1)
  }

  lemma {:induction false} Pow2Add(m: nat, n: nat)
    ensures Pow2(m + n) == Pow2(m) * Pow2(n)
  {
    if m > 0 {
      Pow2Add(m - 1, n);
      assert Pow2(m + n) == 2 * (Pow2(m - 1) * Pow2(n));
    }
  }

  lemma Pow2Values()
    ensures Pow2(8) == 0x100 && Pow2(16) == 0x10000 && Pow2(24) == 0x1000000
    ensures Pow2(30) == 0x40000000 && Pow2(32) == 0x100000000
  {
    assert Pow2(8) == 0x100 && Pow2(6) == 64;
    Pow2Add(8, 8);
    Pow2Add(16, 8);
    Pow2Add(24, 6);
    Pow2Add(24, 8);
  }

  /** The number written by a bit string. */
  function Value(b: Bits): (v: nat)
    ensures v < Pow2(|b|)
  {
    if b == [] then 0
    else 2 * Value(b[..|b| - 1]) + (if b[|b| - 1] then 1 else 0)
  }

  /** The `n` low bits of `v`. */
  function BitsOf(n: nat, v: nat): (b: Bits)
    ensures |b| == n
    decreases v, n
  {
    if n == 0 then [] else BitsOf(n - 1, v / 2) + [v % 2 == 1]
  }

  lemma {:induction false} ValueOfBitsOf(n: nat, v: nat)
    requires v < Pow2(n)
    ensures Value(BitsOf(n, v)) == v
  {
    if n > 0 {
      ValueOfBitsOf(n - 1, v / 2);
      assert BitsOf(n, v)[..n - 1] == BitsOf(n - 1, v / 2);
    }
  }

  lemma {:induction false} BitsOfValue(b: Bits)
    ensures BitsOf(|b|, Value(b)) == b
  {
    if b != [] {
      BitsOfValue(b[..|b| - 1]);
      assert b == b[..|b| - 1] + [b[|b| - 1]];
    }
  }

  /** `v >> k`. */
  function Shr(v: nat, k: nat): nat
    decreases k
  {
    if k == 0 then v else Shr(v / 2, k - 1)
  }

  /** `v << k` without a width limit. */
  function Shl(v: nat, k: nat): nat
    decreases k
  {
    if k == 0 then v else 2 * Shl(v, k - 1)
  }

  /** A wide field is its high part followed by its low part. */
  lemma {:induction false} BitsOfSplit(m: nat, n: nat, v: nat)
    ensures BitsOf(m + n, v) == BitsOf(m, Shr(v, n)) + BitsOf(n, v)
  {
    if n > 0 { BitsOfSplit(m, n - 1, v / 2); }
  }

  lemma {:induction false} HighPartIgnored(n: nat, v: nat, k: nat)
    ensures BitsOf(n, v + Shl(k, n)) == BitsOf(n, v)
  {
    if n > 0 {
      HighPartIgnored(n - 1, v / 2, k);
      assert (v + Shl(k, n)) / 2 == v / 2 + Shl(k, n - 1);
    }
  }

  lemma {:induction false} ShiftLeftBits(m: nat, k: nat, v: nat)
    ensures BitsOf(m + k, Shl(v, k)) == BitsOf(m, v) + Zeros(k)
  {
    if k > 0 { ShiftLeftBits(m, k - 1, v); }
  }

  lemma {:induction false} SmallBits(m: nat, n: nat, v: nat)
    requires v < Pow2(n)
    ensures BitsOf(m + n, v) == Zeros(m) + BitsOf(n, v)
  {
    if n > 0 { SmallBits(m, n - 1, v / 2); } else { ZeroBits(m); }
  }

  lemma {:induction false} ShrSmall(v: nat, a: nat, b: nat)
    requires v < Pow2(a + b)
    ensures Shr(v, b) < Pow2(a)
  {
    if b > 0 { ShrSmall(v / 2, a, b - 1); }
  }

  lemma {:induction false} ShlSmall(v: nat, a: nat, b: nat)
    requires v < Pow2(a)
    ensures Shl(v, b) < Pow2(a + b)
  {
    if b > 0 { ShlSmall(v, a, b - 1); }
  }

  lemma MultipleIsLarge(k: int, d: int)
    requires d > 0
    ensures k > 0 ==> k * d >= d
    ensures k < 0 ==> k * d <= -d
  {
    if k > 0 { assert (k - 1) * d >= 0; }
    if k < 0 { assert (-k - 1) * d >= 0; }
  }

  lemma ShiftByOctets(v: nat)
    ensures Shl(v, 4) == v * 0x10 && Shr(v, 4) == v / 0x10
    ensures Shl(v, 8) == v * 0x100 && Shr(v, 8) == v / 0x100
  {}

  lemma ShlBy32(v: nat)
    ensures Shl(v, 32) == v * 0x100000000
  {
    ShlAdd(v, 8, 8);
    ShlAdd(v, 16, 8);
    ShlAdd(v, 24, 8);
    ShiftByOctets(v);
    ShiftByOctets(Shl(v, 8));
    ShiftByOctets(Shl(v, 16));
    ShiftByOctets(Shl(v, 24));
  }

  lemma {:induction false} ShlAdd(v: nat, a: nat, b: nat)
    ensures Shl(v, a + b) == Shl(Shl(v, a), b)
  {
    if b > 0 { ShlAdd(v, a, b - 1); }
  }

  /** The bits of an octet string, octet after octet. */
  function BytesToBits(s: seq<Byte>): (b: Bits)
    ensures |b| == 8 * |s|
  {
    if s == [] then [] else BitsOf(8, s[0]) + BytesToBits(s[1..])
  }

  lemma {:induction false} BytesToBitsConcat(s: seq<Byte>, t: seq<Byte>)
    ensures BytesToBits(s + t) == BytesToBits(s) + BytesToBits(t)
  {
    if s == [] {
      assert s + t == t;
    } else {
      assert (s + t)[1..] == s[1..] + t;
      BytesToBitsConcat(s[1..], t);
    }
  }

  /** Whole octets from a bit string whose length is a multiple of eight. */
  function Pack(b: Bits): (s: seq<Byte>)
    requires |b| % 8 == 0
    ensures 8 * |s| == |b|
  {
    if b == [] then []
    else
      assert Pow2(8) == 256;
      [Value(b[..8])] + Pack(b[8..])
  }

  lemma {:induction false} UnpackPack(b: Bits)
    requires |b| % 8 == 0
    ensures BytesToBits(Pack(b)) == b
  {
    if b != [] {
      UnpackPack(b[8..]);
      BitsOfValue(b[..8]);
      assert Pack(b)[1..] == Pack(b[8..]);
      assert b == b[..8] + b[8..];
    }
  }

  lemma {:induction false} PackUnpack(s: seq<Byte>)
    ensures Pack(BytesToBits(s)) == s
  {
    if s != [] {
      var b := BytesToBits(s);
      assert b[..8] == BitsOf(8, s[0]) && b[8..] == BytesToBits(s[1..]);
      assert Pow2(8) == 256;
      ValueOfBitsOf(8, s[0]);
      PackUnpack(s[1..]);
    }
  }

  function Ones(n: nat): Bits { seq(n, _ => true) }

  function Zeros(n: nat): Bits { seq(n, _ => false) }

  predicate AllOnes(b: Bits) { forall i | 0 <= i < |b| :: b[i] }

  /** The low octet of `a | b`. */
  function Or(a: Byte, b: nat): Byte
  {
    assert Pow2(8) == 256;
    Value(OrBits(BitsOf(8, a), BitsOf(8, b)))
  }

  function OrBits(a: Bits, b: Bits): (c: Bits)
    requires |a| == |b|
    ensures |c| == |a| && forall i | 0 <= i < |c| :: c[i] == (a[i] || b[i])
  {
    seq(|a|, i requires 0 <= i < |a| => a[i] || b[i])
  }

  lemma {:induction false} ZeroBits(n: nat)
    ensures BitsOf(n, 0) == Zeros(n)
  {
    if n > 0 { ZeroBits(n - 1); }
  }

  /** The low 32 bits decide every narrower field. */
  lemma Low32Bits(n: nat, v: nat)
    requires n <= 32
    ensures BitsOf(n, v % 0x100000000) == BitsOf(n, v)
  {
    var w := v % 0x100000000;
    ShlBy32(v / 0x100000000);
    HighPartIgnored(32, w, v / 0x100000000);
    NarrowField(32, n, v, w);
  }

  lemma {:induction false} NarrowField(width: nat, n: nat, v: nat, w: nat)
    requires n <= width && BitsOf(width, v) == BitsOf(width, w)
    ensures BitsOf(n, v) == BitsOf(n, w)
  {
    if n > 0 {
      assert BitsOf(width, v)[..width - 1] == BitsOf(width - 1, v / 2);
      assert BitsOf(width, w)[..width - 1] == BitsOf(width - 1, w / 2);
      assert BitsOf(width, v)[width - 1] == (v % 2 == 1);
      NarrowField(width - 1, n - 1, v / 2, w / 2);
    }
  }

  /** The `k` low octets of `v`, most significant first. */
  function BigEndian(k: nat, v: nat): (s: seq<Byte>)
    ensures |s| == k
  {
    if k == 0 then [] else BigEndian(k - 1, v / 256) + [v % 256]
  }

  lemma {:induction false} BigEndianAt(k: nat, v: nat, i: nat)
    requires i < k
    ensures BigEndian(k, v)[i] == Shr(v, 8 * (k - 1 - i)) % 256
  {
    if i < k - 1 {
      BigEndianAt(k - 1, v / 256, i);
      ShrOctet(v, 8 * (k - 2 - i));
    }
  }

  lemma ShrOctet(v: nat, n: nat)
    ensures Shr(v / 256, n) == Shr(v, 8 + n)
  {
    ShrAdd(v, 8, n);
    ShiftByOctets(v);
  }

  lemma {:induction false} ShrAdd(v: nat, a: nat, b: nat)
    ensures Shr(v, a + b) == Shr(Shr(v, a), b)
    decreases a
  {
    if a > 0 { ShrAdd(v / 2, a - 1, b); }
  }

  lemma {:induction false} BigEndianBits(k: nat, v: nat)
    ensures BytesToBits(BigEndian(k, v)) == BitsOf(8 * k, v)
  {
    if k > 0 {
      BigEndianBits(k - 1, v / 256);
      BytesToBitsConcat(BigEndian(k - 1, v / 256), [v % 256]);
      ShiftByOctets(v);
      ShiftByOctets(v / 256);
      BitsOfSplit(8 * (k - 1), 8, v);
      HighPartIgnored(8, v % 256, v / 256);
      OneOctetBits(v % 256);
    }
  }

  lemma OneOctetBits(b: Byte)
    ensures BytesToBits([b]) == BitsOf(8, b)
  {
    assert BytesToBits([b]) == BitsOf(8, b) + BytesToBits([]);
  }

  // ------------------------------------------------------------------------ pieces

  /** Pieces one after the other. */
  function Concat(pieces: seq<seq<Byte>>): seq<Byte>
  {
    if pieces == [] then [] else pieces[0] + Concat(pieces[1..])
  }

  lemma {:induction false} ConcatLast(pieces: seq<seq<Byte>>)
    requires pieces != []
    ensures Concat(pieces) == Concat(pieces[..|pieces| - 1]) + pieces[|pieces| - 1]
    decreases |pieces|
  {
    if |pieces| > 1 {
      ConcatLast(pieces[1..]);
      assert pieces[1..][..|pieces| - 2] == pieces[..|pieces| - 1][1..];
    }
  }
}
